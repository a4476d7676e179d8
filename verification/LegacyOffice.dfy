/** Importing a dump and syncing a newer one, on Office's tables:
    src/suliko/domain/tarjimnebi_import.py. An order is known in Office by its id in the old
    system (its `source`). */
module LegacyOffice {
  import opened Options
  import opened Grouping
  import opened LegacyPayments
  import opened LegacySync

  // ---- Office, and the two ways to bring it up to date ----

  /** An order to record: a new one, or one that is here with only what is new about it, and
      the status it had in the earlier dump. */
  datatype Task = Task(raw: Raw, was: Option<string>)

  datatype Tables = Tables(orders: map<int, int>, events: seq<Item<int, Event>>, comments: seq<Item<int, Note>>, payments: seq<ClientPayment>)

  function DeltaOf(before: Raw, now: Raw): Task {
    Task(now.(history := Added(before.history, now.history, ChangeIdentity),
              comments := Added(before.comments, now.comments, NoteIdentity),
              payments := Added(before.payments, now.payments, PayIdentity)), Some(before.status))
  }

  predicate HasNews(delta: Task, before: Raw) {
    || delta.raw.status != before.status || delta.raw.history != [] || delta.raw.comments != [] || delta.raw.payments != []
  }

  function NewTasks(here: map<int, int>, dump: seq<Raw>): seq<Task> {
    if dump == [] then []
    else
      var rest, last := NewTasks(here, dump[..|dump| - 1]), dump[|dump| - 1];
      if last.id in here then rest else rest + [Task(last, None)]
  }

  /** What is new about an order that is here and was in the earlier dump. */
  function ChangeTask(here: map<int, int>, previous: map<int, Raw>, now: Raw): seq<Task> {
    if now.id in here && now.id in previous then
      var delta := DeltaOf(previous[now.id], now);
      if HasNews(delta, previous[now.id]) then [delta.(raw := delta.raw.(client := here[now.id]))] else []
    else []
  }

  function ChangeTasks(here: map<int, int>, previous: map<int, Raw>, dump: seq<Raw>): seq<Task> {
    if dump == [] then [] else ChangeTasks(here, previous, dump[..|dump| - 1]) + ChangeTask(here, previous, dump[|dump| - 1])
  }

  /** The status an order shows in Office; empty when it has none. */
  function ShownStatus(events: seq<Item<int, Event>>, order: int): string {
    var own := Values(events, order);
    if own == [] then "" else Latest(own).status
  }

  function TaskEvents(stored: seq<Item<int, Event>>, task: Task, now: int): seq<Event> {
    if task.was.None? then ImportEvents(task.raw, now)
    else SyncEvents(task.raw.history, task.was.value, task.raw.status, ShownStatus(stored, task.raw.id), now)
  }

  function Under<T>(order: int, rows: seq<T>): seq<Item<int, T>> {
    seq(|rows|, i requires 0 <= i < |rows| => Item(order, rows[i]))
  }

  function AllEvents(stored: seq<Item<int, Event>>, tasks: seq<Task>, now: int): seq<Item<int, Event>> {
    if tasks == [] then []
    else
      var last := tasks[|tasks| - 1];
      AllEvents(stored, tasks[..|tasks| - 1], now) + Under(last.raw.id, TaskEvents(stored, last, now))
  }

  function AllComments(tasks: seq<Task>): seq<Item<int, Note>> {
    if tasks == [] then []
    else AllComments(tasks[..|tasks| - 1]) + Under(tasks[|tasks| - 1].raw.id, tasks[|tasks| - 1].raw.comments)
  }

  function PaidOf(tasks: seq<Task>): seq<Paid> {
    seq(|tasks|, i requires 0 <= i < |tasks| => Paid(tasks[i].raw.id, tasks[i].raw.client, tasks[i].raw.payments))
  }

  function OrdersAfter(here: map<int, int>, tasks: seq<Task>): map<int, int> {
    if tasks == [] then here
    else OrdersAfter(here, tasks[..|tasks| - 1])[tasks[|tasks| - 1].raw.id := tasks[|tasks| - 1].raw.client]
  }

  function Recorded(t: Tables, tasks: seq<Task>, now: int): Tables {
    Tables(OrdersAfter(t.orders, tasks), t.events + AllEvents(t.events, tasks, now), t.comments + AllComments(tasks),
           t.payments + Payments(PaidOf(tasks)))
  }

  const EMPTY := Tables(map[], [], [], [])

  function ById(dump: seq<Raw>): map<int, Raw> {
    if dump == [] then map[] else ById(dump[..|dump| - 1])[dump[|dump| - 1].id := dump[|dump| - 1]]
  }

  function Imported(dump: seq<Raw>, now: int): Tables {
    Recorded(EMPTY, NewTasks(map[], dump), now)
  }

  function Synced(t: Tables, previous: seq<Raw>, dump: seq<Raw>, now: int): Tables {
    Recorded(t, NewTasks(t.orders, dump) + ChangeTasks(t.orders, ById(previous), dump), now)
  }

  class Office {
    var orders: map<int, int>
    var events: seq<Item<int, Event>>
    var comments: seq<Item<int, Note>>
    var payments: seq<ClientPayment>

    ghost function Holds(): Tables
      reads this
    {
      Tables(orders, events, comments, payments)
    }

    constructor ()
      ensures Holds() == EMPTY
    {
      orders, events, comments, payments := map[], [], [], [];
    }

    method AddOrders(tasks: seq<Task>)
      modifies this`orders
      ensures orders == OrdersAfter(old(orders), tasks)
    {
      for i := 0 to |tasks|
        invariant orders == OrdersAfter(old(orders), tasks[..i])
      {
        assert tasks[..i + 1][..i] == tasks[..i];
        orders := orders[tasks[i].raw.id := tasks[i].raw.client];
      }
      assert tasks[..|tasks|] == tasks;
    }

    /** The events of each task's order, by what was stored before any of them. */
    method AddEvents(tasks: seq<Task>, now: int)
      modifies this`events
      ensures events == old(events) + AllEvents(old(events), tasks, now)
    {
      var stored, more := events, [];
      for i := 0 to |tasks|
        invariant more == AllEvents(stored, tasks[..i], now) && events == stored
      {
        hide TaskEvents;
        assert tasks[..i + 1][..i] == tasks[..i];
        more := more + Under(tasks[i].raw.id, TaskEvents(stored, tasks[i], now));
      }
      assert tasks[..|tasks|] == tasks;
      events := events + more;
    }

    method AddComments(tasks: seq<Task>)
      modifies this`comments
      ensures comments == old(comments) + AllComments(tasks)
    {
      var more := [];
      for i := 0 to |tasks|
        invariant more == AllComments(tasks[..i]) && comments == old(comments)
      {
        assert tasks[..i + 1][..i] == tasks[..i];
        more := more + Under(tasks[i].raw.id, tasks[i].raw.comments);
      }
      assert tasks[..|tasks|] == tasks;
      comments := comments + more;
    }

    /** The steps after the orders that take part are known. */
    method Record(tasks: seq<Task>, now: int)
      modifies this
      ensures Holds() == Recorded(old(Holds()), tasks, now)
    {
      hide AllEvents, AllComments, OrdersAfter, Payments, PaidOf;
      AddOrders(tasks);
      AddEvents(tasks, now);
      AddComments(tasks);
      var more := MoneyIn(PaidOf(tasks));
      payments := payments + more;
    }

    /** A full import; refused where an earlier one left orders. */
    method Import(dump: seq<Raw>, now: int) returns (done: bool)
      modifies this
      ensures done <==> old(orders) == map[]
      ensures Holds() == if done then Recorded(old(Holds()), NewTasks(map[], dump), now) else old(Holds())
    {
      if orders != map[] { return false; }
      var tasks := FindNew(orders, dump);
      Record(tasks, now);
      return true;
    }

    /** A sync against the dump the import was made from; refused where there was none. */
    method Sync(previous: seq<Raw>, dump: seq<Raw>, now: int) returns (done: bool)
      modifies this
      ensures done <==> old(orders) != map[]
      ensures old(events) <= events && old(comments) <= comments && old(payments) <= payments
      ensures Holds() == if done then Synced(old(Holds()), previous, dump, now) else old(Holds())
    {
      if orders == map[] { return false; }
      var added := FindNew(orders, dump);
      var changed := FindChanged(orders, previous, dump);
      Record(added + changed, now);
      return true;
    }
  }

  method FindNew(here: map<int, int>, dump: seq<Raw>) returns (tasks: seq<Task>)
    ensures tasks == NewTasks(here, dump)
  {
    tasks := [];
    for i := 0 to |dump|
      invariant tasks == NewTasks(here, dump[..i])
    {
      assert dump[..i + 1][..i] == dump[..i];
      if dump[i].id !in here { tasks := tasks + [Task(dump[i], None)]; }
    }
    assert dump[..|dump|] == dump;
  }

  method FindChanged(here: map<int, int>, previous: seq<Raw>, dump: seq<Raw>) returns (tasks: seq<Task>)
    ensures tasks == ChangeTasks(here, ById(previous), dump)
  {
    var before: map<int, Raw> := map[];
    for i := 0 to |previous|
      invariant before == ById(previous[..i])
    {
      assert previous[..i + 1][..i] == previous[..i];
      before := before[previous[i].id := previous[i]];
    }
    assert previous[..|previous|] == previous;
    tasks := [];
    for i := 0 to |dump|
      invariant tasks == ChangeTasks(here, before, dump[..i])
    {
      assert dump[..i + 1][..i] == dump[..i];
      var now := dump[i];
      if now.id in here && now.id in before {
        var history := FindAdded(before[now.id].history, now.history, ChangeIdentity);
        var comments := FindAdded(before[now.id].comments, now.comments, NoteIdentity);
        var payments := FindAdded(before[now.id].payments, now.payments, PayIdentity);
        var delta := Task(now.(client := here[now.id], history := history, comments := comments, payments := payments),
                          Some(before[now.id].status));
        if HasNews(delta, before[now.id]) { tasks := tasks + [delta]; }
      }
    }
    assert dump[..|dump|] == dump;
  }

  // ---- One order through both ----

  /** The entries of a dump for an order. */
  function RawsOf(dump: seq<Raw>, order: int): seq<Raw> {
    if dump == [] then []
    else
      var rest, last := RawsOf(dump[..|dump| - 1], order), dump[|dump| - 1];
      if last.id == order then rest + [last] else rest
  }

  function TasksOf(tasks: seq<Task>, order: int): seq<Task> {
    if tasks == [] then []
    else
      var rest, last := TasksOf(tasks[..|tasks| - 1], order), tasks[|tasks| - 1];
      if last.raw.id == order then rest + [last] else rest
  }

  lemma {:induction false} TasksConcat(a: seq<Task>, b: seq<Task>, order: int)
    ensures TasksOf(a + b, order) == TasksOf(a, order) + TasksOf(b, order)
  {
    if b == [] {
      assert a + b == a;
    } else {
      TasksConcat(a, b[..|b| - 1], order);
      assert (a + b)[..|a + b| - 1] == a + b[..|b| - 1];
    }
  }

  lemma {:induction false} NewTasksOf(here: map<int, int>, dump: seq<Raw>, order: int)
    ensures order in here ==> TasksOf(NewTasks(here, dump), order) == []
    ensures order !in here ==>
              |TasksOf(NewTasks(here, dump), order)| == |RawsOf(dump, order)|
              && forall i | 0 <= i < |RawsOf(dump, order)| ::
                   TasksOf(NewTasks(here, dump), order)[i] == Task(RawsOf(dump, order)[i], None)
  {
    if dump != [] {
      var rest, last := dump[..|dump| - 1], dump[|dump| - 1];
      NewTasksOf(here, rest, order);
      TasksConcat(NewTasks(here, rest), [Task(last, None)], order);
      OneTask(Task(last, None), order);
    }
  }

  lemma OneTask(task: Task, order: int)
    ensures TasksOf([task], order) == if task.raw.id == order then [task] else []
  {
    assert [task][..0] == [];
    assert TasksOf([task][..0], order) == [];
  }

  lemma {:induction false} ChangeTasksOf(here: map<int, int>, previous: map<int, Raw>, dump: seq<Raw>, order: int)
    ensures RawsOf(dump, order) == [] ==> TasksOf(ChangeTasks(here, previous, dump), order) == []
    ensures |RawsOf(dump, order)| == 1 ==>
              TasksOf(ChangeTasks(here, previous, dump), order) == ChangeTask(here, previous, RawsOf(dump, order)[0])
  {
    if dump != [] {
      var rest, last := dump[..|dump| - 1], dump[|dump| - 1];
      ChangeTasksOf(here, previous, rest, order);
      var more := ChangeTask(here, previous, last);
      TasksConcat(ChangeTasks(here, previous, rest), more, order);
      if more != [] {
        assert more == [more[0]] && more[0].raw.id == last.id;
        OneTask(more[0], order);
      }
    }
  }

  lemma {:induction false} ByIdIsLast(dump: seq<Raw>, order: int)
    ensures order in ById(dump) <==> RawsOf(dump, order) != []
    ensures order in ById(dump) ==> ById(dump)[order] == RawsOf(dump, order)[|RawsOf(dump, order)| - 1]
  {
    if dump != [] { ByIdIsLast(dump[..|dump| - 1], order); }
  }

  lemma {:induction false} OrdersAre(here: map<int, int>, tasks: seq<Task>, order: int)
    ensures order in OrdersAfter(here, tasks) <==> order in here || TasksOf(tasks, order) != []
  {
    if tasks != [] { OrdersAre(here, tasks[..|tasks| - 1], order); }
  }

  lemma {:induction false} ValuesConcat<T>(a: seq<Item<int, T>>, b: seq<Item<int, T>>, key: int)
    ensures Values(a + b, key) == Values(a, key) + Values(b, key)
  {
    if b == [] {
      assert a + b == a;
    } else {
      ValuesConcat(a, b[..|b| - 1], key);
      assert (a + b)[..|a + b| - 1] == a + b[..|b| - 1];
    }
  }

  lemma {:induction false} ValuesUnder<T>(order: int, rows: seq<T>, key: int)
    ensures Values(Under(order, rows), key) == if key == order then rows else []
  {
    if rows != [] {
      ValuesUnder(order, rows[..|rows| - 1], key);
      assert Under(order, rows)[..|rows| - 1] == Under(order, rows[..|rows| - 1]);
    }
  }

  function EventsOfTasks(stored: seq<Item<int, Event>>, tasks: seq<Task>, now: int): seq<Event> {
    if tasks == [] then []
    else EventsOfTasks(stored, tasks[..|tasks| - 1], now) + TaskEvents(stored, tasks[|tasks| - 1], now)
  }

  function NotesOfTasks(tasks: seq<Task>): seq<Note> {
    if tasks == [] then [] else NotesOfTasks(tasks[..|tasks| - 1]) + tasks[|tasks| - 1].raw.comments
  }

  function RowsOfTasks(tasks: seq<Task>): int {
    if tasks == [] then 0 else RowsOfTasks(tasks[..|tasks| - 1]) + RowSum(tasks[|tasks| - 1].raw.payments)
  }

  /** An order's rows come from its own tasks. */
  lemma {:induction false} EventsAreOwn(stored: seq<Item<int, Event>>, tasks: seq<Task>, now: int, order: int)
    ensures Values(AllEvents(stored, tasks, now), order) == EventsOfTasks(stored, TasksOf(tasks, order), now)
  {
    if tasks != [] {
      hide TaskEvents, Values;
      var rest, last := tasks[..|tasks| - 1], tasks[|tasks| - 1];
      EventsAreOwn(stored, rest, now, order);
      ValuesConcat(AllEvents(stored, rest, now), Under(last.raw.id, TaskEvents(stored, last, now)), order);
      ValuesUnder(last.raw.id, TaskEvents(stored, last, now), order);
      assert (TasksOf(rest, order) + [last])[..|TasksOf(rest, order)|] == TasksOf(rest, order);
    }
  }

  lemma {:induction false} NotesAreOwn(tasks: seq<Task>, order: int)
    ensures Values(AllComments(tasks), order) == NotesOfTasks(TasksOf(tasks, order))
  {
    if tasks != [] {
      hide Values;
      var rest, last := tasks[..|tasks| - 1], tasks[|tasks| - 1];
      NotesAreOwn(rest, order);
      ValuesConcat(AllComments(rest), Under(last.raw.id, last.raw.comments), order);
      ValuesUnder(last.raw.id, last.raw.comments, order);
      assert (TasksOf(rest, order) + [last])[..|TasksOf(rest, order)|] == TasksOf(rest, order);
    }
  }

  lemma {:induction false} MoneyIsOwn(tasks: seq<Task>, order: int)
    ensures RowsOf(PaidOf(tasks), order) == RowsOfTasks(TasksOf(tasks, order))
  {
    if tasks != [] {
      var rest, last := tasks[..|tasks| - 1], tasks[|tasks| - 1];
      MoneyIsOwn(rest, order);
      assert PaidOf(tasks)[..|tasks| - 1] == PaidOf(rest);
      assert (TasksOf(rest, order) + [last])[..|TasksOf(rest, order)|] == TasksOf(rest, order);
    }
  }

  lemma RowsAreOwn(stored: seq<Item<int, Event>>, tasks: seq<Task>, now: int, order: int)
    ensures Values(AllEvents(stored, tasks, now), order) == EventsOfTasks(stored, TasksOf(tasks, order), now)
    ensures Values(AllComments(tasks), order) == NotesOfTasks(TasksOf(tasks, order))
    ensures RowsOf(PaidOf(tasks), order) == RowsOfTasks(TasksOf(tasks, order))
  {
    hide *;
    EventsAreOwn(stored, tasks, now, order);
    NotesAreOwn(tasks, order);
    MoneyIsOwn(tasks, order);
  }

  lemma OneTaskRows(stored: seq<Item<int, Event>>, task: Task, now: int)
    ensures EventsOfTasks(stored, [task], now) == TaskEvents(stored, task, now)
    ensures NotesOfTasks([task]) == task.raw.comments
    ensures RowsOfTasks([task]) == RowSum(task.raw.payments)
  {
    assert [task][..0] == [];
    assert EventsOfTasks(stored, [task][..0], now) == [] && NotesOfTasks([task][..0]) == [] && RowsOfTasks([task][..0]) == 0;
  }

  /** What a full import leaves of an order. */
  lemma ImportedOrder(dump: seq<Raw>, now: int, raw: Raw)
    requires RawsOf(dump, raw.id) == [raw]
    ensures var t := Imported(dump, now);
            && raw.id in t.orders && Values(t.events, raw.id) == ImportEvents(raw, now)
            && Values(t.comments, raw.id) == raw.comments
            && RowsOf(PaidOf(NewTasks(map[], dump)), raw.id) == RowSum(raw.payments)
  {
    hide ImportEvents, AllEvents, AllComments, Payments, OrdersAfter, Values, NewTasks, RawsOf, PaidOf, RowsOf, TasksOf;
    var tasks := NewTasks(map[], dump);
    NewTasksOf(map[], dump, raw.id);
    assert TasksOf(tasks, raw.id) == [Task(raw, None)];
    RowsAreOwn([], tasks, now, raw.id);
    OneTaskRows([], Task(raw, None), now);
    OrdersAre(map[], tasks, raw.id);
    assert [] + AllEvents([], tasks, now) == AllEvents([], tasks, now) && [] + AllComments(tasks) == AllComments(tasks);
  }

  lemma {:induction false} NotImportedOrder(dump: seq<Raw>, now: int, order: int)
    requires RawsOf(dump, order) == []
    ensures var t := Imported(dump, now);
            && order !in t.orders && Values(t.events, order) == [] && Values(t.comments, order) == []
            && RowsOf(PaidOf(NewTasks(map[], dump)), order) == 0
  {
    hide ImportEvents, AllEvents, AllComments, Payments, OrdersAfter, Values, NewTasks, RawsOf, PaidOf, RowsOf;
    var tasks := NewTasks(map[], dump);
    NewTasksOf(map[], dump, order);
    assert TasksOf(tasks, order) == [];
    RowsAreOwn([], tasks, now, order);
    OrdersAre(map[], tasks, order);
    assert [] + AllEvents([], tasks, now) == AllEvents([], tasks, now) && [] + AllComments(tasks) == AllComments(tasks);
  }

  /** What a sync makes of an order the earlier import brought. */
  lemma SyncedOrder(previous: seq<Raw>, dump: seq<Raw>, first: int, now: int, was: Raw, raw: Raw)
    requires RawsOf(previous, was.id) == [was] && RawsOf(dump, raw.id) == [raw] && was.id == raw.id
    ensures var t := Imported(previous, first);
            var tasks := NewTasks(t.orders, dump) + ChangeTasks(t.orders, ById(previous), dump);
            var u := Synced(t, previous, dump, now);
            && Values(u.events, raw.id) == ImportEvents(was, first)
               + SyncEvents(Added(was.history, raw.history, ChangeIdentity), was.status, raw.status,
                            ShownStatus(t.events, raw.id), now)
            && Values(u.comments, raw.id) == was.comments + Added(was.comments, raw.comments, NoteIdentity)
            && RowsOf(PaidOf(tasks), raw.id) == RowSum(Added(was.payments, raw.payments, PayIdentity))
  {
    hide ImportEvents, AllEvents, AllComments, Payments, OrdersAfter, Values, NewTasks, RawsOf, PaidOf, RowsOf, TasksOf,
         ChangeTasks, ShownStatus, Added, Imported, ById, OldestFirst, Stored;
    var t := Imported(previous, first);
    ImportedOrder(previous, first, was);
    var tasks := NewTasks(t.orders, dump) + ChangeTasks(t.orders, ById(previous), dump);
    NewTasksOf(t.orders, dump, raw.id);
    ChangeTasksOf(t.orders, ById(previous), dump, raw.id);
    ByIdIsLast(previous, raw.id);
    TasksConcat(NewTasks(t.orders, dump), ChangeTasks(t.orders, ById(previous), dump), raw.id);
    assert [] + ChangeTask(t.orders, ById(previous), raw) == ChangeTask(t.orders, ById(previous), raw);
    RowsAreOwn(t.events, tasks, now, raw.id);
    ValuesConcat(t.events, AllEvents(t.events, tasks, now), raw.id);
    ValuesConcat(t.comments, AllComments(tasks), raw.id);
    ChangeRows(t.orders, t.events, was, raw, ById(previous), now);
  }

  lemma ChangeRows(here: map<int, int>, stored: seq<Item<int, Event>>, was: Raw, raw: Raw, previous: map<int, Raw>, now: int)
    requires raw.id in here && raw.id in previous && previous[raw.id] == was
    ensures var tasks := ChangeTask(here, previous, raw);
            && EventsOfTasks(stored, tasks, now)
               == SyncEvents(Added(was.history, raw.history, ChangeIdentity), was.status, raw.status, ShownStatus(stored, raw.id), now)
            && NotesOfTasks(tasks) == Added(was.comments, raw.comments, NoteIdentity)
            && RowsOfTasks(tasks) == RowSum(Added(was.payments, raw.payments, PayIdentity))
  {
    hide Added, ShownStatus, Stored;
    var delta := DeltaOf(was, raw);
    var task := delta.(raw := delta.raw.(client := here[raw.id]));
    if HasNews(delta, was) {
      OneTaskRows(stored, task, now);
    } else {
      assert OldestFirst([]) == [];
    }
  }

  /** What a sync makes of an order the earlier dump did not have. */
  lemma SyncedNewOrder(previous: seq<Raw>, dump: seq<Raw>, first: int, now: int, raw: Raw)
    requires RawsOf(previous, raw.id) == [] && RawsOf(dump, raw.id) == [raw]
    ensures var t := Imported(previous, first);
            var tasks := NewTasks(t.orders, dump) + ChangeTasks(t.orders, ById(previous), dump);
            var u := Synced(t, previous, dump, now);
            && Values(u.events, raw.id) == ImportEvents(raw, now) && Values(u.comments, raw.id) == raw.comments
            && RowsOf(PaidOf(tasks), raw.id) == RowSum(raw.payments)
  {
    hide ImportEvents, AllEvents, AllComments, Payments, OrdersAfter, Values, NewTasks, RawsOf, PaidOf, RowsOf, TasksOf,
         ChangeTasks, ShownStatus, Added, Imported, ById;
    var t := Imported(previous, first);
    NotImportedOrder(previous, first, raw.id);
    var tasks := NewTasks(t.orders, dump) + ChangeTasks(t.orders, ById(previous), dump);
    NewTasksOf(t.orders, dump, raw.id);
    ChangeTasksOf(t.orders, ById(previous), dump, raw.id);
    TasksConcat(NewTasks(t.orders, dump), ChangeTasks(t.orders, ById(previous), dump), raw.id);
    assert TasksOf(tasks, raw.id) == [Task(raw, None)];
    RowsAreOwn(t.events, tasks, now, raw.id);
    OneTaskRows(t.events, Task(raw, None), now);
    ValuesConcat(t.events, AllEvents(t.events, tasks, now), raw.id);
    ValuesConcat(t.comments, AllComments(tasks), raw.id);
    assert [] + ImportEvents(raw, now) == ImportEvents(raw, now) && [] + raw.comments == raw.comments;
  }

  // ---- A sync gives what importing the newer dump would ----

  predicate AmountsArePositive(dump: seq<Raw>) {
    forall i, j | 0 <= i < |dump| && 0 <= j < |dump[i].payments| :: dump[i].payments[j].amount > 0
  }

  ghost predicate PaysPositive(pays: seq<Pay>) {
    forall i | 0 <= i < |pays| :: pays[i].amount > 0
  }

  ghost predicate TasksPositive(tasks: seq<Task>) {
    forall i | 0 <= i < |tasks| :: PaysPositive(tasks[i].raw.payments)
  }

  lemma {:induction false} AddedAmong<T, I>(before: seq<T>, now: seq<T>, identity: T -> I)
    ensures forall r | r in Added(before, now, identity) :: r in now
  {
    if now != [] { AddedAmong(before, now[..|now| - 1], identity); }
  }

  lemma {:induction false} NewTasksPositive(here: map<int, int>, dump: seq<Raw>)
    requires AmountsArePositive(dump)
    ensures TasksPositive(NewTasks(here, dump))
  {
    if dump != [] {
      NewTasksPositive(here, dump[..|dump| - 1]);
      assert PaysPositive(dump[|dump| - 1].payments);
    }
  }

  lemma {:induction false} ChangeTasksPositive(here: map<int, int>, previous: map<int, Raw>, dump: seq<Raw>)
    requires AmountsArePositive(dump)
    ensures TasksPositive(ChangeTasks(here, previous, dump))
  {
    if dump != [] {
      var last := dump[|dump| - 1];
      ChangeTasksPositive(here, previous, dump[..|dump| - 1]);
      if last.id in previous {
        var added := Added(previous[last.id].payments, last.payments, PayIdentity);
        AddedAmong(previous[last.id].payments, last.payments, PayIdentity);
        forall i | 0 <= i < |added| ensures added[i].amount > 0 { assert added[i] in last.payments; }
        assert PaysPositive(added);
      }
    }
  }

  lemma TasksMoney(tasks: seq<Task>, order: int)
    requires TasksPositive(tasks)
    ensures PaidTo(Payments(PaidOf(tasks)), order) == RowsOf(PaidOf(tasks), order)
  {
    forall i, j | 0 <= i < |PaidOf(tasks)| && 0 <= j < |PaidOf(tasks)[i].payments|
      ensures PaidOf(tasks)[i].payments[j].amount >= 0
    {
      assert PaysPositive(tasks[i].raw.payments);
    }
    MoneyIsConserved(PaidOf(tasks), order);
  }

  lemma {:induction false} PaidConcat(a: seq<ClientPayment>, b: seq<ClientPayment>, order: int)
    ensures PaidTo(a + b, order) == PaidTo(a, order) + PaidTo(b, order)
  {
    if b == [] {
      assert a + b == a;
    } else {
      PaidConcat(a, b[..|b| - 1], order);
      assert (a + b)[..|a + b| - 1] == a + b[..|b| - 1];
    }
  }

  /** What Office holds an order to be paid, after a full import and after a sync. */
  lemma PaidAfter(previous: seq<Raw>, dump: seq<Raw>, first: int, now: int, order: int)
    requires AmountsArePositive(previous) && AmountsArePositive(dump)
    ensures var t := Imported(previous, first);
            var tasks := NewTasks(t.orders, dump) + ChangeTasks(t.orders, ById(previous), dump);
            && PaidTo(t.payments, order) == RowsOf(PaidOf(NewTasks(map[], previous)), order)
            && PaidTo(Synced(t, previous, dump, now).payments, order)
               == PaidTo(t.payments, order) + RowsOf(PaidOf(tasks), order)
  {
    hide Payments, PaidTo, RowsOf, PaidOf, AllEvents, AllComments, NewTasks, ChangeTasks, OrdersAfter, ById, AmountsArePositive;
    var t := Imported(previous, first);
    var tasks := NewTasks(t.orders, dump) + ChangeTasks(t.orders, ById(previous), dump);
    NewTasksPositive(map[], previous);
    NewTasksPositive(t.orders, dump);
    ChangeTasksPositive(t.orders, ById(previous), dump);
    assert TasksPositive(tasks);
    TasksMoney(NewTasks(map[], previous), order);
    TasksMoney(tasks, order);
    assert [] + Payments(PaidOf(NewTasks(map[], previous))) == Payments(PaidOf(NewTasks(map[], previous)));
    PaidConcat(t.payments, Payments(PaidOf(tasks)), order);
  }

  /** An order both dumps have, whose payments the newer one only adds to: after the sync it is
      paid what a full import of the newer dump would have it paid, exactly when no added payment
      repeats an earlier one in everything but its method; otherwise it is paid less. */
  lemma SyncedMoneyIsImported(previous: seq<Raw>, dump: seq<Raw>, first: int, now: int, later: int, was: Raw, raw: Raw)
    requires RawsOf(previous, was.id) == [was] && RawsOf(dump, raw.id) == [raw] && was.id == raw.id
    requires AmountsArePositive(previous) && AmountsArePositive(dump)
    requires multiset(was.payments) <= multiset(raw.payments)
    ensures var synced := PaidTo(Synced(Imported(previous, first), previous, dump, now).payments, raw.id);
            var imported := PaidTo(Imported(dump, later).payments, raw.id);
            synced <= imported && (synced == imported <==> NoneRepeats(was.payments, raw.payments, PayIdentity))
  {
    hide Imported, Synced, RawsOf, PaidTo, RowsOf, PaidOf, NewTasks, ChangeTasks, Added, RowSum, NoneRepeats, ById;
    PaidAfter(previous, dump, first, now, raw.id);
    PaidAfter(dump, dump, later, now, raw.id);
    ImportedOrder(previous, first, was);
    ImportedOrder(dump, later, raw);
    SyncedOrder(previous, dump, first, now, was, raw);
    RawIsPositive(dump, raw);
    SyncedRowsAddUp(was.payments, raw.payments);
  }

  lemma {:induction false} RawsAmong(dump: seq<Raw>, order: int)
    ensures forall r | r in RawsOf(dump, order) :: r in dump && r.id == order
  {
    if dump != [] { RawsAmong(dump[..|dump| - 1], order); }
  }

  lemma RawIsPositive(dump: seq<Raw>, raw: Raw)
    requires RawsOf(dump, raw.id) == [raw] && AmountsArePositive(dump)
    ensures forall p | p in raw.payments :: p.amount > 0
  {
    RawsAmong(dump, raw.id);
    assert raw in RawsOf(dump, raw.id);
    var i :| 0 <= i < |dump| && dump[i] == raw;
    forall p | p in raw.payments ensures p.amount > 0 {
      var j :| 0 <= j < |raw.payments| && raw.payments[j] == p;
      assert dump[i].payments[j].amount > 0;
    }
  }

  /** The same of its comments, by their ids. */
  lemma SyncedNotesAreImported(previous: seq<Raw>, dump: seq<Raw>, first: int, now: int, later: int, was: Raw, raw: Raw)
    requires RawsOf(previous, was.id) == [was] && RawsOf(dump, raw.id) == [raw] && was.id == raw.id
    requires multiset(was.comments) <= multiset(raw.comments)
    ensures var synced := Values(Synced(Imported(previous, first), previous, dump, now).comments, raw.id);
            multiset(synced) == multiset(Values(Imported(dump, later).comments, raw.id))
            <==> NoneRepeats(was.comments, raw.comments, NoteIdentity)
  {
    hide Imported, Synced, RawsOf, NewTasks, ChangeTasks, Added, NoneRepeats, Values, ById;
    ImportedOrder(dump, later, raw);
    SyncedOrder(previous, dump, first, now, was, raw);
    AddedCompletes(was.comments, raw.comments, NoteIdentity);
  }

  /** And it shows the newer dump's status, as an import of that dump would, exactly when its
      added history is not overtaken; given that the first import showed the earlier one. */
  lemma SyncedStatusIsImported(previous: seq<Raw>, dump: seq<Raw>, first: int, now: int, later: int, was: Raw, raw: Raw)
    requires RawsOf(previous, was.id) == [was] && RawsOf(dump, raw.id) == [raw] && was.id == raw.id
    requires was.status == Clip(was.status) != "" && raw.status != ""
    requires !Overtaken(Stored(Timeless(was.history), was.date), Timed(was.history), was.status)
    requires !Overtaken(Stored(Timeless(raw.history), raw.date), Timed(raw.history), raw.status)
    requires NotAfter(ImportEvents(was, first), first) && NotAfter(ImportEvents(raw, later), later)
    requires var added := Added(was.history, raw.history, ChangeIdentity);
             NotAfter(ImportEvents(was, first) + SyncEvents(added, was.status, raw.status, was.status, now), now)
    ensures var synced := ShownStatus(Synced(Imported(previous, first), previous, dump, now).events, raw.id);
            var added := Added(was.history, raw.history, ChangeIdentity);
            && ShownStatus(Imported(dump, later).events, raw.id) == Clip(raw.status)
            && (synced == Clip(raw.status)
                <==> !Overtaken(ImportEvents(was, first) + Stored(Timeless(added), now), Timed(added), raw.status))
  {
    FirstShowsIs(was);
    SyncedStatusExactly(previous, dump, first, now, later, was, raw);
  }

  /** Whether the first import showed the earlier dump's status. */
  ghost predicate FirstShows(was: Raw) {
    was.status == Clip(was.status) && !Overtaken(Stored(Timeless(was.history), was.date), Timed(was.history), was.status)
  }

  /** In every case: where the first import did not show the earlier dump's status, the order is taken
      for changed in Office, and the sync adds nothing to its history; where it did, the newer
      status is shown exactly when what is added is not overtaken. And an import of the newer dump
      shows that status exactly when its own history is not. */
  lemma SyncedStatusExactly(previous: seq<Raw>, dump: seq<Raw>, first: int, now: int, later: int, was: Raw, raw: Raw)
    requires RawsOf(previous, was.id) == [was] && RawsOf(dump, raw.id) == [raw] && was.id == raw.id
    requires was.status != "" && raw.status != ""
    requires NotAfter(ImportEvents(was, first), first) && NotAfter(ImportEvents(raw, later), later)
    requires var added := Added(was.history, raw.history, ChangeIdentity);
             FirstShows(was) ==>
               NotAfter(ImportEvents(was, first) + SyncEvents(added, was.status, raw.status, was.status, now), now)
    ensures var events := Synced(Imported(previous, first), previous, dump, now).events;
            var added := Added(was.history, raw.history, ChangeIdentity);
            && (FirstShows(was) <==> ShownStatus(Imported(previous, first).events, was.id) == was.status)
            && (FirstShows(was) ==>
                  (ShownStatus(events, raw.id) == Clip(raw.status)
                   <==> !Overtaken(ImportEvents(was, first) + Stored(Timeless(added), now), Timed(added), raw.status)))
            && (!FirstShows(was) ==> Values(events, raw.id) == Values(Imported(previous, first).events, raw.id))
            && (ShownStatus(Imported(dump, later).events, raw.id) == Clip(raw.status)
                <==> !Overtaken(Stored(Timeless(raw.history), raw.date), Timed(raw.history), raw.status))
  {
    var added := Added(was.history, raw.history, ChangeIdentity);
    var events := Synced(Imported(previous, first), previous, dump, now).events;
    ImportedOrder(previous, first, was);
    ImportedOrder(dump, later, raw);
    SyncedOrder(previous, dump, first, now, was, raw);
    FirstShowsIs(was);
    hide *;
    ImportShowsTheStatus(was, first);
    ImportShowsTheStatus(raw, later);
    ShownIs(Imported(previous, first).events, raw.id, ImportEvents(was, first));
    ShownIs(Imported(dump, later).events, raw.id, ImportEvents(raw, later));
    ShownIsClipped(was, first);
    if FirstShows(was) {
      ShownIs(events, raw.id, ImportEvents(was, first) + SyncEvents(added, was.status, raw.status, was.status, now));
      SyncShowsTheStatus(ImportEvents(was, first), added, was.status, raw.status, now);
    } else {
      NothingApplied(added, was.status, raw.status, ShownStatus(Imported(previous, first).events, raw.id), now);
      assert ImportEvents(was, first) + [] == ImportEvents(was, first);
    }
  }

  lemma FirstShowsIs(was: Raw)
    ensures FirstShows(was)
            <==> was.status == Clip(was.status) && !Overtaken(Stored(Timeless(was.history), was.date), Timed(was.history), was.status)
  {
  }

  lemma NothingApplied(added: seq<Change>, was: string, status: string, shown: string, now: int)
    requires shown != was
    ensures SyncEvents(added, was, status, shown, now) == []
  {
  }

  /** What is stored was clipped. */
  lemma ShownIsClipped(raw: Raw, now: int)
    requires ImportEvents(raw, now) != []
    ensures Clip(Latest(ImportEvents(raw, now)).status) == Latest(ImportEvents(raw, now)).status
  {
    var events := ImportEvents(raw, now);
    ClipTwice();
    LatestIsOneOf(events);
    hide Latest, OldestFirst;
    forall i | 0 <= i < |events| ensures Clip(events[i].status) == events[i].status {}
  }

  lemma ClipTwice()
    ensures forall s :: Clip(Clip(s)) == Clip(s)
    ensures Clip(INITIAL_STATUS) == INITIAL_STATUS
  {
  }

  lemma ShownIs(events: seq<Item<int, Event>>, order: int, own: seq<Event>)
    requires Values(events, order) == own != []
    ensures ShownStatus(events, order) == Latest(own).status
  {
  }

  /** An order only the newer dump has is synced as it would be imported. */
  lemma NewOrderIsImported(previous: seq<Raw>, dump: seq<Raw>, first: int, now: int, raw: Raw)
    requires RawsOf(previous, raw.id) == [] && RawsOf(dump, raw.id) == [raw]
    requires AmountsArePositive(previous) && AmountsArePositive(dump)
    ensures var synced, imported := Synced(Imported(previous, first), previous, dump, now), Imported(dump, now);
            && Values(synced.events, raw.id) == Values(imported.events, raw.id)
            && Values(synced.comments, raw.id) == Values(imported.comments, raw.id)
            && PaidTo(synced.payments, raw.id) == PaidTo(imported.payments, raw.id)
  {
    hide Imported, Synced, RawsOf, PaidTo, RowsOf, PaidOf, NewTasks, ChangeTasks, RowSum, Values, ImportEvents, ById;
    PaidAfter(previous, dump, first, now, raw.id);
    PaidAfter(dump, dump, now, now, raw.id);
    NotImportedOrder(previous, first, raw.id);
    ImportedOrder(dump, now, raw);
    SyncedNewOrder(previous, dump, first, now, raw);
  }

  /** An order the newer dump lacks is left as it is. */
  lemma GoneOrderIsLeft(previous: seq<Raw>, dump: seq<Raw>, first: int, now: int, order: int)
    requires RawsOf(dump, order) == []
    requires AmountsArePositive(previous) && AmountsArePositive(dump)
    ensures var t := Imported(previous, first);
            var synced := Synced(t, previous, dump, now);
            && Values(synced.events, order) == Values(t.events, order)
            && Values(synced.comments, order) == Values(t.comments, order)
            && PaidTo(synced.payments, order) == PaidTo(t.payments, order)
  {
    hide Imported, RawsOf, PaidTo, RowsOf, PaidOf, NewTasks, ChangeTasks, Values, ImportEvents, AllEvents, AllComments, OrdersAfter, ById, Payments;
    var t := Imported(previous, first);
    var tasks := NewTasks(t.orders, dump) + ChangeTasks(t.orders, ById(previous), dump);
    PaidAfter(previous, dump, first, now, order);
    NewTasksOf(t.orders, dump, order);
    ChangeTasksOf(t.orders, ById(previous), dump, order);
    TasksConcat(NewTasks(t.orders, dump), ChangeTasks(t.orders, ById(previous), dump), order);
    RowsAreOwn(t.events, tasks, now, order);
    ValuesConcat(t.events, AllEvents(t.events, tasks, now), order);
    ValuesConcat(t.comments, AllComments(tasks), order);
  }
}
