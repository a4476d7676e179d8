/** Bringing an earlier import up to date from a newer dump, and when that gives what importing
    the newer dump would have: src/suliko/domain/tarjimnebi_import.py.

    Office is its tables: rows are only ever appended. Instants are integers; a status event
    whose time is missing in the dump has `at == None`. */
module LegacySync {
  import opened Options
  import opened Grouping
  import opened LegacyPayments

  datatype Change = Change(status: string, at: Option<int>, user: string)

  datatype Note = Note(id: int, author: string, body: string)

  /** An order in a dump. */
  datatype Raw = Raw(id: int, client: int, date: int, status: string, history: seq<Change>, comments: seq<Note>, payments: seq<Pay>)

  datatype Event = Event(status: string, at: int)

  const INITIAL_STATUS := "new"

  /** A status column holds 60 characters. */
  function Clip(status: string): string {
    if |status| <= 60 then status else status[..60]
  }

  // ---- What a newer dump adds ----

  function Ids<T(==), I(==)>(rows: seq<T>, identity: T -> I): set<I> {
    set r | r in rows :: identity(r)
  }

  /** The rows whose identity was not there before. */
  function Added<T(==), I(==)>(before: seq<T>, now: seq<T>, identity: T -> I): seq<T> {
    if now == [] then []
    else
      var rest, last := Added(before, now[..|now| - 1], identity), now[|now| - 1];
      if identity(last) in Ids(before, identity) then rest else rest + [last]
  }

  method FindAdded<T(==), I(==)>(before: seq<T>, now: seq<T>, identity: T -> I) returns (added: seq<T>)
    ensures added == Added(before, now, identity)
  {
    var seen: set<I> := {};
    for i := 0 to |before|
      invariant seen == Ids(before[..i], identity)
    {
      assert before[..i + 1] == before[..i] + [before[i]];
      seen := seen + {identity(before[i])};
    }
    assert before[..|before|] == before;
    added := [];
    for i := 0 to |now|
      invariant added == Added(before, now[..i], identity)
    {
      assert now[..i + 1][..i] == now[..i];
      if identity(now[i]) !in seen { added := added + [now[i]]; }
    }
    assert now[..|now|] == now;
  }

  lemma {:induction false} AddedCounts<T, I>(before: seq<T>, now: seq<T>, identity: T -> I, r: T)
    ensures multiset(Added(before, now, identity))[r] == if identity(r) in Ids(before, identity) then 0 else multiset(now)[r]
  {
    if now != [] {
      AddedCounts(before, now[..|now| - 1], identity, r);
      assert now == now[..|now| - 1] + [now[|now| - 1]];
    }
  }

  /** No row that was added has the identity of an earlier one. */
  ghost predicate NoneRepeats<T(!new), I>(before: seq<T>, now: seq<T>, identity: T -> I) {
    forall r | r in multiset(now) - multiset(before) :: identity(r) !in Ids(before, identity)
  }

  /** Where the newer dump only adds rows, what was there and what is found added are all of
      them, exactly when no added row repeats an earlier identity; else some are missed. */
  lemma AddedCompletes<T(!new), I>(before: seq<T>, now: seq<T>, identity: T -> I)
    requires multiset(before) <= multiset(now)
    ensures multiset(before + Added(before, now, identity)) <= multiset(now)
    ensures multiset(before + Added(before, now, identity)) == multiset(now) <==> NoneRepeats(before, now, identity)
  {
    var all := multiset(before + Added(before, now, identity));
    forall r: T ensures all[r] == multiset(before)[r] + if identity(r) in Ids(before, identity) then 0 else multiset(now)[r]
      ensures identity(r) !in Ids(before, identity) ==> multiset(before)[r] == 0
      ensures all[r] <= multiset(now)[r]
      ensures all[r] == multiset(now)[r] <==> (r in multiset(now) - multiset(before) ==> identity(r) !in Ids(before, identity))
    {
      AddedCounts(before, now, identity, r);
      assert r in before ==> identity(r) in Ids(before, identity);
    }
    if all == multiset(now) {
      forall r | r in multiset(now) - multiset(before) ensures identity(r) !in Ids(before, identity) {
        assert all[r] == multiset(now)[r];
      }
    }
    if NoneRepeats(before, now, identity) {
      assert forall r: T :: all[r] == multiset(now)[r];
      assert all == multiset(now);
    }
  }

  lemma {:induction false} CountOfDistinct<T, I>(now: seq<T>, identity: T -> I, r: T)
    requires forall i, j | 0 <= i < j < |now| :: identity(now[i]) != identity(now[j])
    ensures multiset(now)[r] <= 1
  {
    if now != [] {
      var rest, last := now[..|now| - 1], now[|now| - 1];
      assert now == rest + [last];
      CountOfDistinct(rest, identity, r);
      assert last == r ==> r !in rest;
    }
  }

  /** Rows of distinct identities repeat none. */
  lemma DistinctRepeatNone<T(!new), I>(before: seq<T>, now: seq<T>, identity: T -> I)
    requires multiset(before) <= multiset(now)
    requires forall i, j | 0 <= i < j < |now| :: identity(now[i]) != identity(now[j])
    ensures NoneRepeats(before, now, identity)
  {
    forall r | r in multiset(now) - multiset(before) ensures identity(r) !in Ids(before, identity) {
      CountOfDistinct(now, identity, r);
      assert r in now && r !in before by { assert multiset(before)[r] < multiset(now)[r]; }
      forall b | b in before ensures identity(b) != identity(r) {
        assert multiset(before)[b] > 0;
        assert b in multiset(now);
        var i :| 0 <= i < |now| && now[i] == b;
        var j :| 0 <= j < |now| && now[j] == r;
        assert i != j;
        assert i < j || j < i;
      }
    }
  }

  function PayIdentity(p: Pay): (Option<int>, Option<int>, string, int) {
    (p.payment, p.person, p.day, p.amount)
  }

  function NoteIdentity(n: Note): int { n.id }

  function ChangeIdentity(c: Change): Change { c }

  lemma {:induction false} RowSumConcat(a: seq<Pay>, b: seq<Pay>)
    ensures RowSum(a + b) == RowSum(a) + RowSum(b)
  {
    if b == [] {
      assert a + b == a;
    } else {
      RowSumConcat(a, b[..|b| - 1]);
      assert (a + b)[..|a + b| - 1] == a + b[..|b| - 1];
    }
  }

  lemma WithoutOne(a: seq<Pay>, p: Pay) returns (less: seq<Pay>)
    requires p in a
    ensures multiset(a) == multiset(less) + multiset{p} && RowSum(a) == RowSum(less) + p.amount
  {
    var i :| 0 <= i < |a| && a[i] == p;
    less := a[..i] + a[i + 1..];
    assert a == a[..i] + [p] + a[i + 1..];
    RowSumConcat(a[..i] + [p], a[i + 1..]);
    RowSumConcat(a[..i], [p]);
    RowSumConcat(a[..i], a[i + 1..]);
    assert RowSum([p]) == p.amount by { assert [p][..0] == []; }
  }

  /** More rows come to more money. */
  lemma {:induction false} RowSumMore(a: seq<Pay>, b: seq<Pay>)
    requires multiset(a) <= multiset(b) && forall p | p in b :: p.amount > 0
    ensures RowSum(a) <= RowSum(b)
    ensures RowSum(a) == RowSum(b) <==> multiset(a) == multiset(b)
    decreases |b|
  {
    if b == [] {
      assert |multiset(a)| <= |multiset(b)|;
      assert a == [];
    } else {
      var rest, last := b[..|b| - 1], b[|b| - 1];
      assert b == rest + [last];
      assert multiset(b) == multiset(rest) + multiset{last};
      if last in a {
        var less := WithoutOne(a, last);
        MoreWithoutOne(multiset(less), multiset(rest), last);
        RowSumMore(less, rest);
      } else {
        assert multiset(a)[last] == 0;
        MoreWithout(multiset(a), multiset(rest), last);
        RowSumMore(a, rest);
      }
    }
  }

  lemma MoreWithoutOne(a: multiset<Pay>, b: multiset<Pay>, p: Pay)
    ensures a + multiset{p} <= b + multiset{p} <==> a <= b
    ensures a + multiset{p} == b + multiset{p} <==> a == b
  {
    if a + multiset{p} == b + multiset{p} {
      forall q ensures a[q] == b[q] { assert (a + multiset{p})[q] == (b + multiset{p})[q]; }
    }
    if a + multiset{p} <= b + multiset{p} {
      forall q ensures a[q] <= b[q] { assert (a + multiset{p})[q] <= (b + multiset{p})[q]; }
    }
  }

  lemma MoreWithout(a: multiset<Pay>, b: multiset<Pay>, p: Pay)
    requires p !in a && a <= b + multiset{p}
    ensures a <= b && a != b + multiset{p}
  {
    assert (b + multiset{p})[p] > 0;
    forall q ensures a[q] <= b[q] { assert a[q] <= (b + multiset{p})[q]; }
  }

  /** The money of an order is complete exactly when no added payment row repeats an earlier
      one; otherwise the synced order is paid less. */
  lemma SyncedRowsAddUp(before: seq<Pay>, now: seq<Pay>)
    requires multiset(before) <= multiset(now) && forall p | p in now :: p.amount > 0
    ensures RowSum(before) + RowSum(Added(before, now, PayIdentity)) <= RowSum(now)
    ensures RowSum(before) + RowSum(Added(before, now, PayIdentity)) == RowSum(now) <==> NoneRepeats(before, now, PayIdentity)
  {
    AddedCompletes(before, now, PayIdentity);
    RowSumConcat(before, Added(before, now, PayIdentity));
    RowSumMore(before + Added(before, now, PayIdentity), now);
  }

  // ---- The status an order shows ----

  /** The last by time, and by id among those of one time. */
  function Latest(events: seq<Event>): Event
    requires events != []
  {
    var last := events[|events| - 1];
    if |events| == 1 then last
    else
      var before := Latest(events[..|events| - 1]);
      if last.at >= before.at then last else before
  }

  function Timeless(history: seq<Change>): seq<Change> {
    if history == [] then []
    else
      var rest, last := Timeless(history[..|history| - 1]), history[|history| - 1];
      if last.at.None? then rest + [last] else rest
  }

  function InsertTimed(sorted: seq<Change>, c: Change): seq<Change>
    requires c.at.Some? && forall i | 0 <= i < |sorted| :: sorted[i].at.Some?
    ensures forall i | 0 <= i < |InsertTimed(sorted, c)| :: InsertTimed(sorted, c)[i].at.Some?
  {
    if sorted == [] || sorted[|sorted| - 1].at.value <= c.at.value then sorted + [c]
    else InsertTimed(sorted[..|sorted| - 1], c) + [sorted[|sorted| - 1]]
  }

  /** The changes that have a time, oldest first, those of one time as they came. */
  function Timed(history: seq<Change>): (sorted: seq<Change>)
    ensures forall i | 0 <= i < |sorted| :: sorted[i].at.Some?
  {
    if history == [] then []
    else
      var rest, last := Timed(history[..|history| - 1]), history[|history| - 1];
      if last.at.Some? then InsertTimed(rest, last) else rest
  }

  /** Those without a time come first. */
  function OldestFirst(history: seq<Change>): seq<Change> {
    Timeless(history) + Timed(history)
  }

  /** The events of some changes, those without a time put at `otherwise`. */
  function Stored(changes: seq<Change>, otherwise: int): seq<Event> {
    seq(|changes|, i requires 0 <= i < |changes| =>
      Event(Clip(changes[i].status), if changes[i].at.Some? then changes[i].at.value else otherwise))
  }

  /** The current status is added where the history does not end with it. */
  function Ending(status: string, last: string, now: int): seq<Event> {
    if status != "" && status != last then [Event(Clip(status), now)] else []
  }

  function LastStatus(changes: seq<Change>, otherwise: string): string {
    if changes == [] then otherwise else changes[|changes| - 1].status
  }

  function ImportEvents(raw: Raw, now: int): seq<Event> {
    var changes := OldestFirst(raw.history);
    (if changes == [] then [Event(INITIAL_STATUS, raw.date)] else Stored(changes, raw.date))
    + Ending(raw.status, LastStatus(changes, INITIAL_STATUS), now)
  }

  /** What a sync appends for an order that stood at `was` in the earlier dump and shows
      `shown` in Office: nothing where the two differ, for then it was changed in Office. */
  function SyncEvents(added: seq<Change>, was: string, status: string, shown: string, now: int): seq<Event> {
    var changes := OldestFirst(added);
    if changes == [] && status == was then []
    else if shown != was then []
    else Stored(changes, now) + Ending(status, LastStatus(changes, shown), now)
  }

  ghost predicate Ordered(events: seq<Event>) {
    forall i, j | 0 <= i < j < |events| :: events[i].at <= events[j].at
  }

  ghost predicate TimedInOrder(sorted: seq<Change>) {
    && (forall i | 0 <= i < |sorted| :: sorted[i].at.Some?)
    && forall i, j | 0 <= i < j < |sorted| :: sorted[i].at.value <= sorted[j].at.value
  }

  lemma {:induction false} InsertKeepsRows(sorted: seq<Change>, c: Change)
    requires TimedInOrder(sorted) && c.at.Some?
    ensures multiset(InsertTimed(sorted, c)) == multiset(sorted) + multiset{c}
  {
    if sorted != [] {
      assert sorted == sorted[..|sorted| - 1] + [sorted[|sorted| - 1]];
      InsertKeepsRows(sorted[..|sorted| - 1], c);
    }
  }

  lemma {:induction false} InsertKeepsOrder(sorted: seq<Change>, c: Change)
    requires TimedInOrder(sorted) && c.at.Some?
    ensures TimedInOrder(InsertTimed(sorted, c))
  {
    if sorted != [] && sorted[|sorted| - 1].at.value > c.at.value {
      var rest, last := sorted[..|sorted| - 1], sorted[|sorted| - 1];
      var less := InsertTimed(rest, c);
      InsertKeepsOrder(rest, c);
      InsertKeepsRows(rest, c);
      forall i | 0 <= i < |less| ensures less[i].at.value <= last.at.value {
        assert less[i] in multiset(less);
        assert less[i] == c || less[i] in rest;
      }
    }
  }

  lemma {:induction false} TimedInTime(history: seq<Change>)
    ensures TimedInOrder(Timed(history))
  {
    if history != [] {
      var rest, last := history[..|history| - 1], history[|history| - 1];
      TimedInTime(rest);
      if last.at.Some? { InsertKeepsOrder(Timed(rest), last); }
    }
  }

  lemma {:induction false} TimedKeepsRows(history: seq<Change>)
    ensures multiset(Timeless(history)) + multiset(Timed(history)) == multiset(history)
    ensures forall i | 0 <= i < |Timeless(history)| :: Timeless(history)[i].at.None?
  {
    if history != [] {
      var rest, last := history[..|history| - 1], history[|history| - 1];
      assert history == rest + [last];
      TimedKeepsRows(rest);
      TimedInTime(rest);
      if last.at.Some? { InsertKeepsRows(Timed(rest), last); }
    }
  }

  /** The history is put in order and nothing of it is lost. */
  lemma TimedIsSorted(history: seq<Change>)
    ensures TimedInOrder(Timed(history))
    ensures multiset(OldestFirst(history)) == multiset(history)
    ensures forall i | 0 <= i < |Timeless(history)| :: Timeless(history)[i].at.None?
  {
    hide Timed, Timeless, TimedInOrder;
    TimedInTime(history);
    TimedKeepsRows(history);
  }

  lemma {:induction false} LatestIsOneOf(events: seq<Event>)
    requires events != []
    ensures Latest(events) in events
    ensures forall i | 0 <= i < |events| :: events[i].at <= Latest(events).at
  {
    if |events| > 1 { LatestIsOneOf(events[..|events| - 1]); }
  }

  /** Rows appended in the order of their times: the last of them, unless all are older than
      what was there. */
  lemma {:induction false} LatestAfter(events: seq<Event>, more: seq<Event>)
    requires more != [] && Ordered(more)
    ensures Latest(events + more)
            == if events == [] || more[|more| - 1].at >= Latest(events).at then more[|more| - 1] else Latest(events)
  {
    var all := events + more;
    assert all[..|all| - 1] == events + more[..|more| - 1];
    if |more| > 1 {
      LatestAfter(events, more[..|more| - 1]);
    } else {
      assert events + more[..0] == events;
    }
  }

  /** The failing family: the history ends with the current status, at a time before that of
      the event Office goes by, which is of another status. */
  ghost predicate Overtaken(before: seq<Event>, timed: seq<Change>, status: string) {
    && before != [] && timed != [] && timed[|timed| - 1].at.Some?
    && timed[|timed| - 1].status == status
    && timed[|timed| - 1].at.value < Latest(before).at
    && Latest(before).status != Clip(status)
  }

  ghost predicate NotAfter(events: seq<Event>, now: int) {
    forall i | 0 <= i < |events| :: events[i].at <= now
  }

  /** What is shown once the changes are stored. */
  lemma ShownByChanges(before: seq<Event>, timed: seq<Change>, otherwise: int, status: string, last: string)
    requires TimedInOrder(timed) && LastStatus(timed, last) == status
    requires timed == [] ==> before != [] && Latest(before).status == Clip(last)
    ensures var some := before + Stored(timed, otherwise);
            some != [] && (Latest(some).status == Clip(status) <==> !Overtaken(before, timed, status))
  {
    var some := before + Stored(timed, otherwise);
    if timed != [] {
      assert Ordered(Stored(timed, otherwise));
      LatestAfter(before, Stored(timed, otherwise));
    } else {
      assert some == before;
    }
  }

  lemma ShownLast(events: seq<Event>, event: Event)
    requires NotAfter(events, event.at)
    ensures Latest(events + [event]) == event
  {
    if events != [] { LatestIsOneOf(events); }
    LatestAfter(events, [event]);
  }

  /** Events, then changes, then the current status where they do not end with it. */
  lemma ShownAfter(before: seq<Event>, timed: seq<Change>, otherwise: int, status: string, last: string, now: int)
    requires status != "" && TimedInOrder(timed) && NotAfter(before + Stored(timed, otherwise), now)
    requires timed == [] ==> before != [] && Latest(before).status == Clip(last)
    ensures var all := before + Stored(timed, otherwise) + Ending(status, LastStatus(timed, last), now);
            all != [] && (Latest(all).status == Clip(status) <==> !Overtaken(before, timed, status))
  {
    var some := before + Stored(timed, otherwise);
    hide Latest, Stored, TimedInOrder;
    if status != LastStatus(timed, last) {
      ShownLast(some, Event(Clip(status), now));
      assert !Overtaken(before, timed, status);
    } else {
      assert some + [] == some;
      ShownByChanges(before, timed, otherwise, status, last);
    }
  }

  lemma PrefixNotAfter(a: seq<Event>, b: seq<Event>, now: int)
    requires NotAfter(a + b, now)
    ensures NotAfter(a, now)
  {
    forall i | 0 <= i < |a| ensures a[i].at <= now { assert (a + b)[i] == a[i]; }
  }

  lemma StoredConcat(a: seq<Change>, b: seq<Change>, otherwise: int)
    ensures Stored(a + b, otherwise) == Stored(a, otherwise) + Stored(b, otherwise)
  {
  }

  /** An imported order shows the dump's status, exactly when no event without a time overtakes
      the end of its history. */
  lemma ImportShowsTheStatus(raw: Raw, now: int)
    requires raw.status != "" && NotAfter(ImportEvents(raw, now), now)
    ensures ImportEvents(raw, now) != []
    ensures Latest(ImportEvents(raw, now)).status == Clip(raw.status)
            <==> !Overtaken(Stored(Timeless(raw.history), raw.date), Timed(raw.history), raw.status)
  {
    ImportIs(raw, now);
    TimedIsSorted(raw.history);
    hide *;
    var timeless, timed := Timeless(raw.history), Timed(raw.history);
    var last, before := LastStatus(timeless, INITIAL_STATUS), BeforeTimed(timeless, timed, raw.date);
    PrefixNotAfter(before + Stored(timed, raw.date), Ending(raw.status, LastStatus(timed, last), now), now);
    BeforeShows(timeless, timed, raw.date);
    ShownAfter(before, timed, raw.date, raw.status, last, now);
    SameOvertaken(before, timeless, timed, raw.date, raw.status);
  }

  /** What is stored before the changes that have a time. */
  function BeforeTimed(timeless: seq<Change>, timed: seq<Change>, date: int): seq<Event> {
    if timeless == [] && timed == [] then [Event(INITIAL_STATUS, date)] else Stored(timeless, date)
  }

  lemma BeforeShows(timeless: seq<Change>, timed: seq<Change>, date: int)
    requires forall i | 0 <= i < |timeless| :: timeless[i].at.None?
    ensures var before := BeforeTimed(timeless, timed, date);
            && (timed == [] ==> before != [] && Latest(before).status == Clip(LastStatus(timeless, INITIAL_STATUS)))
            && (timed != [] ==> before == Stored(timeless, date))
  {
    TimelessOnly(timeless, date);
  }

  lemma ImportIs(raw: Raw, now: int)
    ensures var timeless, timed := Timeless(raw.history), Timed(raw.history);
            ImportEvents(raw, now)
            == BeforeTimed(timeless, timed, raw.date) + Stored(timed, raw.date)
               + Ending(raw.status, LastStatus(timed, LastStatus(timeless, INITIAL_STATUS)), now)
  {
    var timeless, timed := Timeless(raw.history), Timed(raw.history);
    StoredConcat(timeless, timed, raw.date);
    assert LastStatus(timeless + timed, INITIAL_STATUS) == LastStatus(timed, LastStatus(timeless, INITIAL_STATUS));
    hide Timeless, Timed, Ending, LastStatus;
    if timeless == [] && timed == [] {
      assert timeless + timed == [];
    } else {
      assert timeless + timed != [];
    }
  }

  lemma SameOvertaken(before: seq<Event>, timeless: seq<Change>, timed: seq<Change>, date: int, status: string)
    requires timed != [] ==> before == Stored(timeless, date)
    ensures Overtaken(before, timed, status) <==> Overtaken(Stored(timeless, date), timed, status)
  {
  }

  lemma TimelessOnly(timeless: seq<Change>, date: int)
    requires forall i | 0 <= i < |timeless| :: timeless[i].at.None?
    ensures timeless != [] ==> Latest(Stored(timeless, date)) == Event(Clip(timeless[|timeless| - 1].status), date)
  {
    if timeless != [] {
      var events := Stored(timeless, date);
      assert forall i | 0 <= i < |events| :: events[i].at == date;
      assert events[|events| - 1] == Event(Clip(timeless[|timeless| - 1].status), date);
      hide Latest, Stored, Clip;
      LatestAfter([], events);
      assert [] + events == events;
    }
  }

  /** Changes without a time are stored at the moment of the sync. */
  lemma TimelessAreLast(stored: seq<Event>, timeless: seq<Change>, was: string, now: int)
    requires stored != [] && Latest(stored).status == Clip(was) && NotAfter(stored, now)
    requires forall i | 0 <= i < |timeless| :: timeless[i].at.None?
    ensures Latest(stored + Stored(timeless, now)).status == Clip(LastStatus(timeless, was))
  {
    LatestIsOneOf(stored);
    if timeless != [] {
      LatestAfter(stored, Stored(timeless, now));
    } else {
      assert stored + Stored(timeless, now) == stored;
    }
  }

  /** A synced order shows the newer dump's status, exactly when nothing Office holds and no
      event without a time overtakes the end of what the dump adds. */
  lemma SyncShowsTheStatus(stored: seq<Event>, added: seq<Change>, was: string, status: string, now: int)
    requires stored != [] && status != "" && Latest(stored).status == was == Clip(was)
    requires NotAfter(stored + SyncEvents(added, was, status, was, now), now)
    ensures Latest(stored + SyncEvents(added, was, status, was, now)).status == Clip(status)
            <==> !Overtaken(stored + Stored(Timeless(added), now), Timed(added), status)
  {
    var timeless, timed := Timeless(added), Timed(added);
    var more := SyncEvents(added, was, status, was, now);
    TimedIsSorted(added);
    PrefixNotAfter(stored, more, now);
    if timeless + timed == [] && status == was {
      assert stored + [] == stored;
    } else {
      SyncIs(stored, added, was, status, now);
      hide *;
      var last := LastStatus(timeless, was);
      var before, ending := stored + Stored(timeless, now), Ending(status, LastStatus(timed, last), now);
      PrefixNotAfter(before + Stored(timed, now), ending, now);
      TimelessAreLast(stored, timeless, was, now);
      ShownAfter(before, timed, now, status, last, now);
    }
  }

  lemma SyncIs(stored: seq<Event>, added: seq<Change>, was: string, status: string, now: int)
    requires Timeless(added) + Timed(added) != [] || status != was
    ensures stored + SyncEvents(added, was, status, was, now)
            == stored + Stored(Timeless(added), now) + Stored(Timed(added), now)
               + Ending(status, LastStatus(Timed(added), LastStatus(Timeless(added), was)), now)
  {
    var timeless, timed := Timeless(added), Timed(added);
    StoredConcat(timeless, timed, now);
    assert LastStatus(timeless + timed, was) == LastStatus(timed, LastStatus(timeless, was));
    var ending := Ending(status, LastStatus(timed, LastStatus(timeless, was)), now);
    assert SyncEvents(added, was, status, was, now) == Stored(timeless, now) + Stored(timed, now) + ending;
    hide *;
    assert stored + (Stored(timeless, now) + Stored(timed, now) + ending) == stored + Stored(timeless, now) + Stored(timed, now) + ending;
  }
}
