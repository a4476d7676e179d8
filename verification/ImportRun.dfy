/** The import as the source runs it: `judge_workbook` and `_judge_people`
    (src/suliko/domain/imports_combined.py), `judge_orders`, `_judge_order` and
    `_create_person` (src/suliko/domain/imports_orders.py), over objects that every sheet
    shares. Each method is proved to do what the judge of `Judging` does to the state. */
module ImportRun {
  import opened Options
  import opened Matching
  import opened Judging
  import opened ImportIntegrity

  const MAX_ROWS := 5000

  /** One list of people orders can name. */
  class PeopleBook {
    var byName: map<string, Known>
    var byPhone: map<string, Known>
    var created: map<Ref, seq<(string, string)>>
    var create: bool
    const refs: RefCounter

    /** The bureau's people orders can name, in their order. */
    constructor (refs: RefCounter, listed: seq<Listed>, fold: string -> string)
      ensures this.refs == refs && Contents() == BookOf(listed, false, fold).(count := refs.count)
    {
      this.refs := refs;
      byName, byPhone, created, create := map[], map[], map[], false;
      new;
      for i := 0 to |listed|
        invariant Contents() == BookOf(listed[..i], false, fold).(count := refs.count)
      {
        assert listed[..i + 1][..i] == listed[..i];
        Remember(Stored(listed[i].id), listed[i].name, listed[i].phone, fold);
      }
      assert listed[..|listed|] == listed;
    }

    function Contents(): Book
      reads this, refs
    {
      Book(byName, byPhone, created, refs.count, create)
    }

    /** `remember_person` */
    method Remember(ref: Ref, name: string, phone: Option<string>, fold: string -> string)
      modifies this
      ensures Contents() == RememberPerson(old(Contents()), ref, name, phone, fold)
      ensures create == old(create)
    {
      if name == "" { return; }
      byName := SetDefault(byName, Some(fold(name)), Known(ref, name));
      byPhone := SetDefault(byPhone, PhoneKey(phone), Known(ref, name));
    }

    /** `_create_person` */
    method Create(name: string, phone: Option<string>, fold: string -> string) returns (ref: Ref)
      modifies this, refs
      ensures Contents() == CreatePerson(old(Contents()), name, phone, fold) && ref == New(old(refs.count))
    {
      ref := refs.Next();
      created := created[ref := []];
      byName := byName[fold(name) := Known(ref, name)];
      var key := PhoneKey(phone);
      if key.Some? { byPhone := byPhone[key.value := Known(ref, name)]; }
    }

    /** Only once the row is accepted. */
    method CreateNamed(named: Named, name: string, phone: string, fold: string -> string)
      modifies this, refs
      ensures Contents() == Settle(old(Contents()), named, name, phone, fold)
    {
      hide CreatePerson, CleanPhone;
      if named.ToCreate? {
        var _ := Create(name, CleanPhone(phone), fold);
      }
    }

    method Pair(ref: Ref, pair: (string, string))
      modifies this
      ensures Contents() == AddPair(old(Contents()), ref, pair)
    {
      if ref in created && pair !in created[ref] {
        created := created[ref := created[ref] + [pair]];
      }
    }
  }

  class Import {
    const fold: string -> string
    const defaultType: Option<int>
    const clients: Seen
    const clientRefs: RefCounter
    const translatorsSeen: Seen
    const translators: PeopleBook
    const notariesSeen: Seen
    const notaries: PeopleBook
    var known: map<OrderKey, OrderLabel>

    ghost predicate Valid()
      reads this
    {
      && clients.fold == translatorsSeen.fold == notariesSeen.fold == fold
      && clients != translatorsSeen && clients != notariesSeen && translatorsSeen != notariesSeen
      && translators != notaries
      && clientRefs != translators.refs && clientRefs != notaries.refs && translators.refs != notaries.refs
    }

    function Snapshot(): State
      reads this, clients, clientRefs, translatorsSeen, translators, translators.refs, notariesSeen, notaries, notaries.refs
    {
      State(clients.Contents(), clientRefs.count, translatorsSeen.Contents(), translators.Contents(),
            notariesSeen.Contents(), notaries.Contents(), known)
    }

    /** Nothing known yet but the bureau's own: everyone, to match the sheets against, and those
        orders can name. */
    constructor (clientList: seq<Person>, translatorList: seq<Person>, notaryList: seq<Person>,
                 translatorsListed: seq<Listed>, notariesListed: seq<Listed>,
                 known: map<OrderKey, OrderLabel>, defaultType: Option<int>, fold: string -> string)
      ensures Valid() && this.fold == fold && this.defaultType == defaultType
      ensures Snapshot() == State(IndexOf(clientList, fold), 0, IndexOf(translatorList, fold), BookOf(translatorsListed, false, fold),
                                  IndexOf(notaryList, fold), BookOf(notariesListed, false, fold), known)
    {
      hide IndexOf, BookOf;
      this.fold, this.defaultType, this.known := fold, defaultType, known;
      clients := new Seen(clientList, fold);
      translatorsSeen := new Seen(translatorList, fold);
      notariesSeen := new Seen(notaryList, fold);
      clientRefs := new RefCounter();
      var translatorRefs := new RefCounter();
      var notaryRefs := new RefCounter();
      translators := new PeopleBook(translatorRefs, translatorsListed, fold);
      notaries := new PeopleBook(notaryRefs, notariesListed, fold);
      BookOfStarts(translatorsListed, fold);
      BookOfStarts(notariesListed, fold);
    }

    /** `judge_client` */
    method JudgeClientRow(row: PersonRow) returns (outcome: PersonOutcome)
      requires Valid()
      modifies clients, clientRefs
      ensures Valid() && (Snapshot(), outcome) == JudgeClient(old(Snapshot()), row, fold)
    {
      if row.name == "" { return BadPerson(NoName); }
      if |row.name| > MAX_NAME { return BadPerson(LongName); }
      var hit := clients.MatchRef(PersonOf(row, None, clientRefs.Peek()), false);
      if hit.Some? { return Same(hit.value.entry.ref); }
      var ref := clientRefs.Next();
      clients.Add(PersonOf(row, Some(row.name), ref));
      return Created(ref);
    }

    /** `judge_translator` or `judge_notary`, and what `_judge_people` remembers. */
    method JudgePersonRow(seen: Seen, book: PeopleBook, row: PersonRow) returns (outcome: PersonOutcome)
      requires seen.fold == fold
      modifies seen, book, book.refs
      ensures (seen.Contents(), book.Contents(), outcome) == JudgePerson(old(seen.Contents()), old(book.Contents()), row, fold)
    {
      if row.name == "" { return BadPerson(NoName); }
      if |row.name| > MAX_NAME { return BadPerson(LongName); }
      var person := PersonOf(row.(personalNumber := None), Some(row.name), book.refs.Peek());
      var hit := seen.MatchRef(person, true);
      if hit.Some? {
        book.Remember(hit.value.entry.ref, row.name, None, fold);
        return Same(hit.value.entry.ref);
      }
      var ref := book.refs.Next();
      seen.Add(person);
      book.Remember(ref, row.name, CleanPhone(row.phone), fold);
      return Created(ref);
    }

    /** `_judge_order`: a row that is not accepted leaves everything as it was. */
    method JudgeOrderRow(row: OrderRow) returns (outcome: OrderOutcome)
      requires Valid()
      modifies this`known, clients, clientRefs, translators, translators.refs, notaries, notaries.refs
      ensures Valid() && (Snapshot(), outcome) == JudgeOrder(old(Snapshot()), row, defaultType, fold)
      ensures !outcome.Accepted? ==> Snapshot() == old(Snapshot())
    {
      hide PhoneKey, CleanPhone, Match, KeyOfOrder, Accept, FirstProblem, WhoIsNamed;
      var problem := FirstProblem(row, defaultType);
      if problem.Some? { return Rejected(problem.value); }
      var translator := WhoIsNamed(translators.Contents(), row.translator, row.translatorPhone, fold);
      var notary := WhoIsNamed(notaries.Contents(), row.notary, row.notaryPhone, fold);
      var hit := clients.MatchRef(ClientProbe(row), row.client.name != "");
      if hit.None? && row.client.name == "" { return Rejected(NoName); }
      if hit.None? && |row.client.name| > MAX_NAME { return Rejected(LongName); }
      var client := if hit.Some? then hit.value.entry.ref else clientRefs.Peek();
      var order := Draft(Snapshot(), row, defaultType, client, hit.None?, translator, notary);
      var key := KeyOfOrder(order, fold);
      if key in known { return Duplicate(known[key]); }
      TakeIn(row, order, translator, notary);
      return Accepted(order);
    }

    /** The translator and the notary of an accepted row. */
    method TakePeople(row: OrderRow, order: Order, translator: Named, notary: Named)
      requires Valid()
      modifies translators, translators.refs, notaries, notaries.refs
      ensures Valid()
      ensures translators.Contents() == AcceptTranslator(old(translators.Contents()), row, order, translator, fold)
      ensures notaries.Contents() == Settle(old(notaries.Contents()), notary, row.notary, row.notaryPhone, fold)
    {
      hide Settle, AddPair;
      translators.CreateNamed(translator, row.translator, row.translatorPhone, fold);
      notaries.CreateNamed(notary, row.notary, row.notaryPhone, fold);
      if order.translator.Some? { translators.Pair(order.translator.value, (order.source, order.target)); }
    }

    /** The client an accepted row brings. */
    method TakeClient(row: OrderRow)
      requires Valid()
      modifies clients, clientRefs
      ensures Valid() && clientRefs.count == old(clientRefs.count) + 1
      ensures clients.Contents() == Remember(old(clients.Contents()), NewClient(old(Snapshot()), row), fold)
    {
      hide Remember;
      var ref := clientRefs.Next();
      clients.Add(PersonOf(row.client, Some(row.client.name), ref));
    }

    /** All that an accepted row changes. */
    method TakeIn(row: OrderRow, order: Order, translator: Named, notary: Named)
      requires Valid()
      modifies this`known, clients, clientRefs, translators, translators.refs, notaries, notaries.refs
      ensures Valid() && Snapshot() == Accept(old(Snapshot()), row, order, translator, notary, fold)
    {
      hide Remember, KeyOfOrder, AcceptTranslator, Settle;
      ghost var start := Snapshot();
      known := known[KeyOfOrder(order, fold) := OrderLabel.Row(row.number)];
      TakePeople(row, order, translator, notary);
      SameNewClient(start, Snapshot(), row);
      hide NewClient;
      if order.newClient { TakeClient(row); }
    }

    method JudgeRow(t: Task) returns (e: LogEntry)
      requires Valid()
      modifies this`known, clients, clientRefs, translatorsSeen, translators, translators.refs, notariesSeen, notaries, notaries.refs
      ensures Valid() && (Snapshot(), e) == Judge(old(Snapshot()), t, defaultType, fold)
    {
      hide JudgeClient, JudgePerson, JudgeOrder;
      match t {
        case ClientTask(row) =>
          var outcome := JudgeClientRow(row);
          e := ClientEntry(outcome);
        case TranslatorTask(row) =>
          var outcome := JudgePersonRow(translatorsSeen, translators, row);
          e := TranslatorEntry(outcome);
        case NotaryTask(row) =>
          var outcome := JudgePersonRow(notariesSeen, notaries, row);
          e := NotaryEntry(outcome);
        case OrderTask(row) =>
          var outcome := JudgeOrderRow(row);
          e := OrderEntry(outcome);
      }
    }
  
    /** The rows of one sheet, in their order. */
    method JudgeSheet(kind: SheetKind, rows: seq<SheetRow>) returns (results: seq<LogEntry>)
      requires Valid()
      modifies this`known, clients, clientRefs, translatorsSeen, translators, translators.refs, notariesSeen, notaries, notaries.refs
      ensures Valid() && (Snapshot(), results) == JudgeAll(old(Snapshot()), TasksOf(kind, rows), defaultType, fold)
    {
      hide Judge;
      ghost var start := Snapshot();
      results := [];
      for i := 0 to |rows|
        invariant Valid() && (Snapshot(), results) == JudgeAll(start, TasksOf(kind, rows[..i]), defaultType, fold)
      {
        assert rows[..i + 1][..i] == rows[..i];
        JudgeAllSnoc(start, TasksOf(kind, rows[..i]), TaskOf(kind, rows[i]), defaultType, fold);
        var e := JudgeRow(TaskOf(kind, rows[i]));
        results := results + [e];
      }
      assert rows[..|rows|] == rows;
    }

    /** The sheets of one kind, each into its place. */
    method JudgeKind(plans: seq<Plan>, kind: SheetKind, before: map<nat, seq<LogEntry>>)
      returns (judged: map<nat, seq<LogEntry>>)
      requires Valid()
      modifies this`known, clients, clientRefs, translatorsSeen, translators, translators.refs, notariesSeen, notaries, notaries.refs
      ensures Valid()
      ensures (Snapshot(), Gathered(plans, kind, judged)) == JudgeAll(old(Snapshot()), TasksOfKind(plans, kind), defaultType, fold)
      ensures PutInPlace(plans, kind, before, judged)
    {
      hide Judge, JudgeAll, TasksOfKind, Gathered;
      ghost var start := Snapshot();
      judged := before;
      JudgeNothing(start, kind, judged, defaultType, fold);
      for k := 0 to |plans|
        invariant Valid()
        invariant (Snapshot(), Gathered(plans[..k], kind, judged)) == JudgeAll(start, TasksOfKind(plans[..k], kind), defaultType, fold)
        invariant PutInPlace(plans[..k], kind, before, judged)
      {
        hide PutInPlace;
        TasksOfKindStep(plans, kind, k);
        if plans[k].kind == Some(kind) {
          ghost var mid := Snapshot();
          var results := JudgeSheet(kind, plans[k].rows);
          JudgeAllConcat(start, TasksOfKind(plans[..k], kind), TasksOf(kind, plans[k].rows), defaultType, fold);
          JudgeAllLength(mid, TasksOf(kind, plans[k].rows), defaultType, fold);
          PutNext(plans, kind, before, judged, k, results);
          judged := judged[k := results];
        } else {
          SkipNext(plans, kind, before, judged, k);
        }
      }
      assert plans[..|plans|] == plans;
    }

    method JudgeTwoKinds(plans: seq<Plan>, first: SheetKind, second: SheetKind, before: map<nat, seq<LogEntry>>)
      returns (judged: map<nat, seq<LogEntry>>)
      requires Valid() && first != second
      modifies this`known, clients, clientRefs, translatorsSeen, translators, translators.refs, notariesSeen, notaries, notaries.refs
      ensures Valid()
      ensures (Snapshot(), Gathered(plans, first, judged) + Gathered(plans, second, judged)) ==
              JudgeAll(old(Snapshot()), TasksOfKind(plans, first) + TasksOfKind(plans, second), defaultType, fold)
      ensures exists mid :: PutInPlace(plans, first, before, mid) && PutInPlace(plans, second, mid, judged)
    {
      hide Judge, JudgeAll, TasksOfKind, Gathered, PutInPlace;
      ghost var start := Snapshot();
      var mid := JudgeKind(plans, first, before);
      judged := JudgeKind(plans, second, mid);
      OthersStay(plans, second, first, mid, judged);
      JudgeAllConcat(start, TasksOfKind(plans, first), TasksOfKind(plans, second), defaultType, fold);
    }

    /** `judge_workbook`: notaries, translators, clients, then orders. Refuses before it judges
        anything. */
    method JudgeWorkbook(plans: seq<Plan>) returns (refused: Option<Refusal>, judged: map<nat, seq<LogEntry>>)
      requires Valid()
      modifies this`known, clients, clientRefs, translatorsSeen, translators, translators.refs, notariesSeen, notaries, notaries.refs
      ensures Valid() && refused == FirstRefusal(plans)
      ensures refused.Some? ==> Snapshot() == old(Snapshot())
      ensures refused.None? ==>
                (Snapshot(), Results(plans, judged)) == JudgeAll(Started(old(Snapshot()), plans), AllTasks(plans), defaultType, fold)
      ensures refused.None? ==> EachSheetJudged(plans, judged)
    {
      hide Judge, JudgeAll, TasksOfKind, FirstRefusal, Gathered, PutInPlace, EachSheetJudged;
      refused, judged := FirstRefusal(plans), map[];
      if refused.Some? { return; }
      translators.create := !exists i :: 0 <= i < |plans| && plans[i].kind == Some(TranslatorSheet);
      notaries.create := !exists i :: 0 <= i < |plans| && plans[i].kind == Some(NotarySheet);
      ghost var start := Snapshot();
      var people := JudgeTwoKinds(plans, NotarySheet, TranslatorSheet, map[]);
      judged := JudgeTwoKinds(plans, ClientSheet, OrderSheet, people);
      FourKinds(plans, people, judged);
      JudgeAllConcat(start, TasksOfKind(plans, NotarySheet) + TasksOfKind(plans, TranslatorSheet),
                     TasksOfKind(plans, ClientSheet) + TasksOfKind(plans, OrderSheet), defaultType, fold);
    }
  }

  // ---- Workbooks ----

  datatype SheetKind = NotarySheet | TranslatorSheet | ClientSheet | OrderSheet

  /** A row, read either way; the sheet's kind says which reading counts. */
  datatype SheetRow = SheetRow(person: PersonRow, order: OrderRow)

  /** A sheet: its kind, None when it is left out; whether its columns are in order. */
  datatype Plan = Plan(kind: Option<SheetKind>, columnsFit: bool, rows: seq<SheetRow>)

  datatype Refusal = NothingRecognised | TooManyRows | BadColumns | NoRows

  function TaskOf(kind: SheetKind, row: SheetRow): Task {
    match kind
    case NotarySheet => NotaryTask(row.person)
    case TranslatorSheet => TranslatorTask(row.person)
    case ClientSheet => ClientTask(row.person)
    case OrderSheet => OrderTask(row.order)
  }

  function TasksOf(kind: SheetKind, rows: seq<SheetRow>): (tasks: seq<Task>)
    ensures |tasks| == |rows|
  {
    if rows == [] then [] else TasksOf(kind, rows[..|rows| - 1]) + [TaskOf(kind, rows[|rows| - 1])]
  }

  function TasksOfKind(plans: seq<Plan>, kind: SheetKind): seq<Task> {
    if plans == [] then []
    else
      var last := plans[|plans| - 1];
      TasksOfKind(plans[..|plans| - 1], kind) + if last.kind == Some(kind) then TasksOf(kind, last.rows) else []
  }

  /** Every row of every sheet with a kind, earlier kinds first. */
  function AllTasks(plans: seq<Plan>): seq<Task> {
    (TasksOfKind(plans, NotarySheet) + TasksOfKind(plans, TranslatorSheet))
    + (TasksOfKind(plans, ClientSheet) + TasksOfKind(plans, OrderSheet))
  }

  function RowCount(plans: seq<Plan>): nat {
    if plans == [] then 0
    else RowCount(plans[..|plans| - 1]) + if plans[|plans| - 1].kind.Some? then |plans[|plans| - 1].rows| else 0
  }

  /** The first sheet that cannot be judged. */
  function SheetRefusal(plans: seq<Plan>): Option<Refusal> {
    if plans == [] then None
    else if plans[0].kind.None? then SheetRefusal(plans[1..])
    else if !plans[0].columnsFit then Some(BadColumns)
    else if plans[0].rows == [] then Some(NoRows)
    else SheetRefusal(plans[1..])
  }

  function FirstRefusal(plans: seq<Plan>): Option<Refusal> {
    if forall i | 0 <= i < |plans| :: plans[i].kind.None? then Some(NothingRecognised)
    else if RowCount(plans) > MAX_ROWS then Some(TooManyRows)
    else SheetRefusal(plans)
  }

  /** With no sheet of translators, or of notaries, the orders say who they are. */
  function Started(s: State, plans: seq<Plan>): State {
    s.(translators := s.translators.(create := !exists i :: 0 <= i < |plans| && plans[i].kind == Some(TranslatorSheet)),
       notaries := s.notaries.(create := !exists i :: 0 <= i < |plans| && plans[i].kind == Some(NotarySheet)))
  }

  /** The results of the sheets of a kind, sheet after sheet. */
  function Gathered(plans: seq<Plan>, kind: SheetKind, judged: map<nat, seq<LogEntry>>): seq<LogEntry> {
    if plans == [] then []
    else
      var last := |plans| - 1;
      Gathered(plans[..last], kind, judged) + if plans[last].kind == Some(kind) && last in judged then judged[last] else []
  }

  /** All results, in the order the rows were judged. */
  function Results(plans: seq<Plan>, judged: map<nat, seq<LogEntry>>): seq<LogEntry> {
    (Gathered(plans, NotarySheet, judged) + Gathered(plans, TranslatorSheet, judged))
    + (Gathered(plans, ClientSheet, judged) + Gathered(plans, OrderSheet, judged))
  }

  /** The sheets that have a kind, and no others, have a result for each of their rows. */
  ghost predicate EachSheetJudged(plans: seq<Plan>, judged: map<nat, seq<LogEntry>>) {
    && (forall i: nat :: i in judged <==> i < |plans| && plans[i].kind.Some?)
    && (forall i: nat | i < |plans| && i in judged :: |judged[i]| == |plans[i].rows|)
  }

  /** The sheets of a kind are judged, and nothing else changes. */
  ghost predicate PutInPlace(plans: seq<Plan>, kind: SheetKind, before: map<nat, seq<LogEntry>>, judged: map<nat, seq<LogEntry>>) {
    forall i: nat ::
      if i < |plans| && plans[i].kind == Some(kind) then i in judged && |judged[i]| == |plans[i].rows|
      else (i in judged <==> i in before) && (i in before ==> judged[i] == before[i])
  }

  lemma {:induction false} GatheredAgree(plans: seq<Plan>, kind: SheetKind, judged: map<nat, seq<LogEntry>>, judged': map<nat, seq<LogEntry>>)
    requires forall i: nat | i < |plans| && plans[i].kind == Some(kind) ::
               (i in judged <==> i in judged') && (i in judged ==> judged[i] == judged'[i])
    ensures Gathered(plans, kind, judged) == Gathered(plans, kind, judged')
  {
    if plans != [] { GatheredAgree(plans[..|plans| - 1], kind, judged, judged'); }
  }

  lemma PutNext(plans: seq<Plan>, kind: SheetKind, before: map<nat, seq<LogEntry>>, judged: map<nat, seq<LogEntry>>, k: nat, results: seq<LogEntry>)
    requires k < |plans| && plans[k].kind == Some(kind) && |results| == |plans[k].rows| && PutInPlace(plans[..k], kind, before, judged)
    ensures PutInPlace(plans[..k + 1], kind, before, judged[k := results])
    ensures Gathered(plans[..k + 1], kind, judged[k := results]) == Gathered(plans[..k], kind, judged) + results
  {
    assert plans[..k + 1][..k] == plans[..k];
    GatheredAgree(plans[..k], kind, judged, judged[k := results]);
  }

  lemma SkipNext(plans: seq<Plan>, kind: SheetKind, before: map<nat, seq<LogEntry>>, judged: map<nat, seq<LogEntry>>, k: nat)
    requires k < |plans| && plans[k].kind != Some(kind) && PutInPlace(plans[..k], kind, before, judged)
    ensures PutInPlace(plans[..k + 1], kind, before, judged)
    ensures Gathered(plans[..k + 1], kind, judged) == Gathered(plans[..k], kind, judged)
  {
    assert plans[..k + 1][..k] == plans[..k];
  }

  lemma OthersStay(plans: seq<Plan>, kind: SheetKind, other: SheetKind, before: map<nat, seq<LogEntry>>, judged: map<nat, seq<LogEntry>>)
    requires PutInPlace(plans, kind, before, judged) && other != kind
    ensures Gathered(plans, other, judged) == Gathered(plans, other, before)
  {
    GatheredAgree(plans, other, judged, before);
  }

  /** What two kinds' judging puts in place, and then two more's. */
  lemma FourKinds(plans: seq<Plan>, people: map<nat, seq<LogEntry>>, judged: map<nat, seq<LogEntry>>)
    requires exists mid :: PutInPlace(plans, NotarySheet, map[], mid) && PutInPlace(plans, TranslatorSheet, mid, people)
    requires exists mid :: PutInPlace(plans, ClientSheet, people, mid) && PutInPlace(plans, OrderSheet, mid, judged)
    ensures Gathered(plans, NotarySheet, judged) == Gathered(plans, NotarySheet, people)
    ensures Gathered(plans, TranslatorSheet, judged) == Gathered(plans, TranslatorSheet, people)
    ensures EachSheetJudged(plans, judged)
  {
    var early :| PutInPlace(plans, NotarySheet, map[], early) && PutInPlace(plans, TranslatorSheet, early, people);
    var late :| PutInPlace(plans, ClientSheet, people, late) && PutInPlace(plans, OrderSheet, late, judged);
    OthersStay(plans, ClientSheet, NotarySheet, people, late);
    OthersStay(plans, OrderSheet, NotarySheet, late, judged);
    OthersStay(plans, ClientSheet, TranslatorSheet, people, late);
    OthersStay(plans, OrderSheet, TranslatorSheet, late, judged);
    hide Gathered;
    forall i: nat
      ensures i in judged <==> i < |plans| && plans[i].kind.Some?
      ensures i < |plans| && i in judged ==> |judged[i]| == |plans[i].rows|
    {
      assert i in early <==> i < |plans| && plans[i].kind == Some(NotarySheet);
      assert i in people <==> i < |plans| && (plans[i].kind == Some(NotarySheet) || plans[i].kind == Some(TranslatorSheet));
      assert i in people ==> |people[i]| == |plans[i].rows|;
      assert i in late <==> i in people || (i < |plans| && plans[i].kind == Some(ClientSheet));
      assert i in late ==> |late[i]| == |plans[i].rows|;
      assert i in judged <==> i in late || (i < |plans| && plans[i].kind == Some(OrderSheet));
      if i < |plans| && plans[i].kind.Some? {
        match plans[i].kind.value
        case NotarySheet => assert i in late;
        case TranslatorSheet => assert i in late;
        case ClientSheet => assert i in late;
        case OrderSheet => assert i in judged;
      }
    }
  }

  lemma TasksOfKindStep(plans: seq<Plan>, kind: SheetKind, k: nat)
    requires k < |plans|
    ensures TasksOfKind(plans[..k + 1], kind) ==
            if plans[k].kind == Some(kind) then TasksOfKind(plans[..k], kind) + TasksOf(kind, plans[k].rows)
            else TasksOfKind(plans[..k], kind)
  {
    assert plans[..k + 1][..k] == plans[..k];
  }

  lemma JudgeNothing(s: State, kind: SheetKind, judged: map<nat, seq<LogEntry>>, defaultType: Option<int>, fold: string -> string)
    ensures JudgeAll(s, [], defaultType, fold) == (s, [])
    ensures TasksOfKind([], kind) == [] && Gathered([], kind, judged) == []
  {
  }

  lemma JudgeAllSnoc(s: State, tasks: seq<Task>, t: Task, defaultType: Option<int>, fold: string -> string)
    ensures var (before, log) := JudgeAll(s, tasks, defaultType, fold);
            var (after, e) := Judge(before, t, defaultType, fold);
            JudgeAll(s, tasks + [t], defaultType, fold) == (after, log + [e])
  {
    hide Judge;
    assert (tasks + [t])[..|tasks|] == tasks;
  }

  lemma {:induction false} JudgeAllConcat(s: State, a: seq<Task>, b: seq<Task>, defaultType: Option<int>, fold: string -> string)
    ensures var (mid, first) := JudgeAll(s, a, defaultType, fold);
            var (after, second) := JudgeAll(mid, b, defaultType, fold);
            JudgeAll(s, a + b, defaultType, fold) == (after, first + second)
    decreases |b|
  {
    hide Judge;
    var (mid, first) := JudgeAll(s, a, defaultType, fold);
    if b == [] {
      assert a + b == a && first + [] == first;
    } else {
      var k := |b| - 1;
      JudgeAllConcat(s, a, b[..k], defaultType, fold);
      assert (a + b)[..|a + b| - 1] == a + b[..k];
      var (before, log) := JudgeAll(mid, b[..k], defaultType, fold);
      var (after, e) := Judge(before, b[k], defaultType, fold);
      assert first + log + [e] == first + (log + [e]);
    }
  }

  lemma {:induction false} JudgeAllLength(s: State, tasks: seq<Task>, defaultType: Option<int>, fold: string -> string)
    ensures |JudgeAll(s, tasks, defaultType, fold).1| == |tasks|
  {
    hide Judge;
    if tasks != [] { JudgeAllLength(s, tasks[..|tasks| - 1], defaultType, fold); }
  }

  // ---- What a judged workbook promises ----

  lemma StartedIsSound(s: State, plans: seq<Plan>, d: Directory)
    requires Sound(s, [], d)
    ensures Sound(Started(s, plans), [], d)
  {
    hide IndexIssued, KnownIssued;
  }

  lemma BookOfStarts(listed: seq<Listed>, fold: string -> string)
    ensures BookOf(listed, false, fold).count == 0
  {
    BookOfIsIssued(listed, false, fold, set l | l in listed :: l.id);
  }

  /** Of the results a workbook is answered with: the references of accepted orders resolve by
      their row, what was created is numbered without a gap, and no order is there twice. */
  lemma WorkbookIsSound(s: State, plans: seq<Plan>, after: State, judged: map<nat, seq<LogEntry>>, d: Directory,
                        defaultType: Option<int>, fold: string -> string)
    requires Sound(s, [], d)
    requires (after, Results(plans, judged)) == JudgeAll(Started(s, plans), AllTasks(plans), defaultType, fold)
    ensures Sound(after, Results(plans, judged), d)
    ensures NoOrderTwice(after, Results(plans, judged), s.known.Keys, fold)
  {
    hide JudgeAll, Sound, NoOrderTwice, AllTasks, Results;
    StartedIsSound(s, plans, d);
    ImportIsSound(Started(s, plans), AllTasks(plans), d, defaultType, fold);
    NoOrderIsTwice(Started(s, plans), AllTasks(plans), defaultType, fold);
  }

  lemma SameNewClient(s: State, t: State, row: OrderRow)
    requires s.clientCount == t.clientCount
    ensures NewClient(s, row) == NewClient(t, row)
  {
  }
}
