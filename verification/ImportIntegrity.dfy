/** What holds over a whole import, whatever its sheets and rows: `judge_workbook` of
    src/suliko/domain/imports_combined.py.

    A log has one entry per row judged. The invariant ties what the judges share to the log,
    and gives the promises an import makes: every reference an accepted order holds is the
    bureau's or was created at or before it, nothing is created twice, no two orders are the
    same, and a row that is not accepted changes nothing. */
module ImportIntegrity {
  import opened Options
  import opened Matching
  import opened Judging

  datatype LogEntry =
    | ClientEntry(client: PersonOutcome)
    | TranslatorEntry(translator: PersonOutcome)
    | NotaryEntry(notary: PersonOutcome)
    | OrderEntry(order: OrderOutcome)

  /** A row, and the judge its sheet's kind gives it. */
  datatype Task =
    | ClientTask(row: PersonRow)
    | TranslatorTask(row: PersonRow)
    | NotaryTask(row: PersonRow)
    | OrderTask(order: OrderRow)

  function Judge(s: State, t: Task, defaultType: Option<int>, fold: string -> string): (State, LogEntry) {
    match t
    case ClientTask(row) =>
      var (after, outcome) := JudgeClient(s, row, fold); (after, ClientEntry(outcome))
    case TranslatorTask(row) =>
      var (index, book, outcome) := JudgePerson(s.translatorIndex, s.translators, row, fold);
      (s.(translatorIndex := index, translators := book), TranslatorEntry(outcome))
    case NotaryTask(row) =>
      var (index, book, outcome) := JudgePerson(s.notaryIndex, s.notaries, row, fold);
      (s.(notaryIndex := index, notaries := book), NotaryEntry(outcome))
    case OrderTask(row) =>
      var (after, outcome) := JudgeOrder(s, row, defaultType, fold); (after, OrderEntry(outcome))
  }

  function JudgeAll(s: State, tasks: seq<Task>, defaultType: Option<int>, fold: string -> string): (State, seq<LogEntry>) {
    if tasks == [] then (s, [])
    else
      var (before, log) := JudgeAll(s, tasks[..|tasks| - 1], defaultType, fold);
      var (after, entry) := Judge(before, tasks[|tasks| - 1], defaultType, fold);
      (after, log + [entry])
  }

  // ---- What the log says was created ----

  datatype Kind = Clients | Translators | Notaries

  function CreatedBy(e: LogEntry, kind: Kind): seq<Ref> {
    match e
    case ClientEntry(outcome) => if kind.Clients? && outcome.Created? then [outcome.ref] else []
    case TranslatorEntry(outcome) => if kind.Translators? && outcome.Created? then [outcome.ref] else []
    case NotaryEntry(outcome) => if kind.Notaries? && outcome.Created? then [outcome.ref] else []
    case OrderEntry(outcome) =>
      if !outcome.Accepted? then []
      else
        var o := outcome.order;
        match kind
        case Clients => if o.newClient then [o.client] else []
        case Translators => if o.newTranslator && o.translator.Some? then [o.translator.value] else []
        case Notaries => if o.newNotary && o.notary.Some? then [o.notary.value] else []
  }

  function CreatedIn(log: seq<LogEntry>, kind: Kind): seq<Ref> {
    if log == [] then [] else CreatedIn(log[..|log| - 1], kind) + CreatedBy(log[|log| - 1], kind)
  }

  /** "new:0", "new:1", ... */
  function FirstRefs(n: nat): (refs: seq<Ref>)
    ensures |refs| == n && forall i | 0 <= i < n :: refs[i] == New(i)
  {
    if n == 0 then [] else FirstRefs(n - 1) + [New(n - 1)]
  }

  function AcceptedBy(e: LogEntry): seq<Order> {
    if e.OrderEntry? && e.order.Accepted? then [e.order.order] else []
  }

  function AcceptedIn(log: seq<LogEntry>): seq<Order> {
    if log == [] then [] else AcceptedIn(log[..|log| - 1]) + AcceptedBy(log[|log| - 1])
  }

  // ---- References ----

  /** The bureau's, or one of the `count` created so far. */
  predicate Issued(ref: Ref, directory: set<int>, count: nat) {
    match ref
    case Stored(id) => id in directory
    case New(n) => n < count
  }

  datatype Directory = Directory(clients: set<int>, translators: set<int>, notaries: set<int>)

  ghost predicate OrderResolves(o: Order, d: Directory, log: seq<LogEntry>) {
    && Issued(o.client, d.clients, |CreatedIn(log, Clients)|)
    && (o.translator.Some? ==> Issued(o.translator.value, d.translators, |CreatedIn(log, Translators)|))
    && (o.notary.Some? ==> Issued(o.notary.value, d.notaries, |CreatedIn(log, Notaries)|))
  }

  /** Every accepted order's references resolve by the row that holds them. */
  ghost predicate ReferencesResolve(log: seq<LogEntry>, d: Directory) {
    forall i | 0 <= i < |log| :: log[i].OrderEntry? && log[i].order.Accepted? ==> OrderResolves(log[i].order.order, d, log[..i + 1])
  }

  // ---- The invariant ----

  ghost predicate IndexIssued(index: Index, directory: set<int>, count: nat) {
    && (forall k | k in index.byPhone :: Issued(index.byPhone[k].ref, directory, count))
    && (forall k | k in index.byEmail :: Issued(index.byEmail[k].ref, directory, count))
    && (forall k | k in index.byNumber :: Issued(index.byNumber[k].ref, directory, count))
    && (forall k | k in index.byName :: Issued(index.byName[k].ref, directory, count))
  }

  ghost predicate BookIssued(book: Book, directory: set<int>) {
    && (forall k | k in book.byName :: Issued(book.byName[k].ref, directory, book.count))
    && (forall k | k in book.byPhone :: Issued(book.byPhone[k].ref, directory, book.count))
    && (forall ref | ref in book.created :: ref.New? && ref.n < book.count)
  }

  ghost predicate AllIssued(s: State, d: Directory) {
    && IndexIssued(s.clients, d.clients, s.clientCount)
    && IndexIssued(s.translatorIndex, d.translators, s.translators.count) && BookIssued(s.translators, d.translators)
    && IndexIssued(s.notaryIndex, d.notaries, s.notaries.count) && BookIssued(s.notaries, d.notaries)
    && KnownIssued(s.known, d.clients, s.clientCount)
  }

  ghost predicate KnownIssued(known: map<OrderKey, OrderLabel>, directory: set<int>, count: nat) {
    forall key | key in known :: Issued(key.client, directory, count)
  }

  /** The counters count what the log created, and number it in order. */
  ghost predicate Counted(s: State, log: seq<LogEntry>) {
    && CreatedIn(log, Clients) == FirstRefs(s.clientCount)
    && CreatedIn(log, Translators) == FirstRefs(s.translators.count)
    && CreatedIn(log, Notaries) == FirstRefs(s.notaries.count)
  }

  // ---- One row ----

  lemma MatchIsIssued(index: Index, p: Person, byName: bool, fold: string -> string, directory: set<int>, count: nat)
    requires IndexIssued(index, directory, count)
    ensures var hit := Match(index, p, byName, fold); hit.Some? ==> Issued(hit.value.entry.ref, directory, count)
  {
  }

  lemma RememberIsIssued(index: Index, p: Person, fold: string -> string, directory: set<int>, count: nat)
    requires IndexIssued(index, directory, count) && p.ref == New(count)
    ensures IndexIssued(Remember(index, p, fold), directory, count + 1)
  {
    hide KeyOf;
  }

  lemma MoreIssued(index: Index, directory: set<int>, count: nat)
    requires IndexIssued(index, directory, count)
    ensures IndexIssued(index, directory, count + 1)
  {
  }

  lemma NamedIsIssued(book: Book, name: string, phone: string, fold: string -> string, directory: set<int>)
    requires BookIssued(book, directory)
    ensures var named := WhoIsNamed(book, name, phone, fold);
            && (named.Found? ==> Issued(named.known.ref, directory, book.count))
            && (named.ToCreate? ==> name != "" && fold(name) !in book.byName)
            && (named.ToCreate? && PhoneKey(CleanPhone(phone)).Some? ==> PhoneKey(CleanPhone(phone)).value !in book.byPhone)
  {
  }

  lemma SettleIsIssued(book: Book, named: Named, name: string, phone: string, fold: string -> string, directory: set<int>)
    requires BookIssued(book, directory) && (named.Found? ==> Issued(named.known.ref, directory, book.count))
    ensures var after, ref := Settle(book, named, name, phone, fold), RefOf(book, named);
            && BookIssued(after, directory)
            && after.count == book.count + (if named.ToCreate? then 1 else 0)
            && (ref.Some? ==> Issued(ref.value, directory, after.count))
            && (named.ToCreate? ==> ref == Some(New(book.count)) && ref.value in after.created)
  {
    hide PhoneKey, CleanPhone;
  }

  lemma AddPairIsIssued(book: Book, ref: Ref, pair: (string, string), directory: set<int>)
    requires BookIssued(book, directory)
    ensures BookIssued(AddPair(book, ref, pair), directory) && AddPair(book, ref, pair).count == book.count
  {
  }

  lemma JudgePersonIsIssued(index: Index, book: Book, row: PersonRow, fold: string -> string, directory: set<int>)
    requires IndexIssued(index, directory, book.count) && BookIssued(book, directory)
    ensures var (index', book', outcome) := JudgePerson(index, book, row, fold);
            && IndexIssued(index', directory, book'.count) && BookIssued(book', directory)
            && (if outcome.Created? then outcome.ref == New(book.count) && book'.count == book.count + 1
                else book'.count == book.count)
  {
    hide PhoneKey, CleanPhone, KeyOf, Match, Remember, IndexIssued;
    if row.name != "" && |row.name| <= MAX_NAME {
      var person := PersonOf(row.(personalNumber := None), Some(row.name), New(book.count));
      MatchIsIssued(index, person, true, fold, directory, book.count);
      RememberIsIssued(index, person, fold, directory, book.count);
    }
  }

  lemma JudgeClientIsIssued(s: State, row: PersonRow, fold: string -> string, d: Directory)
    requires AllIssued(s, d)
    ensures var (after, outcome) := JudgeClient(s, row, fold);
            && AllIssued(after, d)
            && (if outcome.Created? then outcome.ref == New(s.clientCount) && after.clientCount == s.clientCount + 1
                else after == s)
            && after.translators == s.translators && after.notaries == s.notaries && after.known == s.known
  {
    hide IndexIssued, BookIssued, Match, Remember;
    RememberIsIssued(s.clients, PersonOf(row, Some(row.name), New(s.clientCount)), fold, d.clients, s.clientCount);
  }

  /** What an accepted order row does to each part. */
  lemma JudgeOrderIsIssued(s: State, row: OrderRow, defaultType: Option<int>, fold: string -> string, d: Directory)
    requires AllIssued(s, d)
    ensures var (after, outcome) := JudgeOrder(s, row, defaultType, fold);
            && AllIssued(after, d)
            && if outcome.Accepted? then OrderAccounted(s, after, outcome.order, d, fold) else after == s
  {
    var (after, outcome) := JudgeOrder(s, row, defaultType, fold);
    if outcome.Accepted? {
      var translator := WhoIsNamed(s.translators, row.translator, row.translatorPhone, fold);
      var notary := WhoIsNamed(s.notaries, row.notary, row.notaryPhone, fold);
      NamedIsIssued(s.translators, row.translator, row.translatorPhone, fold, d.translators);
      NamedIsIssued(s.notaries, row.notary, row.notaryPhone, fold, d.notaries);
      MatchIsIssued(s.clients, ClientProbe(row), row.client.name != "", fold, d.clients, s.clientCount);
      AcceptIsIssued(s, row, outcome.order, translator, notary, fold, d);
      AcceptIsAccounted(s, row, outcome.order, translator, notary, fold, d);
    }
  }

  /** The counters and the order's references, before and after the row. */
  ghost predicate OrderAccounted(s: State, after: State, o: Order, d: Directory, fold: string -> string) {
    && after.clientCount == s.clientCount + (if o.newClient then 1 else 0)
    && (o.newClient ==> o.client == New(s.clientCount))
    && Issued(o.client, d.clients, after.clientCount)
    && after.translators.count == s.translators.count + (if o.newTranslator then 1 else 0)
    && (o.newTranslator ==> o.translator == Some(New(s.translators.count)))
    && (o.translator.Some? ==> Issued(o.translator.value, d.translators, after.translators.count))
    && after.notaries.count == s.notaries.count + (if o.newNotary then 1 else 0)
    && (o.newNotary ==> o.notary == Some(New(s.notaries.count)))
    && (o.notary.Some? ==> Issued(o.notary.value, d.notaries, after.notaries.count))
    && KeyOfOrder(o, fold) !in s.known && after.known.Keys == s.known.Keys + {KeyOfOrder(o, fold)}
  }

  lemma AcceptIsIssued(s: State, row: OrderRow, o: Order, translator: Named, notary: Named, fold: string -> string, d: Directory)
    requires AllIssued(s, d)
    requires translator.Found? ==> Issued(translator.known.ref, d.translators, s.translators.count)
    requires notary.Found? ==> Issued(notary.known.ref, d.notaries, s.notaries.count)
    requires if o.newClient then o.client == New(s.clientCount) else Issued(o.client, d.clients, s.clientCount)
    requires o.translator == RefOf(s.translators, translator) && o.newTranslator == translator.ToCreate?
    requires o.notary == RefOf(s.notaries, notary) && o.newNotary == notary.ToCreate?
    ensures AllIssued(Accept(s, row, o, translator, notary, fold), d)
  {
    hide *;
    AcceptClients(s, row, o, translator, notary, fold, d);
    AcceptTranslators(s, row, o, translator, notary, fold, d);
    AcceptNotaries(s, row, o, translator, notary, fold, d);
    AllPartsIssued(Accept(s, row, o, translator, notary, fold), d);
  }

  lemma AllPartsIssued(s: State, d: Directory)
    requires IndexIssued(s.clients, d.clients, s.clientCount) && KnownIssued(s.known, d.clients, s.clientCount)
    requires IndexIssued(s.translatorIndex, d.translators, s.translators.count) && BookIssued(s.translators, d.translators)
    requires IndexIssued(s.notaryIndex, d.notaries, s.notaries.count) && BookIssued(s.notaries, d.notaries)
    ensures AllIssued(s, d)
  {
  }

  lemma AcceptClients(s: State, row: OrderRow, o: Order, translator: Named, notary: Named, fold: string -> string, d: Directory)
    requires AllIssued(s, d)
    requires if o.newClient then o.client == New(s.clientCount) else Issued(o.client, d.clients, s.clientCount)
    ensures var after := Accept(s, row, o, translator, notary, fold);
            IndexIssued(after.clients, d.clients, after.clientCount) && KnownIssued(after.known, d.clients, after.clientCount)
  {
    assert KeyOfOrder(o, fold).client == o.client;
    hide KnownIssued, IndexIssued, BookIssued, Settle, AcceptTranslator, Remember, KeyOfOrder, PersonOf, NewClient;
    RememberIsIssued(s.clients, NewClient(s, row), fold, d.clients, s.clientCount);
    KnownGrows(s.known, KeyOfOrder(o, fold), Row(row.number), d.clients, s.clientCount, s.clientCount + if o.newClient then 1 else 0);
  }

  lemma AcceptTranslators(s: State, row: OrderRow, o: Order, translator: Named, notary: Named, fold: string -> string, d: Directory)
    requires AllIssued(s, d)
    requires translator.Found? ==> Issued(translator.known.ref, d.translators, s.translators.count)
    requires o.translator == RefOf(s.translators, translator) && o.newTranslator == translator.ToCreate?
    ensures var after := Accept(s, row, o, translator, notary, fold);
            IndexIssued(after.translatorIndex, d.translators, after.translators.count) && BookIssued(after.translators, d.translators)
  {
    hide KnownIssued, IndexIssued, BookIssued, Settle, AcceptTranslator, Remember, KeyOfOrder, RefOf, PersonOf, NewClient, Issued;
    TranslatorIsIssued(s.translators, row, o, translator, fold, d.translators);
    MoreIssued(s.translatorIndex, d.translators, s.translators.count);
  }

  lemma AcceptNotaries(s: State, row: OrderRow, o: Order, translator: Named, notary: Named, fold: string -> string, d: Directory)
    requires AllIssued(s, d)
    requires notary.Found? ==> Issued(notary.known.ref, d.notaries, s.notaries.count)
    requires o.notary == RefOf(s.notaries, notary) && o.newNotary == notary.ToCreate?
    ensures var after := Accept(s, row, o, translator, notary, fold);
            IndexIssued(after.notaryIndex, d.notaries, after.notaries.count) && BookIssued(after.notaries, d.notaries)
  {
    hide KnownIssued, IndexIssued, BookIssued, Settle, AcceptTranslator, Remember, KeyOfOrder, RefOf, PersonOf, NewClient, Issued;
    SettleIsIssued(s.notaries, notary, row.notary, row.notaryPhone, fold, d.notaries);
    MoreIssued(s.notaryIndex, d.notaries, s.notaries.count);
  }

  lemma AcceptIsAccounted(s: State, row: OrderRow, o: Order, translator: Named, notary: Named, fold: string -> string, d: Directory)
    requires AllIssued(s, d)
    requires translator.Found? ==> Issued(translator.known.ref, d.translators, s.translators.count)
    requires notary.Found? ==> Issued(notary.known.ref, d.notaries, s.notaries.count)
    requires if o.newClient then o.client == New(s.clientCount) else Issued(o.client, d.clients, s.clientCount)
    requires o.translator == RefOf(s.translators, translator) && o.newTranslator == translator.ToCreate?
    requires o.notary == RefOf(s.notaries, notary) && o.newNotary == notary.ToCreate?
    requires KeyOfOrder(o, fold) !in s.known
    ensures OrderAccounted(s, Accept(s, row, o, translator, notary, fold), o, d, fold)
  {
    hide KnownIssued, IndexIssued, BookIssued, Settle, AcceptTranslator, Remember, KeyOfOrder, RefOf, PersonOf;
    TranslatorIsIssued(s.translators, row, o, translator, fold, d.translators);
    SettleIsIssued(s.notaries, notary, row.notary, row.notaryPhone, fold, d.notaries);
  }

  lemma KnownGrows(known: map<OrderKey, OrderLabel>, key: OrderKey, title: OrderLabel, directory: set<int>, count: nat, count': nat)
    requires KnownIssued(known, directory, count) && count <= count' && Issued(key.client, directory, count')
    ensures KnownIssued(known[key := title], directory, count') && known[key := title].Keys == known.Keys + {key}
  {
  }

  lemma TranslatorIsIssued(book: Book, row: OrderRow, o: Order, named: Named, fold: string -> string, directory: set<int>)
    requires BookIssued(book, directory) && (named.Found? ==> Issued(named.known.ref, directory, book.count))
    requires o.translator == RefOf(book, named)
    ensures var after := AcceptTranslator(book, row, o, named, fold);
            && BookIssued(after, directory)
            && after.count == book.count + (if named.ToCreate? then 1 else 0)
            && (o.translator.Some? ==> Issued(o.translator.value, directory, after.count))
            && (named.ToCreate? ==> o.translator == Some(New(book.count)))
  {
    SettleIsIssued(book, named, row.translator, row.translatorPhone, fold, directory);
    var settled := Settle(book, named, row.translator, row.translatorPhone, fold);
    if o.translator.Some? { AddPairIsIssued(settled, o.translator.value, (o.source, o.target), directory); }
    hide Settle, AddPair, BookIssued;
  }

  // ---- The whole import ----

  /** Everything judged so far hangs together. */
  ghost predicate Sound(s: State, log: seq<LogEntry>, d: Directory) {
    AllIssued(s, d) && Counted(s, log) && ReferencesResolve(log, d)
  }

  lemma CreatedSnoc(log: seq<LogEntry>, e: LogEntry, kind: Kind)
    ensures CreatedIn(log + [e], kind) == CreatedIn(log, kind) + CreatedBy(e, kind)
  {
    assert (log + [e])[..|log|] == log;
  }

  lemma CountedSnoc(log: seq<LogEntry>, e: LogEntry, kind: Kind, count: nat)
    requires CreatedIn(log, kind) == FirstRefs(count)
    requires CreatedBy(e, kind) == [] || CreatedBy(e, kind) == [New(count)]
    ensures CreatedIn(log + [e], kind) == FirstRefs(count + |CreatedBy(e, kind)|)
  {
    CreatedSnoc(log, e, kind);
  }

  lemma ResolvesSnoc(log: seq<LogEntry>, e: LogEntry, d: Directory)
    requires ReferencesResolve(log, d)
    requires e.OrderEntry? && e.order.Accepted? ==> OrderResolves(e.order.order, d, log + [e])
    ensures ReferencesResolve(log + [e], d)
  {
    var more := log + [e];
    forall i | 0 <= i < |more| && more[i].OrderEntry? && more[i].order.Accepted?
      ensures OrderResolves(more[i].order.order, d, more[..i + 1])
    {
      if i < |log| {
        assert more[..i + 1] == log[..i + 1] && more[i] == log[i];
      } else {
        assert more[..i + 1] == more;
      }
    }
  }

  /** What one entry adds to the counters, and where its references stand. */
  ghost predicate EntryAccounted(s: State, after: State, e: LogEntry, d: Directory) {
    && (CreatedBy(e, Clients) == [] || CreatedBy(e, Clients) == [New(s.clientCount)])
    && (CreatedBy(e, Translators) == [] || CreatedBy(e, Translators) == [New(s.translators.count)])
    && (CreatedBy(e, Notaries) == [] || CreatedBy(e, Notaries) == [New(s.notaries.count)])
    && after.clientCount == s.clientCount + |CreatedBy(e, Clients)|
    && after.translators.count == s.translators.count + |CreatedBy(e, Translators)|
    && after.notaries.count == s.notaries.count + |CreatedBy(e, Notaries)|
    && (e.OrderEntry? && e.order.Accepted? ==>
          var o := e.order.order;
          && Issued(o.client, d.clients, after.clientCount)
          && (o.translator.Some? ==> Issued(o.translator.value, d.translators, after.translators.count))
          && (o.notary.Some? ==> Issued(o.notary.value, d.notaries, after.notaries.count)))
  }

  lemma JudgeKeepsSound(s: State, t: Task, log: seq<LogEntry>, d: Directory, defaultType: Option<int>, fold: string -> string)
    requires Sound(s, log, d)
    ensures var (after, e) := Judge(s, t, defaultType, fold); Sound(after, log + [e], d)
  {
    var (after, e) := Judge(s, t, defaultType, fold);
    JudgeIsIssued(s, t, d, defaultType, fold);
    hide AllIssued, Judge, Counted, EntryAccounted, ReferencesResolve;
    SoundSnoc(s, after, log, e, d);
  }

  lemma SoundSnoc(s: State, after: State, log: seq<LogEntry>, e: LogEntry, d: Directory)
    requires Sound(s, log, d) && AllIssued(after, d) && EntryAccounted(s, after, e, d)
    ensures Sound(after, log + [e], d)
  {
    hide AllIssued, ReferencesResolve, CreatedIn, CreatedBy, FirstRefs;
    CountedSnoc(log, e, Clients, s.clientCount);
    CountedSnoc(log, e, Translators, s.translators.count);
    CountedSnoc(log, e, Notaries, s.notaries.count);
    ResolvesSnoc(log, e, d);
  }

  lemma JudgeIsIssued(s: State, t: Task, d: Directory, defaultType: Option<int>, fold: string -> string)
    requires AllIssued(s, d)
    ensures var (after, e) := Judge(s, t, defaultType, fold); AllIssued(after, d) && EntryAccounted(s, after, e, d)
  {
    hide IndexIssued, BookIssued, JudgeClient, JudgePerson, JudgeOrder;
    match t {
      case ClientTask(row) => JudgeClientIsIssued(s, row, fold, d);
      case TranslatorTask(row) => JudgePersonIsIssued(s.translatorIndex, s.translators, row, fold, d.translators);
      case NotaryTask(row) => JudgePersonIsIssued(s.notaryIndex, s.notaries, row, fold, d.notaries);
      case OrderTask(row) => JudgeOrderIsIssued(s, row, defaultType, fold, d);
    }
  }

  /** A record of the bureau's that orders can name. */
  datatype Listed = Listed(id: int, name: string, phone: Option<string>)

  function BookOf(listed: seq<Listed>, create: bool, fold: string -> string): Book {
    if listed == [] then Book(map[], map[], map[], 0, create)
    else
      var last := listed[|listed| - 1];
      RememberPerson(BookOf(listed[..|listed| - 1], create, fold), Stored(last.id), last.name, last.phone, fold)
  }

  lemma {:induction false} BookOfIsIssued(listed: seq<Listed>, create: bool, fold: string -> string, directory: set<int>)
    requires forall i | 0 <= i < |listed| :: listed[i].id in directory
    ensures var book := BookOf(listed, create, fold); BookIssued(book, directory) && book.count == 0 && book.created == map[]
  {
    hide PhoneKey;
    if listed != [] { BookOfIsIssued(listed[..|listed| - 1], create, fold, directory); }
  }

  lemma {:induction false} IndexOfIsIssued(people: seq<Person>, fold: string -> string, directory: set<int>)
    requires forall i | 0 <= i < |people| :: people[i].ref.Stored? && people[i].ref.id in directory
    ensures IndexIssued(IndexOf(people, fold), directory, 0)
  {
    hide KeyOf;
    if people != [] { IndexOfIsIssued(people[..|people| - 1], fold, directory); }
  }

  /** An import begins from the bureau's own records. */
  lemma StartIsSound(clients: seq<Person>, translators: seq<Person>, notaries: seq<Person>,
                     translatorList: seq<Listed>, notaryList: seq<Listed>, creates: (bool, bool),
                     known: map<OrderKey, OrderLabel>, fold: string -> string, d: Directory)
    requires forall i | 0 <= i < |clients| :: clients[i].ref.Stored? && clients[i].ref.id in d.clients
    requires forall i | 0 <= i < |translators| :: translators[i].ref.Stored? && translators[i].ref.id in d.translators
    requires forall i | 0 <= i < |notaries| :: notaries[i].ref.Stored? && notaries[i].ref.id in d.notaries
    requires forall i | 0 <= i < |translatorList| :: translatorList[i].id in d.translators
    requires forall i | 0 <= i < |notaryList| :: notaryList[i].id in d.notaries
    requires forall key | key in known :: key.client.Stored? && key.client.id in d.clients
    ensures Sound(State(IndexOf(clients, fold), 0, IndexOf(translators, fold), BookOf(translatorList, creates.0, fold),
                        IndexOf(notaries, fold), BookOf(notaryList, creates.1, fold), known), [], d)
  {
    var s := State(IndexOf(clients, fold), 0, IndexOf(translators, fold), BookOf(translatorList, creates.0, fold),
                   IndexOf(notaries, fold), BookOf(notaryList, creates.1, fold), known);
    assert KnownIssued(known, d.clients, 0);
    hide *;
    IndexOfIsIssued(clients, fold, d.clients);
    IndexOfIsIssued(translators, fold, d.translators);
    IndexOfIsIssued(notaries, fold, d.notaries);
    BookOfIsIssued(translatorList, creates.0, fold, d.translators);
    BookOfIsIssued(notaryList, creates.1, fold, d.notaries);
    AllPartsIssued(s, d);
    NothingJudged(s, d);
  }

  lemma NothingJudged(s: State, d: Directory)
    requires AllIssued(s, d) && s.clientCount == s.translators.count == s.notaries.count == 0
    ensures Sound(s, [], d)
  {
  }

  /** Over any rows of any sheets in any order: every reference of an accepted order is the
      bureau's or one created at or before its row; the records created are numbered 0, 1, 2
      without a gap or a repeat, and the counters count them. */
  lemma {:induction false} ImportIsSound(s: State, tasks: seq<Task>, d: Directory, defaultType: Option<int>, fold: string -> string)
    requires Sound(s, [], d)
    ensures var (after, log) := JudgeAll(s, tasks, defaultType, fold); Sound(after, log, d)
  {
    hide Sound, Judge;
    if tasks != [] {
      var n := |tasks| - 1;
      ImportIsSound(s, tasks[..n], d, defaultType, fold);
      var (before, log) := JudgeAll(s, tasks[..n], defaultType, fold);
      JudgeKeepsSound(before, tasks[n], log, d, defaultType, fold);
    }
  }

  lemma AcceptedSnoc(log: seq<LogEntry>, e: LogEntry)
    ensures AcceptedIn(log + [e]) == AcceptedIn(log) + AcceptedBy(e)
  {
    assert (log + [e])[..|log|] == log;
  }

  // ---- Language pairs ----

  /** The pairs the accepted orders show a translator in, each once, in the order they come. */
  function PairsOf(orders: seq<Order>, ref: Ref): seq<(string, string)> {
    if orders == [] then []
    else
      var before, o := PairsOf(orders[..|orders| - 1], ref), orders[|orders| - 1];
      if o.translator == Some(ref) && (o.source, o.target) !in before then before + [(o.source, o.target)] else before
  }

  /** The translators the orders created work exactly the pairs of their orders; nobody still
      to be created has an order. */
  ghost predicate PairsKept(s: State, log: seq<LogEntry>) {
    && (forall ref | ref in s.translators.created :: s.translators.created[ref] == PairsOf(AcceptedIn(log), ref))
    && (forall n: nat | s.translators.count <= n :: PairsOf(AcceptedIn(log), New(n)) == [])
  }

  lemma PairsSnoc(orders: seq<Order>, o: Order, ref: Ref)
    ensures PairsOf(orders + [o], ref) ==
            var before := PairsOf(orders, ref);
            if o.translator == Some(ref) && (o.source, o.target) !in before then before + [(o.source, o.target)] else before
  {
    assert (orders + [o])[..|orders|] == orders;
  }

  lemma AcceptKeepsPairs(book: Book, row: OrderRow, o: Order, named: Named, orders: seq<Order>, fold: string -> string, directory: set<int>)
    requires BookIssued(book, directory) && (named.Found? ==> Issued(named.known.ref, directory, book.count))
    requires o.translator == RefOf(book, named)
    requires forall ref | ref in book.created :: book.created[ref] == PairsOf(orders, ref)
    requires forall n: nat | book.count <= n :: PairsOf(orders, New(n)) == []
    ensures var after := AcceptTranslator(book, row, o, named, fold);
            && (forall ref | ref in after.created :: after.created[ref] == PairsOf(orders + [o], ref))
            && (forall n: nat | after.count <= n :: PairsOf(orders + [o], New(n)) == [])
  {
    hide PhoneKey, CleanPhone, PairsOf;
    var after := AcceptTranslator(book, row, o, named, fold);
    forall ref | ref in after.created ensures after.created[ref] == PairsOf(orders + [o], ref) {
      PairsSnoc(orders, o, ref);
    }
    forall n: nat | after.count <= n ensures PairsOf(orders + [o], New(n)) == [] {
      PairsSnoc(orders, o, New(n));
    }
  }

  lemma JudgeKeepsPairs(s: State, t: Task, log: seq<LogEntry>, d: Directory, defaultType: Option<int>, fold: string -> string)
    requires AllIssued(s, d) && PairsKept(s, log)
    ensures var (after, e) := Judge(s, t, defaultType, fold); PairsKept(after, log + [e])
  {
    var (after, e) := Judge(s, t, defaultType, fold);
    AcceptedSnoc(log, e);
    if AcceptedBy(e) == [] {
      assert AcceptedIn(log) + [] == AcceptedIn(log);
      OthersKeepCreated(s, t, defaultType, fold);
    } else {
      var row := t.order;
      var translator := WhoIsNamed(s.translators, row.translator, row.translatorPhone, fold);
      NamedIsIssued(s.translators, row.translator, row.translatorPhone, fold, d.translators);
      AcceptKeepsPairs(s.translators, row, e.order.order, translator, AcceptedIn(log), fold, d.translators);
    }
  }

  lemma OthersKeepCreated(s: State, t: Task, defaultType: Option<int>, fold: string -> string)
    ensures var (after, e) := Judge(s, t, defaultType, fold);
            AcceptedBy(e) == [] ==>
              after.translators.created == s.translators.created && after.translators.count >= s.translators.count
  {
    hide PhoneKey, CleanPhone, Match, Remember, Draft, KeyOfOrder, WhoIsNamed, FirstProblem;
  }

  /** Over a whole import, a translator the orders create is saved with exactly the language
      pairs of the orders that name them. */
  lemma {:induction false} PairsAreThoseOfTheOrders(s: State, tasks: seq<Task>, d: Directory, defaultType: Option<int>, fold: string -> string)
    requires Sound(s, [], d) && s.translators.created == map[]
    ensures var (after, log) := JudgeAll(s, tasks, defaultType, fold); PairsKept(after, log)
  {
    hide Judge;
    if tasks != [] {
      var n := |tasks| - 1;
      PairsAreThoseOfTheOrders(s, tasks[..n], d, defaultType, fold);
      ImportIsSound(s, tasks[..n], d, defaultType, fold);
      var (before, log) := JudgeAll(s, tasks[..n], defaultType, fold);
      JudgeKeepsPairs(before, tasks[n], log, d, defaultType, fold);
    }
  }

  // ---- No order twice ----

  /** The orders known are those there were and those accepted, no two the same. */
  ghost predicate NoOrderTwice(s: State, log: seq<LogEntry>, existing: set<OrderKey>, fold: string -> string) {
    var orders := AcceptedIn(log);
    && (forall key :: key in s.known <==> key in existing || exists i :: 0 <= i < |orders| && KeyOfOrder(orders[i], fold) == key)
    && (forall i | 0 <= i < |orders| :: KeyOfOrder(orders[i], fold) !in existing)
    && (forall i, j | 0 <= i < j < |orders| :: KeyOfOrder(orders[i], fold) != KeyOfOrder(orders[j], fold))
  }

  lemma JudgeKnown(s: State, t: Task, defaultType: Option<int>, fold: string -> string)
    ensures var (after, e) := Judge(s, t, defaultType, fold);
            if AcceptedBy(e) == [] then after.known == s.known
            else
              var key := KeyOfOrder(AcceptedBy(e)[0], fold);
              key !in s.known && after.known.Keys == s.known.Keys + {key}
  {
    hide Match, WhoIsNamed, Settle, Remember, Draft, KeyOfOrder, AcceptTranslator, FirstProblem;
  }

  lemma KnownSnoc(s: State, after: State, log: seq<LogEntry>, o: Order, existing: set<OrderKey>, fold: string -> string)
    requires NoOrderTwice(s, log, existing, fold)
    requires KeyOfOrder(o, fold) !in s.known && after.known.Keys == s.known.Keys + {KeyOfOrder(o, fold)}
    ensures NoOrderTwice(after, log + [OrderEntry(Accepted(o))], existing, fold)
  {
    hide KeyOfOrder;
    var orders := AcceptedIn(log);
    AcceptedSnoc(log, OrderEntry(Accepted(o)));
    var more := orders + [o];
    var last := KeyOfOrder(o, fold);
    forall key ensures key in after.known <==> key in existing || exists i :: 0 <= i < |more| && KeyOfOrder(more[i], fold) == key {
      if key == last {
        assert KeyOfOrder(more[|orders|], fold) == key;
      } else if key in s.known && key !in existing {
        var i :| 0 <= i < |orders| && KeyOfOrder(orders[i], fold) == key;
        assert KeyOfOrder(more[i], fold) == key;
      }
    }
    forall i, j | 0 <= i < j < |more| ensures KeyOfOrder(more[i], fold) != KeyOfOrder(more[j], fold) {
      assert more[i] == orders[i];
      assert KeyOfOrder(orders[i], fold) in s.known;
    }
  }

  /** Accepted orders have pairwise different keys, and none an order's that was there. */
  lemma {:induction false} NoOrderIsTwice(s: State, tasks: seq<Task>, defaultType: Option<int>, fold: string -> string)
    ensures var (after, log) := JudgeAll(s, tasks, defaultType, fold); NoOrderTwice(after, log, s.known.Keys, fold)
  {
    if tasks != [] {
      var n := |tasks| - 1;
      NoOrderIsTwice(s, tasks[..n], defaultType, fold);
      var (before, log) := JudgeAll(s, tasks[..n], defaultType, fold);
      var (after, e) := Judge(before, tasks[n], defaultType, fold);
      JudgeKnown(before, tasks[n], defaultType, fold);
      hide Judge, NoOrderTwice;
      AcceptedSnoc(log, e);
      if AcceptedBy(e) == [] {
        SameKnown(before, after, log, e, s.known.Keys, fold);
      } else {
        KnownSnoc(before, after, log, e.order.order, s.known.Keys, fold);
      }
    }
  }

  lemma SameKnown(s: State, after: State, log: seq<LogEntry>, e: LogEntry, existing: set<OrderKey>, fold: string -> string)
    requires NoOrderTwice(s, log, existing, fold) && after.known == s.known && AcceptedBy(e) == []
    ensures NoOrderTwice(after, log + [e], existing, fold)
  {
    AcceptedSnoc(log, e);
    assert AcceptedIn(log) + [] == AcceptedIn(log);
  }

  // ---- The row alone ----

  /** A row that brings a new client is never taken for an order already there: no order can
      be that client's yet. */
  lemma NewClientIsNoDuplicate(s: State, row: OrderRow, defaultType: Option<int>, fold: string -> string, d: Directory)
    requires AllIssued(s, d)
    requires Match(s.clients, ClientProbe(row), row.client.name != "", fold).None?
    ensures !JudgeOrder(s, row, defaultType, fold).1.Duplicate?
  {
    hide IndexIssued, BookIssued, Match;
    assert !Issued(New(s.clientCount), d.clients, s.clientCount);
  }

  /** The client an accepted row created is found again, whatever the row gives of it. */
  lemma NewClientIsFound(index: Index, row: PersonRow, ref: Ref, probe: Ref, fold: string -> string)
    requires row.name != ""
    requires Match(index, PersonOf(row, Some(row.name), probe), true, fold).None?
    ensures var hit := Match(Remember(index, PersonOf(row, Some(row.name), ref), fold), PersonOf(row, Some(row.name), probe), true, fold);
            hit.Some? && hit.value.entry.ref == ref
  {
    hide PhoneKey, CleanPhone;
  }

  /** Judging an accepted row once more, from the state it leaves, finds it there already and
      changes nothing. */
  lemma AgainIsDuplicate(s: State, row: OrderRow, again: OrderRow, defaultType: Option<int>, fold: string -> string)
    requires JudgeOrder(s, row, defaultType, fold).1.Accepted?
    requires again == row.(number := again.number)
    ensures var after := JudgeOrder(s, row, defaultType, fold).0;
            JudgeOrder(after, again, defaultType, fold) == (after, Duplicate(Row(row.number)))
  {
    var (after, outcome) := JudgeOrder(s, row, defaultType, fold);
    var hit := Match(s.clients, ClientProbe(row), row.client.name != "", fold);
    if hit.None? {
      NewClientIsFound(s.clients, row.client, New(s.clientCount), New(0), fold);
      assert ClientProbe(row) == PersonOf(row.client, Some(row.client.name), New(0));
    }
    hide Match, WhoIsNamed, Settle, Remember, AcceptTranslator;
    var client := outcome.order.client;
    var hit' := Match(after.clients, ClientProbe(again), again.client.name != "", fold);
    assert hit'.Some? && hit'.value.entry.ref == client;
  }

  /** What a map held it still holds. */
  ghost predicate Keeps<K, V>(before: map<K, V>, after: map<K, V>) {
    forall k | k in before :: k in after && after[k] == before[k]
  }

  ghost predicate IndexKept(before: Index, after: Index) {
    && Keeps(before.byPhone, after.byPhone) && Keeps(before.byEmail, after.byEmail)
    && Keeps(before.byNumber, after.byNumber) && Keeps(before.byName, after.byName)
  }

  ghost predicate BookKept(before: Book, after: Book) {
    Keeps(before.byName, after.byName) && Keeps(before.byPhone, after.byPhone)
  }

  /** No row ever changes who an earlier one was: every name, phone and key keeps its first
      owner, though creating a person assigns and does not ask. */
  lemma NobodyIsOverwritten(s: State, t: Task, defaultType: Option<int>, fold: string -> string)
    ensures var (after, _) := Judge(s, t, defaultType, fold);
            && IndexKept(s.clients, after.clients) && IndexKept(s.translatorIndex, after.translatorIndex)
            && IndexKept(s.notaryIndex, after.notaryIndex)
            && BookKept(s.translators, after.translators) && BookKept(s.notaries, after.notaries)
            && Keeps(s.known, after.known)
  {
    hide JudgeOrder, JudgePerson, JudgeClient;
    match t {
      case ClientTask(row) => ClientKeeps(s, row, fold);
      case TranslatorTask(row) => PersonKeeps(s.translatorIndex, s.translators, row, fold);
      case NotaryTask(row) => PersonKeeps(s.notaryIndex, s.notaries, row, fold);
      case OrderTask(row) => OrderKeeps(s, row, defaultType, fold);
    }
  }

  lemma ClientKeeps(s: State, row: PersonRow, fold: string -> string)
    ensures var after := JudgeClient(s, row, fold).0;
            IndexKept(s.clients, after.clients) && after == s.(clients := after.clients, clientCount := after.clientCount)
  {
    RememberKeeps(s.clients, PersonOf(row, Some(row.name), New(s.clientCount)), fold);
    hide Remember, Match;
  }

  lemma PersonKeeps(index: Index, book: Book, row: PersonRow, fold: string -> string)
    ensures var (index', book', _) := JudgePerson(index, book, row, fold); IndexKept(index, index') && BookKept(book, book')
  {
    RememberKeeps(index, PersonOf(row.(personalNumber := None), Some(row.name), New(book.count)), fold);
    hide Remember, Match, PhoneKey, CleanPhone;
  }

  lemma OrderKeeps(s: State, row: OrderRow, defaultType: Option<int>, fold: string -> string)
    ensures var after := JudgeOrder(s, row, defaultType, fold).0;
            && IndexKept(s.clients, after.clients)
            && after.translatorIndex == s.translatorIndex && after.notaryIndex == s.notaryIndex
            && BookKept(s.translators, after.translators) && BookKept(s.notaries, after.notaries)
            && Keeps(s.known, after.known)
  {
    RememberKeeps(s.clients, NewClient(s, row), fold);
    SettleKeeps(s.translators, row.translator, row.translatorPhone, fold);
    SettleKeeps(s.notaries, row.notary, row.notaryPhone, fold);
    hide PhoneKey, CleanPhone, KeyOf, Match, KeyOfOrder, Draft, FirstProblem, Remember, Settle, WhoIsNamed, PersonOf;
  }

  lemma RememberKeeps(index: Index, p: Person, fold: string -> string)
    ensures IndexKept(index, Remember(index, p, fold))
  {
    hide KeyOf;
  }

  lemma SettleKeeps(book: Book, name: string, phone: string, fold: string -> string)
    ensures var after := Settle(book, WhoIsNamed(book, name, phone, fold), name, phone, fold);
            Keeps(book.byName, after.byName) && Keeps(book.byPhone, after.byPhone)
  {
    hide PhoneKey, CleanPhone;
  }
}
