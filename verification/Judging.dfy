/** Judging the rows of an import, as functions on what the judges share: `judge_client`,
    `judge_translator`, `judge_notary` (src/suliko/domain/imports.py), `_judge_order` with
    `_find_person`, `_create_person` and `remember_person`
    (src/suliko/domain/imports_orders.py).

    A row comes with its cells read: dates, amounts and languages are given as what their
    parsers return. */
module Judging {
  import opened Options
  import opened Matching

  // ---- Rows ----

  /** A row of clients, translators or notaries. */
  datatype PersonRow = PersonRow(name: string, phone: string, email: Option<string>, personalNumber: Option<string>)

  /** A row of orders. `pages` is 1 when the cell is empty, None when it is not a number. */
  datatype OrderRow = OrderRow(
    number: nat, date: Option<int>, source: Option<string>, target: Option<string>, documentType: Option<int>,
    pages: Option<int>, price: Option<real>, paid: Option<real>, identifier: string,
    client: PersonRow, translator: string, translatorPhone: string, notary: string, notaryPhone: string)

  // ---- What the judges share ----

  /** Someone an order row can name: the ref and the name. */
  datatype Known = Known(ref: Ref, name: string)

  /** The translators, or the notaries: by folded name, by phone; what the orders created of
      them, with the language pairs they are shown in; how many this import created in all;
      and whether an order may create one. */
  datatype Book = Book(
    byName: map<string, Known>, byPhone: map<string, Known>, created: map<Ref, seq<(string, string)>>, count: nat, create: bool)

  datatype OrderKey = OrderKey(
    client: Ref, date: int, source: string, target: string, pages: int, price: real, identifier: string)

  datatype State = State(
    clients: Index, clientCount: nat,
    translatorIndex: Index, translators: Book,
    notaryIndex: Index, notaries: Book,
    known: map<OrderKey, OrderLabel>)

  /** How an order already there is called: the bureau's own, or a row of this import. */
  datatype OrderLabel = Existing(title: string) | Row(number: nat)

  datatype Order = Order(
    client: Ref, newClient: bool, date: int, source: string, target: string, documentType: int, pages: int, price: real,
    paid: Option<real>, identifier: string,
    translator: Option<Ref>, newTranslator: bool, notary: Option<Ref>, newNotary: bool)

  datatype Problem = NoDate | Languages | NoDocumentType | NoPrice | NoName | LongName

  datatype PersonOutcome = Created(ref: Ref) | Same(ref: Ref) | BadPerson(problem: Problem)

  datatype OrderOutcome = Accepted(order: Order) | Duplicate(matched: OrderLabel) | Rejected(problem: Problem)

  const MAX_NAME := 255
  const MAX_PAGES := 10_000

  // ---- People ----

  function PersonOf(row: PersonRow, name: Option<string>, ref: Ref): Person {
    Person(row.name, CleanPhone(row.phone), row.email, row.personalNumber, name, ref)
  }

  /** `judge_client`: matched without its name, but found by it later. */
  function JudgeClient(s: State, row: PersonRow, fold: string -> string): (State, PersonOutcome) {
    if row.name == "" then (s, BadPerson(NoName))
    else if |row.name| > MAX_NAME then (s, BadPerson(LongName))
    else
      var ref := New(s.clientCount);
      var hit := Match(s.clients, PersonOf(row, None, ref), false, fold);
      if hit.Some? then (s, Same(hit.value.entry.ref))
      else (s.(clients := Remember(s.clients, PersonOf(row, Some(row.name), ref), fold), clientCount := s.clientCount + 1),
            Created(ref))
  }

  /** `remember_person`: the first spelling wins. */
  function RememberPerson(book: Book, ref: Ref, name: string, phone: Option<string>, fold: string -> string): Book {
    if name == "" then book
    else
      book.(byName := SetDefault(book.byName, Some(fold(name)), Known(ref, name)),
            byPhone := SetDefault(book.byPhone, PhoneKey(phone), Known(ref, name)))
  }

  /** `judge_translator` and `judge_notary`, and what `_judge_people` remembers of them: a
      row that matched a record makes its own spelling of the name lead to that record. */
  function JudgePerson(index: Index, book: Book, row: PersonRow, fold: string -> string): (Index, Book, PersonOutcome) {
    if row.name == "" then (index, book, BadPerson(NoName))
    else if |row.name| > MAX_NAME then (index, book, BadPerson(LongName))
    else
      var person := PersonOf(row.(personalNumber := None), Some(row.name), New(book.count));
      var hit := Match(index, person, true, fold);
      if hit.Some? then
        (index, RememberPerson(book, hit.value.entry.ref, row.name, None, fold), Same(hit.value.entry.ref))
      else
        (Remember(index, person, fold),
         RememberPerson(book.(count := book.count + 1), New(book.count), row.name, CleanPhone(row.phone), fold),
         Created(New(book.count)))
  }

  /** `_find_person`: by name first, then by phone. */
  function FindPerson(book: Book, name: string, phone: Option<string>, fold: string -> string): Option<Known> {
    var key := PhoneKey(phone);
    if name != "" && fold(name) in book.byName then Some(book.byName[fold(name)])
    else if key.Some? && key.value in book.byPhone then Some(book.byPhone[key.value])
    else None
  }

  /** `_create_person` */
  function CreatePerson(book: Book, name: string, phone: Option<string>, fold: string -> string): Book {
    var ref := New(book.count);
    var key := PhoneKey(phone);
    book.(count := book.count + 1, created := book.created[ref := []],
          byName := book.byName[fold(name) := Known(ref, name)],
          byPhone := if key.Some? then book.byPhone[key.value := Known(ref, name)] else book.byPhone)
  }

  /** A translator made from the sheet works the pairs the sheet shows them in. */
  function AddPair(book: Book, ref: Ref, pair: (string, string)): Book {
    if ref in book.created && pair !in book.created[ref] then
      book.(created := book.created[ref := book.created[ref] + [pair]])
    else book
  }

  /** Whom a row names: nobody, someone known, or someone to create. */
  datatype Named = Nobody | Found(known: Known) | ToCreate

  function WhoIsNamed(book: Book, name: string, phone: string, fold: string -> string): Named {
    var found := FindPerson(book, name, CleanPhone(phone), fold);
    if found.Some? then Found(found.value) else if name != "" && book.create then ToCreate else Nobody
  }

  /** The ref an accepted row points at. */
  function RefOf(book: Book, named: Named): Option<Ref> {
    match named
    case Nobody => None
    case Found(known) => Some(known.ref)
    case ToCreate => Some(New(book.count))
  }

  /** The book once the row is accepted. */
  function Settle(book: Book, named: Named, name: string, phone: string, fold: string -> string): Book {
    if named.ToCreate? then CreatePerson(book, name, CleanPhone(phone), fold) else book
  }

  // ---- Orders ----

  function PagesOf(row: OrderRow): int {
    if row.pages.Some? && 1 <= row.pages.value <= MAX_PAGES then row.pages.value else 1
  }

  /** No more than the price, and nothing when it is not positive. */
  function PaidOf(row: OrderRow, price: real): Option<real> {
    if row.paid.None? then None
    else
      var paid := if row.paid.value > price then price else row.paid.value;
      if paid <= 0.0 then None else Some(paid)
  }

  function ClientProbe(row: OrderRow): Person {
    PersonOf(row.client, if row.client.name != "" then Some(row.client.name) else None, New(0))
  }

  function KeyOfOrder(o: Order, fold: string -> string): OrderKey {
    OrderKey(o.client, o.date, o.source, o.target, o.pages, o.price, fold(o.identifier))
  }

  /** The checks a row must pass before its client is looked at. */
  function FirstProblem(row: OrderRow, defaultType: Option<int>): Option<Problem> {
    if row.date.None? then Some(NoDate)
    else if row.source.None? || row.source.value == "" || row.target.None? || row.target.value == ""
            || row.source == row.target then Some(Languages)
    else if row.documentType.None? && defaultType.None? then Some(NoDocumentType)
    else if row.price.None? then Some(NoPrice)
    else None
  }

  /** `_judge_order` */
  function JudgeOrder(s: State, row: OrderRow, defaultType: Option<int>, fold: string -> string): (State, OrderOutcome) {
    var problem := FirstProblem(row, defaultType);
    if problem.Some? then (s, Rejected(problem.value))
    else
      var translator := WhoIsNamed(s.translators, row.translator, row.translatorPhone, fold);
      var notary := WhoIsNamed(s.notaries, row.notary, row.notaryPhone, fold);
      var hit := Match(s.clients, ClientProbe(row), row.client.name != "", fold);
      if hit.None? && row.client.name == "" then (s, Rejected(NoName))
      else if hit.None? && |row.client.name| > MAX_NAME then (s, Rejected(LongName))
      else
        var client := if hit.Some? then hit.value.entry.ref else New(s.clientCount);
        var order := Draft(s, row, defaultType, client, hit.None?, translator, notary);
        var key := KeyOfOrder(order, fold);
        if key in s.known then (s, Duplicate(s.known[key]))
        else (Accept(s, row, order, translator, notary, fold), Accepted(order))
  }

  /** What an accepted row will be saved as. */
  function Draft(s: State, row: OrderRow, defaultType: Option<int>, client: Ref, isNew: bool, translator: Named, notary: Named): Order
    requires FirstProblem(row, defaultType).None?
  {
    Order(client, isNew, row.date.value, row.source.value, row.target.value,
          if row.documentType.Some? then row.documentType.value else defaultType.value,
          PagesOf(row), row.price.value, PaidOf(row, row.price.value), row.identifier,
          RefOf(s.translators, translator), translator.ToCreate?, RefOf(s.notaries, notary), notary.ToCreate?)
  }

  function AcceptTranslator(book: Book, row: OrderRow, order: Order, named: Named, fold: string -> string): Book {
    var settled := Settle(book, named, row.translator, row.translatorPhone, fold);
    if order.translator.Some? then AddPair(settled, order.translator.value, (order.source, order.target)) else settled
  }

  /** The client an order row brings. */
  function NewClient(s: State, row: OrderRow): (p: Person)
    ensures p.ref == New(s.clientCount)
  {
    PersonOf(row.client, Some(row.client.name), New(s.clientCount))
  }

  /** The state an accepted row leaves. */
  function Accept(s: State, row: OrderRow, order: Order, translator: Named, notary: Named, fold: string -> string): State {
    State(
      if order.newClient then Remember(s.clients, NewClient(s, row), fold) else s.clients,
      if order.newClient then s.clientCount + 1 else s.clientCount,
      s.translatorIndex, AcceptTranslator(s.translators, row, order, translator, fold),
      s.notaryIndex, Settle(s.notaries, notary, row.notary, row.notaryPhone, fold),
      s.known[KeyOfOrder(order, fold) := Row(row.number)])
  }
}
