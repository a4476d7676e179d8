/** Payments to notaries, allocated to the documents whose fees they meet:
    src/suliko/domain/tarjimnebi_import.py. Amounts are whole tetri. */
module LegacyNotaries {
  import opened Options
  import opened Grouping

  datatype Doc = Doc(id: int, fee: int, notary: Option<int>)

  /** A payment row to a notary, with the documents of its order. */
  datatype NotaryRow = NotaryRow(amount: int, who: Option<int>, day: string, docs: seq<Doc>)

  datatype NotaryKey = OfPayment(payment: int) | OfRow(order: int, row: nat)

  datatype NotaryPayment = NotaryPayment(amount: int, day: string, shares: seq<Item<int, int>>)

  /** The documents a row can pay for. */
  function Owed(docs: seq<Doc>, who: Option<int>): (owed: seq<Doc>)
    ensures forall i | 0 <= i < |owed| :: owed[i] in docs && owed[i].fee > 0 && (who.None? || owed[i].notary == who)
  {
    if docs == [] then []
    else
      var rest, d := Owed(docs[..|docs| - 1], who), docs[|docs| - 1];
      if d.fee > 0 && (who.None? || d.notary == who) then rest + [d] else rest
  }

  function Fees(docs: seq<Doc>, n: nat): int
    requires n <= |docs|
  {
    if n == 0 then 0 else Fees(docs, n - 1) + docs[n - 1].fee
  }

  function Clamp(x: int, low: int, high: int): int {
    if x < low then low else if x > high then high else x
  }

  function NotBelowZero(x: int): int {
    if x < 0 then 0 else x
  }

  /** What a document gets once those before it are paid. */
  function Part(amount: int, owed: seq<Doc>, i: nat): int
    requires i < |owed|
  {
    Clamp(amount - Fees(owed, i), 0, owed[i].fee)
  }

  /** Only a positive amount is allocated. */
  function Share(document: int, amount: int): seq<Item<int, int>> {
    if amount > 0 then [Item(document, amount)] else []
  }

  function Parts(amount: int, owed: seq<Doc>, n: nat): seq<Item<int, int>>
    requires n <= |owed|
  {
    if n == 0 then [] else Parts(amount, owed, n - 1) + Share(owed[n - 1].id, Part(amount, owed, n - 1))
  }

  /** What no fee accounts for goes to the first document. */
  function Rest(amount: int, owed: seq<Doc>): int {
    if amount > Fees(owed, |owed|) then amount - Fees(owed, |owed|) else 0
  }

  function RowShares(amount: int, owed: seq<Doc>): seq<Item<int, int>>
    requires owed != [] && forall i | 0 <= i < |owed| :: owed[i].fee > 0
  {
    Parts(amount, owed, |owed|) + Share(owed[0].id, Rest(amount, owed))
  }

  lemma {:induction false} FeesGrow(owed: seq<Doc>, n: nat)
    requires n <= |owed| && forall i | 0 <= i < |owed| :: owed[i].fee > 0
    ensures Fees(owed, n) >= 0 && (n > 0 ==> Fees(owed, n) > 0)
  {
    if n > 0 { FeesGrow(owed, n - 1); }
  }

  /** `left` runs down over the documents. */
  method AllocateRow(amount: int, owed: seq<Doc>) returns (shares: seq<Item<int, int>>)
    requires owed != [] && forall i | 0 <= i < |owed| :: owed[i].fee > 0
    ensures shares == RowShares(amount, owed)
  {
    shares := [];
    var left := amount;
    for i := 0 to |owed|
      invariant shares == Parts(amount, owed, i)
      invariant left == if amount > Fees(owed, i) then amount - Fees(owed, i) else if amount > 0 then 0 else amount
    {
      FeesGrow(owed, i);
      FeesGrow(owed, i + 1);
      var part := if left < owed[i].fee then left else owed[i].fee;
      if part > 0 {
        shares := shares + [Item(owed[i].id, part)];
        left := left - part;
      }
    }
    FeesGrow(owed, |owed|);
    if left > 0 { shares := shares + [Item(owed[0].id, left)]; }
  }

  lemma OneShareMore(shares: seq<Item<int, int>>, document: int, amount: int, key: int)
    ensures SumAll(shares + Share(document, amount), One) == SumAll(shares, One) + NotBelowZero(amount)
    ensures SumOf(shares + Share(document, amount), key) == SumOf(shares, key) + if key == document then NotBelowZero(amount) else 0
  {
    hide SumAll, SumOf;
    if amount > 0 {
      SumAllSnoc(shares, Item(document, amount), One);
      SumOfSnoc(shares, Item(document, amount));
    } else {
      assert shares + [] == shares;
    }
  }

  lemma {:induction false} PartsAddUp(amount: int, owed: seq<Doc>, n: nat)
    requires n <= |owed| && forall i | 0 <= i < |owed| :: owed[i].fee > 0
    ensures SumAll(Parts(amount, owed, n), One) == Clamp(amount, 0, Fees(owed, n))
  {
    hide SumAll, SumOf, Share, Parts;
    FeesGrow(owed, n);
    if n > 0 {
      PartsAddUp(amount, owed, n - 1);
      FeesGrow(owed, n - 1);
      PartsSnoc(amount, owed, n);
      OneShareMore(Parts(amount, owed, n - 1), owed[n - 1].id, Part(amount, owed, n - 1), 0);
    } else {
      NoParts(amount, owed, 0);
    }
  }

  /** A row with a document that owes is allocated in full, exactly when it is no refund. */
  lemma RowIsAllocated(amount: int, owed: seq<Doc>)
    requires owed != [] && forall i | 0 <= i < |owed| :: owed[i].fee > 0
    ensures SumAll(RowShares(amount, owed), One) == NotBelowZero(amount)
    ensures SumAll(RowShares(amount, owed), One) == amount <==> amount >= 0
  {
    PartsAddUp(amount, owed, |owed|);
    FeesGrow(owed, |owed|);
    hide SumAll, SumOf, Share, Parts;
    OneShareMore(Parts(amount, owed, |owed|), owed[0].id, Rest(amount, owed), 0);
  }

  ghost predicate DistinctDocs(docs: seq<Doc>) {
    forall i, j | 0 <= i < j < |docs| :: docs[i].id != docs[j].id
  }

  lemma Apart(docs: seq<Doc>, i: nat, j: nat)
    requires i < |docs| && j < |docs| && DistinctDocs(docs)
    ensures docs[i].id == docs[j].id <==> i == j
  {
    if i < j { assert docs[i].id != docs[j].id; }
  }

  lemma {:induction false} PartsSnoc(amount: int, owed: seq<Doc>, n: nat)
    requires 0 < n <= |owed|
    ensures Parts(amount, owed, n) == Parts(amount, owed, n - 1) + Share(owed[n - 1].id, Part(amount, owed, n - 1))
  {
  }

  lemma NoParts(amount: int, owed: seq<Doc>, key: int)
    ensures SumOf(Parts(amount, owed, 0), key) == 0 && SumAll(Parts(amount, owed, 0), One) == 0
  {
    assert Parts(amount, owed, 0) == [];
  }

  lemma {:induction false} PartsOf(amount: int, owed: seq<Doc>, n: nat, i: nat)
    requires n <= |owed| && i < |owed| && DistinctDocs(owed)
    ensures SumOf(Parts(amount, owed, n), owed[i].id) == if i < n then NotBelowZero(Part(amount, owed, i)) else 0
  {
    hide *;
    if n > 0 {
      var before := Parts(amount, owed, n - 1);
      PartsSnoc(amount, owed, n);
      PartsOf(amount, owed, n - 1, i);
      OneShareMore(before, owed[n - 1].id, Part(amount, owed, n - 1), owed[i].id);
      Apart(owed, i, n - 1);
    } else {
      NoParts(amount, owed, owed[i].id);
    }
  }

  /** The fees are met in order, each in full before the next; only the first document gets
      more than its fee. */
  lemma FeesAreMetInOrder(amount: int, owed: seq<Doc>, i: nat)
    requires i < |owed| && DistinctDocs(owed) && forall j | 0 <= j < |owed| :: owed[j].fee > 0
    ensures SumOf(RowShares(amount, owed), owed[i].id)
            == Clamp(amount - Fees(owed, i), 0, owed[i].fee) + if i == 0 then Rest(amount, owed) else 0
    ensures i > 0 ==> SumOf(RowShares(amount, owed), owed[i].id) <= owed[i].fee
  {
    hide SumAll, SumOf, Share, DistinctDocs, Parts, Fees;
    PartsOf(amount, owed, |owed|, i);
    OneShareMore(Parts(amount, owed, |owed|), owed[0].id, Rest(amount, owed), owed[i].id);
    Apart(owed, i, 0);
  }

  function SharesOf(row: NotaryRow): seq<Item<int, int>> {
    var owed := Owed(row.docs, row.who);
    if owed == [] then [] else RowShares(row.amount, owed)
  }

  function GroupShares(rows: seq<NotaryRow>): seq<Item<int, int>> {
    if rows == [] then [] else GroupShares(rows[..|rows| - 1]) + SharesOf(rows[|rows| - 1])
  }

  function PaymentFor(rows: seq<NotaryRow>): seq<NotaryPayment>
    requires rows != []
  {
    var shares := GroupShares(rows);
    if shares == [] then [] else [NotaryPayment(SumAll(shares, One), rows[0].day, Merged(shares))]
  }

  /** One payment for each key with anything to allocate. */
  function NotaryPaymentsFor(items: seq<Item<NotaryKey, NotaryRow>>, keys: seq<NotaryKey>): seq<NotaryPayment>
    requires forall k | k in keys :: Values(items, k) != []
  {
    if keys == [] then []
    else
      NotaryPaymentsFor(items, keys[..|keys| - 1]) + PaymentFor(Values(items, keys[|keys| - 1]))
  }

  method FindOwed(docs: seq<Doc>, who: Option<int>) returns (owed: seq<Doc>)
    ensures owed == Owed(docs, who)
  {
    owed := [];
    for i := 0 to |docs|
      invariant owed == Owed(docs[..i], who)
    {
      assert docs[..i + 1][..i] == docs[..i];
      if docs[i].fee > 0 && (who.None? || docs[i].notary == who) { owed := owed + [docs[i]]; }
    }
    assert docs[..|docs|] == docs;
  }

  method AllocateGroup(rows: seq<NotaryRow>) returns (shares: seq<Item<int, int>>)
    ensures shares == GroupShares(rows)
  {
    shares := [];
    for i := 0 to |rows|
      invariant shares == GroupShares(rows[..i])
    {
      assert rows[..i + 1][..i] == rows[..i];
      var owed := FindOwed(rows[i].docs, rows[i].who);
      if owed != [] {
        var more := AllocateRow(rows[i].amount, owed);
        shares := shares + more;
      }
    }
    assert rows[..|rows|] == rows;
  }

  method AddShares(shares: seq<Item<int, int>>) returns (total: int)
    ensures total == SumAll(shares, One)
  {
    total := 0;
    for i := 0 to |shares|
      invariant total == SumAll(shares[..i], One)
    {
      assert shares[..i + 1][..i] == shares[..i];
      total := total + shares[i].value;
    }
    assert shares[..|shares|] == shares;
  }

  method PayNotary(rows: seq<NotaryRow>) returns (payment: seq<NotaryPayment>)
    requires rows != []
    ensures payment == PaymentFor(rows)
  {
    var shares := AllocateGroup(rows);
    if shares == [] { return []; }
    var total := AddShares(shares);
    var merged := Merge(shares);
    payment := [NotaryPayment(total, rows[0].day, merged)];
  }

  lemma OneKeyMore(items: seq<Item<NotaryKey, NotaryRow>>, keys: seq<NotaryKey>, i: nat)
    requires i < |keys| && forall k | k in keys :: Values(items, k) != []
    ensures NotaryPaymentsFor(items, keys[..i + 1]) == NotaryPaymentsFor(items, keys[..i]) + PaymentFor(Values(items, keys[i]))
  {
    hide PaymentFor, Values;
    assert keys[..i + 1][..i] == keys[..i];
  }

  method MoneyOutNotaries(groups: Groups<NotaryKey, NotaryRow>) returns (payments: seq<NotaryPayment>)
    requires groups.Valid()
    ensures forall k | k in Keys(groups.items) :: Values(groups.items, k) != []
    ensures payments == NotaryPaymentsFor(groups.items, Keys(groups.items))
  {
    payments := [];
    KeysAreThose(groups.items);
    assert groups.keys[..0] == [];
    hide Keys, Values, PaymentFor;
    for i := 0 to |groups.keys|
      invariant payments == NotaryPaymentsFor(groups.items, groups.keys[..i])
    {
      OneKeyMore(groups.items, groups.keys, i);
      var more := PayNotary(groups.rows[groups.keys[i]]);
      payments := payments + more;
    }
    assert groups.keys[..|groups.keys|] == groups.keys;
  }

  /** What a row is good for: nothing where no document of it owes, or where it is a refund. */
  function Allocable(row: NotaryRow): int {
    if Owed(row.docs, row.who) == [] then 0 else NotBelowZero(row.amount)
  }

  function NotaryAmount(p: NotaryPayment): int { p.amount }

  lemma {:induction false} SharesConcat(a: seq<Item<int, int>>, b: seq<Item<int, int>>)
    ensures SumAll(a + b, One) == SumAll(a, One) + SumAll(b, One)
  {
    if b == [] {
      assert a + b == a;
    } else {
      SharesConcat(a, b[..|b| - 1]);
      assert (a + b)[..|a + b| - 1] == a + b[..|b| - 1];
    }
  }

  lemma {:induction false} GroupAddsUp(rows: seq<NotaryRow>)
    ensures SumAll(GroupShares(rows), One) == Sum(rows, Allocable)
  {
    if rows != [] {
      var last := rows[|rows| - 1];
      GroupAddsUp(rows[..|rows| - 1]);
      if Owed(last.docs, last.who) != [] { RowIsAllocated(last.amount, Owed(last.docs, last.who)); }
      SharesConcat(GroupShares(rows[..|rows| - 1]), SharesOf(last));
    }
  }

  ghost predicate IsItsShares(p: NotaryPayment) {
    && SumAll(p.shares, One) == p.amount
    && forall i, j | 0 <= i < j < |p.shares| :: p.shares[i].key != p.shares[j].key
  }

  lemma GroupPays(rows: seq<NotaryRow>)
    requires rows != []
    ensures var p := PaymentFor(rows);
            Sum(p, NotaryAmount) == Sum(rows, Allocable) && forall i | 0 <= i < |p| :: IsItsShares(p[i])
  {
    var shares := GroupShares(rows);
    GroupAddsUp(rows);
    MergedAddsUp(shares);
    if shares != [] {
      var p := NotaryPayment(SumAll(shares, One), rows[0].day, Merged(shares));
      hide GroupShares, Allocable;
      SumSnoc([], p, NotaryAmount);
      assert [] + [p] == [p];
    }
  }

  lemma {:induction false} NotarySumConcat(a: seq<NotaryPayment>, b: seq<NotaryPayment>)
    ensures Sum(a + b, NotaryAmount) == Sum(a, NotaryAmount) + Sum(b, NotaryAmount)
  {
    if b == [] {
      assert a + b == a;
    } else {
      NotarySumConcat(a, b[..|b| - 1]);
      assert (a + b)[..|a + b| - 1] == a + b[..|b| - 1];
    }
  }

  lemma NoPayments(items: seq<Item<NotaryKey, NotaryRow>>)
    ensures NotaryPaymentsFor(items, []) == [] && Sum([], NotaryAmount) == 0 && SumGroups(items, [], Allocable) == 0
  {
  }

  lemma {:induction false} NotaryKeysAddUp(items: seq<Item<NotaryKey, NotaryRow>>, keys: seq<NotaryKey>)
    requires forall k | k in keys :: Values(items, k) != []
    ensures Sum(NotaryPaymentsFor(items, keys), NotaryAmount) == SumGroups(items, keys, Allocable)
    ensures forall i | 0 <= i < |NotaryPaymentsFor(items, keys)| :: IsItsShares(NotaryPaymentsFor(items, keys)[i])
  {
    hide Sum, Values, PaymentFor, IsItsShares;
    if keys == [] {
      NoPayments(items);
    } else {
      var rows, before := Values(items, keys[|keys| - 1]), NotaryPaymentsFor(items, keys[..|keys| - 1]);
      NotaryKeysAddUp(items, keys[..|keys| - 1]);
      GroupPays(rows);
      NotarySumConcat(before, PaymentFor(rows));
    }
  }

  /** All payments to notaries together are the rows that some document accounts for, and each
      is the sum of what it allocates, one allocation for a document. */
  lemma NotaryMoneyIsConserved(items: seq<Item<NotaryKey, NotaryRow>>)
    ensures forall k | k in Keys(items) :: Values(items, k) != []
    ensures Sum(NotaryPaymentsFor(items, Keys(items)), NotaryAmount) == SumAll(items, Allocable)
    ensures forall i | 0 <= i < |NotaryPaymentsFor(items, Keys(items))| :: IsItsShares(NotaryPaymentsFor(items, Keys(items))[i])
  {
    KeysAreThose(items);
    NotaryKeysAddUp(items, Keys(items));
    GroupsAddUp(items, Allocable);
  }

  // ---- From the dump ----

  /** A payment row to a notary in the dump. */
  datatype NotaryPay = NotaryPay(payment: Option<int>, amount: int, who: Option<int>, day: string)

  /** An order with its documents and what was paid to notaries for it. */
  datatype NotaryOrder = NotaryOrder(order: int, docs: seq<Doc>, rows: seq<NotaryPay>)

  function NotaryItem(o: NotaryOrder, i: nat): Item<NotaryKey, NotaryRow>
    requires i < |o.rows|
  {
    var p := o.rows[i];
    Item(if p.payment.Some? then OfPayment(p.payment.value) else OfRow(o.order, i), NotaryRow(p.amount, p.who, p.day, o.docs))
  }

  /** The first `n` rows of an order under their keys, without the empty ones. */
  function RowItems(o: NotaryOrder, n: nat): seq<Item<NotaryKey, NotaryRow>>
    requires n <= |o.rows|
  {
    if n == 0 then [] else RowItems(o, n - 1) + if o.rows[n - 1].amount == 0 then [] else [NotaryItem(o, n - 1)]
  }

  function NotaryItems(orders: seq<NotaryOrder>): seq<Item<NotaryKey, NotaryRow>> {
    if orders == [] then []
    else NotaryItems(orders[..|orders| - 1]) + RowItems(orders[|orders| - 1], |orders[|orders| - 1].rows|)
  }

  /** What a row is good for, of those up to the `n`th of an order. */
  function OrderAllocable(o: NotaryOrder, n: nat): int
    requires n <= |o.rows|
  {
    if n == 0 then 0 else OrderAllocable(o, n - 1) + Allocable(NotaryRow(o.rows[n - 1].amount, o.rows[n - 1].who, o.rows[n - 1].day, o.docs))
  }

  function AllAllocable(orders: seq<NotaryOrder>): int {
    if orders == [] then 0
    else AllAllocable(orders[..|orders| - 1]) + OrderAllocable(orders[|orders| - 1], |orders[|orders| - 1].rows|)
  }

  function NotaryPayments(orders: seq<NotaryOrder>): seq<NotaryPayment> {
    var items := NotaryItems(orders);
    KeysAreThose(items);
    NotaryPaymentsFor(items, Keys(items))
  }

  /** `_money_out_notaries` */
  method MoneyOut(orders: seq<NotaryOrder>) returns (payments: seq<NotaryPayment>)
    ensures payments == NotaryPayments(orders)
  {
    var groups := new Groups<NotaryKey, NotaryRow>();
    for i := 0 to |orders|
      invariant groups.Valid() && fresh(groups) && groups.items == NotaryItems(orders[..i])
    {
      var o := orders[i];
      assert orders[..i + 1][..i] == orders[..i];
      for j := 0 to |o.rows|
        invariant groups.Valid() && fresh(groups) && groups.items == NotaryItems(orders[..i]) + RowItems(o, j)
      {
        if o.rows[j].amount != 0 {
          groups.Add(NotaryItem(o, j).key, NotaryItem(o, j).value);
        }
      }
    }
    assert orders[..|orders|] == orders;
    payments := MoneyOutNotaries(groups);
  }

  lemma {:induction false} NotaryItemsConcat(a: seq<Item<NotaryKey, NotaryRow>>, b: seq<Item<NotaryKey, NotaryRow>>)
    ensures SumAll(a + b, Allocable) == SumAll(a, Allocable) + SumAll(b, Allocable)
  {
    if b == [] {
      assert a + b == a;
    } else {
      NotaryItemsConcat(a, b[..|b| - 1]);
      assert (a + b)[..|a + b| - 1] == a + b[..|b| - 1];
    }
  }

  lemma NothingAllocable(row: NotaryRow)
    requires row.amount == 0
    ensures Allocable(row) == 0
  {
  }

  lemma {:induction false} RowItemsAddUp(o: NotaryOrder, n: nat)
    requires n <= |o.rows|
    ensures SumAll(RowItems(o, n), Allocable) == OrderAllocable(o, n)
  {
    if n > 0 {
      RowItemsAddUp(o, n - 1);
      var row := NotaryRow(o.rows[n - 1].amount, o.rows[n - 1].who, o.rows[n - 1].day, o.docs);
      if row.amount == 0 {
        NothingAllocable(row);
        assert RowItems(o, n - 1) + [] == RowItems(o, n - 1);
      } else {
        SumAllSnoc(RowItems(o, n - 1), NotaryItem(o, n - 1), Allocable);
      }
    }
  }

  lemma {:induction false} NotaryItemsAddUp(orders: seq<NotaryOrder>)
    ensures SumAll(NotaryItems(orders), Allocable) == AllAllocable(orders)
  {
    if orders != [] {
      var rest, last := orders[..|orders| - 1], orders[|orders| - 1];
      NotaryItemsAddUp(rest);
      RowItemsAddUp(last, |last.rows|);
      NotaryItemsConcat(NotaryItems(rest), RowItems(last, |last.rows|));
    }
  }

  /** From the dump to the payments: together they are the rows that some document accounts for,
      however the rows share payment ids, and each is the sum of its allocations. */
  lemma DumpMoneyIsConserved(orders: seq<NotaryOrder>)
    ensures Sum(NotaryPayments(orders), NotaryAmount) == AllAllocable(orders)
    ensures forall i | 0 <= i < |NotaryPayments(orders)| :: IsItsShares(NotaryPayments(orders)[i])
  {
    NotaryMoneyIsConserved(NotaryItems(orders));
    NotaryItemsAddUp(orders);
  }
}
