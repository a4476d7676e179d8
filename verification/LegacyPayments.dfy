/** The payments of the old system, gathered and allocated: src/suliko/domain/tarjimnebi_import.py.
    Amounts are whole tetri; a row whose amount is missing in the dump has amount 0. */
module LegacyPayments {
  import opened Options
  import opened Grouping

  /** A payment row of an order in the dump. `payment` is the id several rows may share. */
  datatype Pay = Pay(payment: Option<int>, person: Option<int>, day: string, amount: int, method_: string)

  /** An order taking part in the import, with the Office client it belongs to. */
  datatype Paid = Paid(order: int, client: int, payments: seq<Pay>)

  datatype Key = Shared(payment: int, client: int) | Single(order: int, row: nat)

  datatype Entry = Entry(order: int, client: int, pay: Pay)

  /** A payment stored in Office, with what it allocates to each order. */
  datatype ClientPayment = ClientPayment(client: int, amount: int, day: string, method_: string, shares: seq<Item<int, int>>)

  // ---- Money in ----

  function KeyOf(p: Paid, i: nat): Key
    requires i < |p.payments|
  {
    if p.payments[i].payment.Some? then Shared(p.payments[i].payment.value, p.client) else Single(p.order, i)
  }

  /** The first `n` rows of an order under their keys, without the empty ones. */
  function OrderItems(p: Paid, n: nat): seq<Item<Key, Entry>>
    requires n <= |p.payments|
  {
    if n == 0 then []
    else
      var pay := p.payments[n - 1];
      OrderItems(p, n - 1)
      + if pay.amount == 0 then [] else [Item(KeyOf(p, n - 1), Entry(p.order, p.client, pay))]
  }

  function Items(orders: seq<Paid>): seq<Item<Key, Entry>> {
    if orders == [] then []
    else
      var last := orders[|orders| - 1];
      Items(orders[..|orders| - 1]) + OrderItems(last, |last.payments|)
  }

  function Amount(e: Entry): int { e.pay.amount }

  function AmountFor(order: int): Entry -> int {
    (e: Entry) => if e.order == order then e.pay.amount else 0
  }

  function Shares(entries: seq<Entry>): seq<Item<int, int>> {
    seq(|entries|, i requires 0 <= i < |entries| => Item(entries[i].order, entries[i].pay.amount))
  }

  function PaymentOf(entries: seq<Entry>): ClientPayment
    requires entries != []
  {
    ClientPayment(entries[0].client, Sum(entries, Amount), entries[0].pay.day, entries[0].pay.method_, Merged(Shares(entries)))
  }

  /** One payment for each key whose rows come to more than nothing. */
  function PaymentsFor(items: seq<Item<Key, Entry>>, keys: seq<Key>): seq<ClientPayment>
    requires forall k | k in keys :: Values(items, k) != []
  {
    if keys == [] then []
    else
      var entries := Values(items, keys[|keys| - 1]);
      PaymentsFor(items, keys[..|keys| - 1])
      + if Sum(entries, Amount) > 0 then [PaymentOf(entries)] else []
  }

  function Payments(orders: seq<Paid>): seq<ClientPayment> {
    var items := Items(orders);
    KeysAreThose(items);
    PaymentsFor(items, Keys(items))
  }

  method Total(entries: seq<Entry>) returns (total: int)
    ensures total == Sum(entries, Amount)
  {
    total := 0;
    for i := 0 to |entries|
      invariant total == Sum(entries[..i], Amount)
    {
      total := total + entries[i].pay.amount;
      assert entries[..i + 1][..i] == entries[..i];
    }
    assert entries[..|entries|] == entries;
  }

  method MoneyIn(orders: seq<Paid>) returns (payments: seq<ClientPayment>)
    ensures payments == Payments(orders)
  {
    var groups := new Groups<Key, Entry>();
    for i := 0 to |orders|
      invariant groups.Valid() && fresh(groups) && groups.items == Items(orders[..i])
    {
      var p := orders[i];
      assert orders[..i + 1][..i] == orders[..i];
      for j := 0 to |p.payments|
        invariant groups.Valid() && fresh(groups) && groups.items == Items(orders[..i]) + OrderItems(p, j)
      {
        if p.payments[j].amount != 0 {
          groups.Add(KeyOf(p, j), Entry(p.order, p.client, p.payments[j]));
        }
      }
    }
    assert orders[..|orders|] == orders;
    payments := GroupPayments(groups);
  }

  method GroupPayments(groups: Groups<Key, Entry>) returns (payments: seq<ClientPayment>)
    requires groups.Valid()
    ensures forall k | k in Keys(groups.items) :: Values(groups.items, k) != []
    ensures payments == PaymentsFor(groups.items, Keys(groups.items))
  {
    payments := [];
    KeysAreThose(groups.items);
    for i := 0 to |groups.keys|
      invariant payments == PaymentsFor(groups.items, groups.keys[..i])
    {
      assert groups.keys[..i + 1][..i] == groups.keys[..i];
      var entries := groups.rows[groups.keys[i]];
      var total := Total(entries);
      if total > 0 {
        var shares := Merge(Shares(entries));
        payments := payments + [ClientPayment(entries[0].client, total, entries[0].pay.day, entries[0].pay.method_, shares)];
      }
    }
    assert groups.keys[..|groups.keys|] == groups.keys;
  }

  // ---- What the payments add up to ----

  predicate Positive(orders: seq<Paid>) {
    forall i, j | 0 <= i < |orders| && 0 <= j < |orders[i].payments| :: orders[i].payments[j].amount >= 0
  }

  function PaymentAmount(p: ClientPayment): int { p.amount }

  /** What a payment allocates to an order. */
  function ShareOf(order: int): ClientPayment -> int {
    (p: ClientPayment) => Sum(Values(p.shares, order), One)
  }

  /** What an order is paid by these payments. */
  function PaidTo(payments: seq<ClientPayment>, order: int): int {
    Sum(payments, ShareOf(order))
  }

  function RowSum(pays: seq<Pay>): int {
    if pays == [] then 0 else RowSum(pays[..|pays| - 1]) + pays[|pays| - 1].amount
  }

  /** What the dump's rows say an order was paid. */
  function RowsOf(orders: seq<Paid>, order: int): int {
    if orders == [] then 0
    else
      var last := orders[|orders| - 1];
      RowsOf(orders[..|orders| - 1], order) + if last.order == order then RowSum(last.payments) else 0
  }

  function AllRows(orders: seq<Paid>): int {
    if orders == [] then 0 else AllRows(orders[..|orders| - 1]) + RowSum(orders[|orders| - 1].payments)
  }

  lemma {:induction false} SharesAddUp(entries: seq<Entry>)
    ensures SumAll(Shares(entries), One) == Sum(entries, Amount)
  {
    if entries != [] {
      SharesAddUp(entries[..|entries| - 1]);
      assert Shares(entries)[..|entries| - 1] == Shares(entries[..|entries| - 1]);
    }
  }

  lemma {:induction false} SharesFor(entries: seq<Entry>, order: int)
    ensures Sum(Values(Shares(entries), order), One) == Sum(entries, AmountFor(order))
  {
    if entries != [] {
      var rest, last := entries[..|entries| - 1], entries[|entries| - 1];
      SharesFor(rest, order);
      assert Shares(entries)[..|entries| - 1] == Shares(rest);
      SumSnoc(Values(Shares(rest), order), last.pay.amount, One);
    }
  }

  /** A payment is the sum of its allocations, one for an order, and nothing but them. */
  lemma PaymentIsItsShares(entries: seq<Entry>)
    requires entries != []
    ensures var p := PaymentOf(entries);
            && SumAll(p.shares, One) == p.amount == Sum(entries, Amount)
            && (forall i, j | 0 <= i < j < |p.shares| :: p.shares[i].key != p.shares[j].key)
            && forall order :: ShareOf(order)(p) == Sum(entries, AmountFor(order))
  {
    MergedAddsUp(Shares(entries));
    SharesAddUp(entries);
    forall order ensures ShareOf(order)(PaymentOf(entries)) == Sum(entries, AmountFor(order)) {
      MergedHolds(Shares(entries), order);
      SharesFor(entries, order);
    }
  }

  ghost predicate NoneNegative(items: seq<Item<Key, Entry>>) {
    forall i | 0 <= i < |items| :: items[i].value.pay.amount >= 0
  }

  /** Rows that come to nothing are nothing to each order. */
  lemma {:induction false} NothingForAnyone(entries: seq<Entry>, order: int)
    requires forall i | 0 <= i < |entries| :: entries[i].pay.amount >= 0
    ensures 0 <= Sum(entries, AmountFor(order)) <= Sum(entries, Amount)
  {
    if entries != [] { NothingForAnyone(entries[..|entries| - 1], order); }
  }

  lemma {:induction false} ValuesNotNegative(items: seq<Item<Key, Entry>>, key: Key)
    requires NoneNegative(items)
    ensures forall i | 0 <= i < |Values(items, key)| :: Values(items, key)[i].pay.amount >= 0
  {
    if items != [] { ValuesNotNegative(items[..|items| - 1], key); }
  }

  /** What a weight comes to over the groups that make no payment: those that come to nothing
      or less. */
  function Dropped(items: seq<Item<Key, Entry>>, keys: seq<Key>, weight: Entry -> int): int {
    if keys == [] then 0
    else
      var entries := Values(items, keys[|keys| - 1]);
      Dropped(items, keys[..|keys| - 1], weight) + if Sum(entries, Amount) > 0 then 0 else Sum(entries, weight)
  }

  lemma OnePaymentMore(before: seq<ClientPayment>, entries: seq<Entry>, order: int)
    requires entries != []
    ensures var after := before + if Sum(entries, Amount) > 0 then [PaymentOf(entries)] else [];
            && PaidTo(after, order) == PaidTo(before, order) + (if Sum(entries, Amount) > 0 then Sum(entries, AmountFor(order)) else 0)
            && Sum(after, PaymentAmount) == Sum(before, PaymentAmount) + (if Sum(entries, Amount) > 0 then Sum(entries, Amount) else 0)
  {
    PaymentIsItsShares(entries);
    SumSnoc(before, PaymentOf(entries), ShareOf(order));
    SumSnoc(before, PaymentOf(entries), PaymentAmount);
    hide Sum, ShareOf, AmountFor;
    if Sum(entries, Amount) <= 0 { assert before + [] == before; }
  }

  lemma NoKeys(items: seq<Item<Key, Entry>>, order: int)
    ensures PaymentsFor(items, []) == [] && PaidTo([], order) == 0 == Sum([], PaymentAmount)
    ensures SumGroups(items, [], AmountFor(order)) == 0 == SumGroups(items, [], Amount)
  {
  }

  /** What the payments are, with what was dropped, is what the groups are. */
  lemma {:induction false} KeysAddUp(items: seq<Item<Key, Entry>>, keys: seq<Key>, order: int)
    requires forall k | k in keys :: Values(items, k) != []
    ensures PaidTo(PaymentsFor(items, keys), order) + Dropped(items, keys, AmountFor(order)) == SumGroups(items, keys, AmountFor(order))
    ensures Sum(PaymentsFor(items, keys), PaymentAmount) + Dropped(items, keys, Amount) == SumGroups(items, keys, Amount)
  {
    hide Sum, Values, PaymentOf, AmountFor, PaidTo;
    if keys == [] {
      NoKeys(items, order);
    } else {
      var rest := keys[..|keys| - 1];
      KeysAddUp(items, rest, order);
      OnePaymentMore(PaymentsFor(items, rest), Values(items, keys[|keys| - 1]), order);
    }
  }

  ghost predicate NoneIsNegative(items: seq<Item<Key, Entry>>, keys: seq<Key>) {
    forall k | k in keys :: Sum(Values(items, k), Amount) >= 0
  }

  lemma {:induction false} DroppedIsNegative(items: seq<Item<Key, Entry>>, keys: seq<Key>)
    ensures Dropped(items, keys, Amount) <= 0
    ensures Dropped(items, keys, Amount) == 0 <==> NoneIsNegative(items, keys)
  {
    hide Sum, Values;
    if keys != [] {
      var rest, last := keys[..|keys| - 1], keys[|keys| - 1];
      assert keys == rest + [last];
      DroppedIsNegative(items, rest);
    }
  }

  /** A group pays an order if it makes a payment, or has nothing for it. */
  ghost predicate PaysItsPart(items: seq<Item<Key, Entry>>, keys: seq<Key>, order: int) {
    forall k | k in keys :: Sum(Values(items, k), Amount) > 0 || Sum(Values(items, k), AmountFor(order)) == 0
  }

  lemma {:induction false} NothingDropped(items: seq<Item<Key, Entry>>, keys: seq<Key>, order: int)
    requires PaysItsPart(items, keys, order)
    ensures Dropped(items, keys, AmountFor(order)) == 0
  {
    hide Sum, Values, AmountFor;
    if keys != [] {
      NothingDropped(items, keys[..|keys| - 1], order);
    }
  }

  lemma {:induction false} SumAllConcat(a: seq<Item<Key, Entry>>, b: seq<Item<Key, Entry>>, weight: Entry -> int)
    ensures SumAll(a + b, weight) == SumAll(a, weight) + SumAll(b, weight)
  {
    if b == [] {
      assert a + b == a;
    } else {
      SumAllConcat(a, b[..|b| - 1], weight);
      assert (a + b)[..|a + b| - 1] == a + b[..|b| - 1];
    }
  }

  lemma OneRowMore(p: Paid, n: nat, weight: Entry -> int)
    requires 0 < n <= |p.payments|
    ensures SumAll(OrderItems(p, n), weight)
            == SumAll(OrderItems(p, n - 1), weight)
               + if p.payments[n - 1].amount == 0 then 0 else weight(Entry(p.order, p.client, p.payments[n - 1]))
  {
    hide SumAll;
    var before, item := OrderItems(p, n - 1), Item(KeyOf(p, n - 1), Entry(p.order, p.client, p.payments[n - 1]));
    SumAllSnoc(before, item, weight);
    assert before + [] == before;
    assert OrderItems(p, n) == before + if p.payments[n - 1].amount == 0 then [] else [item];
  }

  lemma RowSumUpTo(pays: seq<Pay>, n: nat)
    requires 0 < n <= |pays|
    ensures RowSum(pays[..n]) == RowSum(pays[..n - 1]) + pays[n - 1].amount
  {
    assert pays[..n][..n - 1] == pays[..n - 1];
  }

  lemma {:induction false} OrderAddsUp(p: Paid, n: nat, order: int)
    requires n <= |p.payments|
    ensures SumAll(OrderItems(p, n), AmountFor(order)) == if p.order == order then RowSum(p.payments[..n]) else 0
    ensures SumAll(OrderItems(p, n), Amount) == RowSum(p.payments[..n])
  {
    hide *;
    if n > 0 {
      OrderAddsUp(p, n - 1, order);
      OneRowMore(p, n, AmountFor(order));
      OneRowMore(p, n, Amount);
      AmountsAre(Entry(p.order, p.client, p.payments[n - 1]), order);
      RowSumUpTo(p.payments, n);
    } else {
      NoRows(p, order);
    }
  }

  lemma AmountsAre(e: Entry, order: int)
    ensures Amount(e) == e.pay.amount && AmountFor(order)(e) == if e.order == order then e.pay.amount else 0
  {
  }

  lemma NoRows(p: Paid, order: int)
    ensures SumAll(OrderItems(p, 0), AmountFor(order)) == 0 == SumAll(OrderItems(p, 0), Amount) && RowSum(p.payments[..0]) == 0
  {
    assert OrderItems(p, 0) == [] && p.payments[..0] == [];
  }

  lemma {:induction false} OrderNotNegative(p: Paid, n: nat)
    requires n <= |p.payments| && forall i | 0 <= i < n :: p.payments[i].amount >= 0
    ensures NoneNegative(OrderItems(p, n))
  {
    if n > 0 { OrderNotNegative(p, n - 1); }
  }

  lemma {:induction false} ItemsAddUp(orders: seq<Paid>, order: int)
    ensures SumAll(Items(orders), AmountFor(order)) == RowsOf(orders, order)
    ensures SumAll(Items(orders), Amount) == AllRows(orders)
  {
    if orders != [] {
      var rest, last := orders[..|orders| - 1], orders[|orders| - 1];
      ItemsAddUp(rest, order);
      OrderAddsUp(last, |last.payments|, order);
      assert last.payments[..|last.payments|] == last.payments;
      SumAllConcat(Items(rest), OrderItems(last, |last.payments|), AmountFor(order));
      SumAllConcat(Items(rest), OrderItems(last, |last.payments|), Amount);
    }
  }

  lemma {:induction false} ItemsNotNegative(orders: seq<Paid>)
    requires Positive(orders)
    ensures NoneNegative(Items(orders))
  {
    if orders != [] {
      var last := orders[|orders| - 1];
      ItemsNotNegative(orders[..|orders| - 1]);
      OrderNotNegative(last, |last.payments|);
    }
  }

  /** What the groups without a payment hold for an order. */
  function DroppedFor(orders: seq<Paid>, order: int): int {
    Dropped(Items(orders), Keys(Items(orders)), AmountFor(order))
  }

  /** For any rows, refunds included: the payments together are never less than the rows, and
      they are the rows exactly when no group of rows comes to less than nothing. An order is
      paid its own rows but for those in groups that make no payment. */
  lemma MoneyIsConservedExactly(orders: seq<Paid>, order: int)
    ensures Sum(Payments(orders), PaymentAmount) >= AllRows(orders)
    ensures Sum(Payments(orders), PaymentAmount) == AllRows(orders) <==> NoneIsNegative(Items(orders), Keys(Items(orders)))
    ensures PaidTo(Payments(orders), order) == RowsOf(orders, order) - DroppedFor(orders, order)
    ensures PaidTo(Payments(orders), order) == RowsOf(orders, order) <==> DroppedFor(orders, order) == 0
  {
    hide Sum, Dropped, PaidTo, NoneIsNegative;
    var items := Items(orders);
    ItemsAddUp(orders, order);
    KeysAreThose(items);
    KeysAddUp(items, Keys(items), order);
    DroppedIsNegative(items, Keys(items));
    GroupsAddUp(items, AmountFor(order));
    GroupsAddUp(items, Amount);
  }

  /** An order is paid its rows where each group with anything for it makes a payment. */
  lemma OrderIsPaidItsRows(orders: seq<Paid>, order: int)
    requires PaysItsPart(Items(orders), Keys(Items(orders)), order)
    ensures PaidTo(Payments(orders), order) == RowsOf(orders, order)
  {
    NothingDropped(Items(orders), Keys(Items(orders)), order);
    MoneyIsConservedExactly(orders, order);
  }

  /** Without refunds every order is paid what its rows in the dump say, however the rows were
      spread over payments; and all payments together are all the rows. */
  lemma MoneyIsConserved(orders: seq<Paid>, order: int)
    requires Positive(orders)
    ensures PaidTo(Payments(orders), order) == RowsOf(orders, order)
    ensures Sum(Payments(orders), PaymentAmount) == AllRows(orders)
  {
    var items := Items(orders);
    ItemsNotNegative(orders);
    forall k | k in Keys(items)
      ensures Sum(Values(items, k), Amount) >= 0
      ensures Sum(Values(items, k), Amount) > 0 || Sum(Values(items, k), AmountFor(order)) == 0
    {
      ValuesNotNegative(items, k);
      NothingForAnyone(Values(items, k), order);
    }
    OrderIsPaidItsRows(orders, order);
    MoneyIsConservedExactly(orders, order);
  }

  /** A refund that is a group of its own is dropped, and the order stays paid by its other rows. */
  lemma RefundIsDropped(order: int, client: int, a: int, b: int)
    requires a > 0 > b
    ensures var orders := [Paid(order, client, [Pay(None, None, "", a, ""), Pay(None, None, "", b, "")])];
            PaidTo(Payments(orders), order) == a > RowsOf(orders, order)
  {
    var rows := [Pay(None, None, "", a, ""), Pay(None, None, "", b, "")];
    var p := Paid(order, client, rows);
    var first, second := Item(Single(order, 0), Entry(order, client, rows[0])), Item(Single(order, 1), Entry(order, client, rows[1]));
    ItemsOfOne(p, first, second);
    TwoGroups(first, second);
    var e1 := first.value;
    assert Payments([p]) == [PaymentOf([e1])];
    hide Payments, PaidTo, Items;
    PaymentIsItsShares([e1]);
    SumSnoc([], e1, AmountFor(order));
    assert [] + [e1] == [e1];
    PaidByOne(PaymentOf([e1]), order);
    assert rows[..1] == [rows[0]] && rows[..1][..0] == [] && [p][..0] == [];
    assert RowSum(rows[..1]) == a && RowSum(rows) == a + b;
  }

  lemma PaidByOne(p: ClientPayment, order: int)
    ensures PaidTo([p], order) == ShareOf(order)(p)
  {
    SumSnoc([], p, ShareOf(order));
    assert [] + [p] == [p];
  }

  lemma ItemsOfOne(p: Paid, first: Item<Key, Entry>, second: Item<Key, Entry>)
    requires |p.payments| == 2 && p.payments[0].amount != 0 && p.payments[1].amount != 0
    requires first == Item(KeyOf(p, 0), Entry(p.order, p.client, p.payments[0]))
    requires second == Item(KeyOf(p, 1), Entry(p.order, p.client, p.payments[1]))
    ensures Items([p]) == [first, second]
  {
    assert OrderItems(p, 1) == OrderItems(p, 0) + [first] == [first];
    assert OrderItems(p, 2) == OrderItems(p, 1) + [second];
    assert [p][..0] == [];
    assert Items([p]) == Items([p][..0]) + OrderItems(p, 2);
  }

  lemma TwoGroups(first: Item<Key, Entry>, second: Item<Key, Entry>)
    requires first.key != second.key && first.value.pay.amount > 0 > second.value.pay.amount
    ensures var items := [first, second];
            && Keys(items) == [first.key, second.key] && Values(items, first.key) == [first.value]
            && Values(items, second.key) == [second.value]
            && PaymentsFor(items, Keys(items)) == [PaymentOf([first.value])]
  {
    var items := [first, second];
    OneItem(first, first.key);
    OneItem(first, second.key);
    assert items == [first] + [second];
    GroupSnoc([first], second, first.key);
    GroupSnoc([first], second, second.key);
    SumSnoc([], first.value, Amount);
    SumSnoc([], second.value, Amount);
    assert [] + [first.value] == [first.value] && [] + [second.value] == [second.value];
    assert Sum([first.value], Amount) > 0 > Sum([second.value], Amount);
    hide Keys, Values, Sum, PaymentOf;
    assert [first.key, second.key][..1] == [first.key] && [first.key][..0] == [];
    assert PaymentsFor(items, [first.key]) == PaymentsFor(items, [first.key][..0]) + [PaymentOf([first.value])];
  }

  lemma OneItem(item: Item<Key, Entry>, key: Key)
    ensures Keys([item]) == [item.key]
    ensures Values([item], key) == if item.key == key then [item.value] else []
  {
    GroupSnoc([], item, key);
    assert [] + [item] == [item];
  }

  // ---- Whose payment it is ----

  ghost predicate ClientsOf(orders: seq<Paid>, clients: map<int, int>) {
    forall i | 0 <= i < |orders| :: orders[i].order in clients && clients[orders[i].order] == orders[i].client
  }

  predicate Own(item: Item<Key, Entry>, clients: map<int, int>) {
    var e := item.value;
    && e.order in clients && clients[e.order] == e.client
    && match item.key
       case Shared(_, client) => client == e.client
       case Single(order, _) => order == e.order
  }

  lemma {:induction false} OrderItemsOwn(p: Paid, n: nat, clients: map<int, int>)
    requires n <= |p.payments| && p.order in clients && clients[p.order] == p.client
    ensures forall i | 0 <= i < |OrderItems(p, n)| :: Own(OrderItems(p, n)[i], clients)
  {
    if n > 0 { OrderItemsOwn(p, n - 1, clients); }
  }

  lemma {:induction false} ItemsOwn(orders: seq<Paid>, clients: map<int, int>)
    requires ClientsOf(orders, clients)
    ensures forall i | 0 <= i < |Items(orders)| :: Own(Items(orders)[i], clients)
  {
    if orders != [] {
      var last := orders[|orders| - 1];
      ItemsOwn(orders[..|orders| - 1], clients);
      OrderItemsOwn(last, |last.payments|, clients);
    }
  }

  lemma {:induction false} ValuesOwn(items: seq<Item<Key, Entry>>, key: Key, clients: map<int, int>)
    requires forall i | 0 <= i < |items| :: Own(items[i], clients)
    ensures forall i | 0 <= i < |Values(items, key)| :: Own(Item(key, Values(items, key)[i]), clients)
  {
    if items != [] { ValuesOwn(items[..|items| - 1], key, clients); }
  }

  lemma {:induction false} KeysAmong(items: seq<Item<int, int>>)
    ensures forall k | k in Keys(items) :: exists i :: 0 <= i < |items| && items[i].key == k
  {
    if items != [] {
      var rest := items[..|items| - 1];
      KeysAmong(rest);
      forall k | k in Keys(items) ensures exists i :: 0 <= i < |items| && items[i].key == k {
        if k in Keys(rest) {
          var i :| 0 <= i < |rest| && rest[i].key == k;
          assert items[i].key == k;
        } else {
          assert items[|items| - 1].key == k;
        }
      }
    }
  }

  ghost predicate OwnPayment(p: ClientPayment, clients: map<int, int>) {
    forall i | 0 <= i < |p.shares| :: p.shares[i].key in clients && clients[p.shares[i].key] == p.client
  }

  lemma GroupIsOwn(key: Key, entries: seq<Entry>, clients: map<int, int>)
    requires entries != [] && forall i | 0 <= i < |entries| :: Own(Item(key, entries[i]), clients)
    ensures OwnPayment(PaymentOf(entries), clients)
  {
    KeysAmong(Shares(entries));
    forall i | 0 <= i < |entries| ensures entries[i].client == entries[0].client {
      assert Own(Item(key, entries[i]), clients) && Own(Item(key, entries[0]), clients);
    }
    forall i | 0 <= i < |PaymentOf(entries).shares|
      ensures PaymentOf(entries).shares[i].key in clients && clients[PaymentOf(entries).shares[i].key] == entries[0].client
    {
      assert PaymentOf(entries).shares[i].key in Keys(Shares(entries));
      var j :| 0 <= j < |Shares(entries)| && Shares(entries)[j].key == PaymentOf(entries).shares[i].key;
      assert Own(Item(key, entries[j]), clients);
    }
  }

  lemma {:induction false} PaymentsOwn(items: seq<Item<Key, Entry>>, keys: seq<Key>, clients: map<int, int>)
    requires forall k | k in keys :: Values(items, k) != []
    requires forall i | 0 <= i < |items| :: Own(items[i], clients)
    ensures forall i | 0 <= i < |PaymentsFor(items, keys)| :: OwnPayment(PaymentsFor(items, keys)[i], clients)
  {
    if keys != [] {
      PaymentsOwn(items, keys[..|keys| - 1], clients);
      var last := keys[|keys| - 1];
      ValuesOwn(items, last, clients);
      GroupIsOwn(last, Values(items, last), clients);
    }
  }

  /** A payment pays only orders of the client it is from, even where one payment id of the old
      system covers orders of several. */
  lemma PaymentsStayWithClients(orders: seq<Paid>, clients: map<int, int>)
    requires ClientsOf(orders, clients)
    ensures forall i | 0 <= i < |Payments(orders)| :: OwnPayment(Payments(orders)[i], clients)
  {
    ItemsOwn(orders, clients);
    KeysAreThose(Items(orders));
    PaymentsOwn(Items(orders), Keys(Items(orders)), clients);
  }
}
