/** Lists gathered under keys in a dictionary that remembers the order keys first came in. */
module Grouping {
  datatype Item<+K, +V> = Item(key: K, value: V)

  /** The keys, in the order they first came. */
  function Keys<K(==), V>(items: seq<Item<K, V>>): seq<K> {
    if items == [] then []
    else
      var keys, last := Keys(items[..|items| - 1]), items[|items| - 1].key;
      if last in keys then keys else keys + [last]
  }

  /** What was put under a key. */
  function Values<K(==), V>(items: seq<Item<K, V>>, key: K): seq<V> {
    if items == [] then []
    else
      var values, last := Values(items[..|items| - 1], key), items[|items| - 1];
      if last.key == key then values + [last.value] else values
  }

  function Sum<V>(values: seq<V>, weight: V -> int): int {
    if values == [] then 0 else Sum(values[..|values| - 1], weight) + weight(values[|values| - 1])
  }

  /** All the items, whatever their key. */
  function SumAll<K, V>(items: seq<Item<K, V>>, weight: V -> int): int {
    if items == [] then 0 else SumAll(items[..|items| - 1], weight) + weight(items[|items| - 1].value)
  }

  function SumGroups<K(==), V>(items: seq<Item<K, V>>, keys: seq<K>, weight: V -> int): int {
    if keys == [] then 0
    else SumGroups(items, keys[..|keys| - 1], weight) + Sum(Values(items, keys[|keys| - 1]), weight)
  }

  ghost predicate NoRepeats<K>(keys: seq<K>) {
    forall i, j | 0 <= i < j < |keys| :: keys[i] != keys[j]
  }

  lemma {:induction false} SumSnoc<V>(values: seq<V>, v: V, weight: V -> int)
    ensures Sum(values + [v], weight) == Sum(values, weight) + weight(v)
  {
    assert (values + [v])[..|values|] == values;
  }

  lemma GroupSnoc<K, V>(items: seq<Item<K, V>>, item: Item<K, V>, key: K)
    ensures Keys(items + [item]) == if item.key in Keys(items) then Keys(items) else Keys(items) + [item.key]
    ensures Values(items + [item], key) == if item.key == key then Values(items, key) + [item.value] else Values(items, key)
  {
    assert (items + [item])[..|items|] == items;
  }

  lemma {:induction false} SumAllSnoc<K, V>(items: seq<Item<K, V>>, item: Item<K, V>, weight: V -> int)
    ensures SumAll(items + [item], weight) == SumAll(items, weight) + weight(item.value)
  {
    assert (items + [item])[..|items|] == items;
  }

  /** Every key is there once, with something under it; the rest have nothing. */
  lemma {:induction false} KeysAreThose<K(!new), V>(items: seq<Item<K, V>>)
    ensures NoRepeats(Keys(items))
    ensures forall k :: k in Keys(items) <==> Values(items, k) != []
  {
    if items != [] { KeysAreThose(items[..|items| - 1]); }
  }

  /** An item adds its weight to the group of its key, wherever that stands. */
  lemma {:induction false} SumGroupsSnoc<K, V>(items: seq<Item<K, V>>, item: Item<K, V>, keys: seq<K>, weight: V -> int)
    requires NoRepeats(keys)
    ensures SumGroups(items + [item], keys, weight)
            == SumGroups(items, keys, weight) + if item.key in keys then weight(item.value) else 0
  {
    if keys != [] {
      var rest, last := keys[..|keys| - 1], keys[|keys| - 1];
      assert keys == rest + [last];
      SumGroupsSnoc(items, item, rest, weight);
      GroupSnoc(items, item, last);
      SumSnoc(Values(items, last), item.value, weight);
    }
  }

  /** Nothing is lost or counted twice by gathering. */
  lemma {:induction false} GroupsAddUp<K(!new), V>(items: seq<Item<K, V>>, weight: V -> int)
    ensures SumGroups(items, Keys(items), weight) == SumAll(items, weight)
  {
    if items != [] {
      var rest, last := items[..|items| - 1], items[|items| - 1];
      assert items == rest + [last];
      var keys := Keys(rest);
      GroupsAddUp(rest, weight);
      KeysAreThose(rest);
      SumGroupsSnoc(rest, last, keys, weight);
      if last.key !in keys {
        assert (keys + [last.key])[..|keys|] == keys;
        GroupSnoc(rest, last, last.key);
        assert Values(rest, last.key) == [];
        SumSnoc([], last.value, weight);
        assert [] + [last.value] == [last.value];
        assert Keys(items) == keys + [last.key];
      }
    }
  }

  /** The dictionary of lists: `groups.setdefault(key, []).append(value)`. */
  class Groups<K(==, !new), V> {
    var keys: seq<K>
    var rows: map<K, seq<V>>
    ghost var items: seq<Item<K, V>>

    ghost predicate Valid()
      reads this
    {
      && keys == Keys(items)
      && (forall k :: k in rows <==> k in keys)
      && forall k | k in rows :: rows[k] == Values(items, k)
    }

    constructor ()
      ensures Valid() && items == []
    {
      keys, rows, items := [], map[], [];
    }

    method Add(key: K, value: V)
      requires Valid()
      modifies this
      ensures Valid() && items == old(items) + [Item(key, value)]
    {
      hide Keys, Values;
      forall k ensures k in Keys(items + [Item(key, value)]) <==> k == key || k in keys
        ensures Values(items + [Item(key, value)], k) == if k == key then Values(items, k) + [value] else Values(items, k)
      {
        GroupSnoc(items, Item(key, value), k);
      }
      KeysAreThose(items);
      if key in rows {
        rows := rows[key := rows[key] + [value]];
      } else {
        assert Values(items, key) == [];
        keys := keys + [key];
        rows := rows[key := [value]];
      }
      GroupSnoc(items, Item(key, value), key);
      items := items + [Item(key, value)];
    }
  }

  // ---- Sums under keys ----

  function One(amount: int): int { amount }

  /** Each key with the sum of what was put under it. */
  function Merged<K(==)>(items: seq<Item<K, int>>): (merged: seq<Item<K, int>>) {
    var keys := Keys(items);
    seq(|keys|, i requires 0 <= i < |keys| => Item(keys[i], SumOf(items, keys[i])))
  }

  function SumOf<K(==)>(items: seq<Item<K, int>>, key: K): int {
    Sum(Values(items, key), One)
  }

  lemma SumOfSnoc<K(!new)>(items: seq<Item<K, int>>, item: Item<K, int>)
    ensures forall k :: SumOf(items + [item], k) == SumOf(items, k) + if k == item.key then item.value else 0
    ensures Keys(items + [item]) == if item.key in Keys(items) then Keys(items) else Keys(items) + [item.key]
    ensures item.key !in Keys(items) ==> SumOf(items, item.key) == 0
  {
    forall k ensures SumOf(items + [item], k) == SumOf(items, k) + if k == item.key then item.value else 0 {
      GroupSnoc(items, item, k);
      SumSnoc(Values(items, k), item.value, One);
    }
    GroupSnoc(items, item, item.key);
    KeysAreThose(items);
  }

  ghost predicate AddedUp<K(!new)>(items: seq<Item<K, int>>, keys: seq<K>, sums: map<K, int>) {
    && keys == Keys(items)
    && (forall k :: k in sums <==> k in keys)
    && forall k | k in sums :: sums[k] == SumOf(items, k)
  }

  lemma AddOne<K(!new)>(items: seq<Item<K, int>>, item: Item<K, int>, keys: seq<K>, sums: map<K, int>)
    requires AddedUp(items, keys, sums)
    ensures AddedUp(items + [item], if item.key in sums then keys else keys + [item.key],
                    sums[item.key := (if item.key in sums then sums[item.key] else 0) + item.value])
  {
    hide Keys, SumOf;
    SumOfSnoc(items, item);
  }

  /** `merged[key] = merged.get(key, 0) + amount` */
  method AddUp<K(==, !new)>(items: seq<Item<K, int>>) returns (keys: seq<K>, sums: map<K, int>)
    ensures AddedUp(items, keys, sums)
  {
    keys, sums := [], map[];
    for i := 0 to |items|
      invariant AddedUp(items[..i], keys, sums)
    {
      hide AddedUp;
      var item := items[i];
      assert items[..i + 1] == items[..i] + [item];
      AddOne(items[..i], item, keys, sums);
      if item.key !in sums { keys := keys + [item.key]; }
      sums := sums[item.key := (if item.key in sums then sums[item.key] else 0) + item.value];
    }
    assert items[..|items|] == items;
  }

  /** Each key with its sum, in the order the keys first came. */
  method Merge<K(==, !new)>(items: seq<Item<K, int>>) returns (merged: seq<Item<K, int>>)
    ensures merged == Merged(items)
  {
    var keys, sums := AddUp(items);
    hide Keys, SumOf;
    merged := [];
    for i := 0 to |keys|
      invariant |merged| == i
      invariant forall j | 0 <= j < i :: merged[j] == Item(keys[j], SumOf(items, keys[j]))
    {
      merged := merged + [Item(keys[i], sums[keys[i]])];
    }
  }

  /** The sums are one for a key, and together what was merged. */
  lemma {:induction false} MergedAddsUp<K(!new)>(items: seq<Item<K, int>>)
    ensures SumAll(Merged(items), One) == SumAll(items, One)
    ensures forall i, j | 0 <= i < j < |Merged(items)| :: Merged(items)[i].key != Merged(items)[j].key
  {
    KeysAreThose(items);
    GroupsAddUp(items, One);
    MergedUpTo(items, |Keys(items)|);
    assert Merged(items)[..|Keys(items)|] == Merged(items);
    assert Keys(items)[..|Keys(items)|] == Keys(items);
  }

  lemma {:induction false} MergedUpTo<K>(items: seq<Item<K, int>>, n: nat)
    requires n <= |Keys(items)|
    ensures SumAll(Merged(items)[..n], One) == SumGroups(items, Keys(items)[..n], One)
  {
    if n > 0 {
      MergedUpTo(items, n - 1);
      assert Merged(items)[..n][..n - 1] == Merged(items)[..n - 1];
      assert Keys(items)[..n][..n - 1] == Keys(items)[..n - 1];
    }
  }

  /** What the sums hold for a key is what was put under it. */
  lemma {:induction false} MergedHolds<K(!new)>(items: seq<Item<K, int>>, key: K)
    ensures Sum(Values(Merged(items), key), One) == Sum(Values(items, key), One)
  {
    KeysAreThose(items);
    HeldUpTo(items, key, |Keys(items)|);
    assert Merged(items)[..|Keys(items)|] == Merged(items);
    assert Keys(items)[..|Keys(items)|] == Keys(items);
  }

  lemma NothingHeld<K>(key: K)
    ensures Sum(Values<K, int>([], key), One) == 0
  {
  }

  lemma MergedAt<K>(items: seq<Item<K, int>>, n: nat)
    requires n < |Keys(items)|
    ensures |Merged(items)| == |Keys(items)| && Merged(items)[n] == Item(Keys(items)[n], Sum(Values(items, Keys(items)[n]), One))
  {
    hide Keys, Sum, Values;
  }

  lemma {:induction false} HeldUpTo<K>(items: seq<Item<K, int>>, key: K, n: nat)
    requires n <= |Keys(items)| && NoRepeats(Keys(items))
    ensures n <= |Merged(items)|
    ensures Sum(Values(Merged(items)[..n], key), One) == if key in Keys(items)[..n] then Sum(Values(items, key), One) else 0
  {
    hide Sum, Values, Keys, One, SumOf;
    if n > 0 {
      HeldUpTo(items, key, n - 1);
      MergedAt(items, n - 1);
      var before, k := Merged(items)[..n - 1], Keys(items)[n - 1];
      assert Merged(items)[..n] == before + [Merged(items)[n - 1]];
      assert Keys(items)[..n] == Keys(items)[..n - 1] + [k];
      GroupSnoc(before, Merged(items)[n - 1], key);
      SumSnoc(Values(before, key), Merged(items)[n - 1].value, One);
      OneIs(Merged(items)[n - 1].value);
    } else {
      NothingHeld(key);
      assert Merged(items)[..0] == [];
    }
  }

  lemma OneIs(amount: int)
    ensures One(amount) == amount
  {
  }
}
