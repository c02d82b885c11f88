/** The running totals that the statistics code keeps in a JavaScript `Map`:
    one entry per key, in the order the keys were first seen. An entry adds
    up an amount and a second, partial amount, and keeps the information
    attached to its key when the key was first seen. */
module Tally {

  datatype Item<K, D> = Item(key: K, info: D, amount: int, part: int)

  datatype Entry<K, D> = Entry(key: K, info: D, total: int, part: int)

  /** The position of `key`, or -1 (`map.get`). */
  function IndexOf<K(==), D>(t: seq<Entry<K, D>>, key: K): (r: int)
    ensures -1 <= r < |t|
    ensures r >= 0 ==> t[r].key == key
    ensures r < 0 <==> forall i :: 0 <= i < |t| ==> t[i].key != key
  {
    if t == [] then -1
    else
      var k := IndexOf(t[..|t| - 1], key);
      if k >= 0 then k
      else if t[|t| - 1].key == key then |t| - 1
      else -1
  }

  /** One `map.set(key, (map.get(key) || zero) + amount)` step: an existing
      entry grows, a new key is appended with the item's information. */
  function Add<K(==), D>(t: seq<Entry<K, D>>, it: Item<K, D>): (r: seq<Entry<K, D>>)
  {
    var k := IndexOf(t, it.key);
    if k < 0 then t + [Entry(it.key, it.info, it.amount, it.part)]
    else t[k := t[k].(total := t[k].total + it.amount, part := t[k].part + it.part)]
  }

  /** The tally of a list of items, added one after the other. */
  function TallyOf<K(==), D>(items: seq<Item<K, D>>): seq<Entry<K, D>>
  {
    if items == [] then [] else Add(TallyOf(items[..|items| - 1]), items[|items| - 1])
  }

  lemma TallyOfSnoc<K, D>(items: seq<Item<K, D>>, it: Item<K, D>)
    ensures TallyOf(items + [it]) == Add(TallyOf(items), it)
  {
    assert (items + [it])[..|items|] == items;
  }

  function Keys<K, D>(t: seq<Entry<K, D>>): (r: seq<K>)
    ensures |r| == |t| && forall i :: 0 <= i < |t| ==> r[i] == t[i].key
  {
    seq(|t|, i requires 0 <= i < |t| => t[i].key)
  }

  function ItemKeys<K, D>(items: seq<Item<K, D>>): (r: seq<K>)
    ensures |r| == |items| && forall i :: 0 <= i < |items| ==> r[i] == items[i].key
  {
    seq(|items|, i requires 0 <= i < |items| => items[i].key)
  }

  /** Each key once, at the place where it first occurs. */
  function FirstOccurrences<K(==)>(ks: seq<K>): seq<K>
  {
    if ks == [] then []
    else
      var init, k := ks[..|ks| - 1], ks[|ks| - 1];
      if k in init then FirstOccurrences(init) else FirstOccurrences(init) + [k]
  }

  /** The sum of the amounts, and of the partial amounts, of the items with `key`. */
  function SumFor<K(==), D>(items: seq<Item<K, D>>, key: K): int
  {
    if items == [] then 0
    else
      var last := items[|items| - 1];
      SumFor(items[..|items| - 1], key) + (if last.key == key then last.amount else 0)
  }

  function PartFor<K(==), D>(items: seq<Item<K, D>>, key: K): int
  {
    if items == [] then 0
    else
      var last := items[|items| - 1];
      PartFor(items[..|items| - 1], key) + (if last.key == key then last.part else 0)
  }

  /** The information of the first item with `key`. */
  function FirstInfo<K(==), D>(items: seq<Item<K, D>>, key: K): D
    requires key in ItemKeys(items)
  {
    var init, last := items[..|items| - 1], items[|items| - 1];
    if key in ItemKeys(init) then FirstInfo(init, key) else last.info
  }

  predicate DistinctKeys<K(==), D>(t: seq<Entry<K, D>>) {
    forall i, j :: 0 <= i < j < |t| ==> t[i].key != t[j].key
  }

  lemma ItemKeysInit<K, D>(items: seq<Item<K, D>>)
    requires items != []
    ensures ItemKeys(items) == ItemKeys(items[..|items| - 1]) + [items[|items| - 1].key]
  {
  }

  lemma {:induction false} SumForAbsent<K, D>(items: seq<Item<K, D>>, key: K)
    requires key !in ItemKeys(items)
    ensures SumFor(items, key) == 0 && PartFor(items, key) == 0
  {
    if items != [] {
      ItemKeysInit(items);
      SumForAbsent(items[..|items| - 1], key);
    }
  }

  /** The tally has one entry per key, in order of first occurrence. */
  lemma {:induction false} TallyKeys<K, D>(items: seq<Item<K, D>>)
    ensures DistinctKeys(TallyOf(items))
    ensures Keys(TallyOf(items)) == FirstOccurrences(ItemKeys(items))
    ensures forall key :: IndexOf(TallyOf(items), key) >= 0 <==> key in ItemKeys(items)
  {
    if items != [] {
      var init, it := items[..|items| - 1], items[|items| - 1];
      TallyKeys(init);
      ItemKeysInit(items);
      var t := TallyOf(init);
      if IndexOf(t, it.key) < 0 {
        assert Keys(t + [Entry(it.key, it.info, it.amount, it.part)]) == Keys(t) + [it.key];
      } else {
        assert Keys(Add(t, it)) == Keys(t);
      }
    }
  }

  ghost predicate EntryMatches<K, D>(items: seq<Item<K, D>>, e: Entry<K, D>) {
    e.key in ItemKeys(items) && e.total == SumFor(items, e.key) && e.part == PartFor(items, e.key)
    && e.info == FirstInfo(items, e.key)
  }

  ghost predicate AllMatch<K, D>(items: seq<Item<K, D>>, t: seq<Entry<K, D>>) {
    forall i :: 0 <= i < |t| ==> EntryMatches(items, t[i])
  }

  lemma AddNewKey<K, D>(init: seq<Item<K, D>>, it: Item<K, D>)
    requires AllMatch(init, TallyOf(init))
    requires IndexOf(TallyOf(init), it.key) < 0 && it.key !in ItemKeys(init)
    ensures AllMatch(init + [it], TallyOf(init + [it]))
  {
    var items := init + [it];
    assert items[..|items| - 1] == init;
    ItemKeysInit(items);
    SumForAbsent(init, it.key);
  }

  lemma AddOldKey<K, D>(init: seq<Item<K, D>>, it: Item<K, D>)
    requires AllMatch(init, TallyOf(init))
    requires IndexOf(TallyOf(init), it.key) >= 0 && it.key in ItemKeys(init)
    requires DistinctKeys(TallyOf(init))
    ensures AllMatch(init + [it], TallyOf(init + [it]))
  {
    var items := init + [it];
    assert items[..|items| - 1] == init;
    ItemKeysInit(items);
    var t := TallyOf(init);
    var k := IndexOf(t, it.key);
    forall i | 0 <= i < |t| ensures EntryMatches(items, TallyOf(items)[i]) {
      assert EntryMatches(init, t[i]);
      if i == k {
        assert TallyOf(items)[i] == t[i].(total := t[i].total + it.amount, part := t[i].part + it.part);
      } else {
        assert TallyOf(items)[i] == t[i];
      }
    }
  }

  /** Each entry of the tally carries exactly the sums of its key's items
      and the information of the first of them. */
  lemma {:induction false} TallyEntries<K, D>(items: seq<Item<K, D>>)
    ensures AllMatch(items, TallyOf(items))
  {
    if items != [] {
      var init, it := items[..|items| - 1], items[|items| - 1];
      assert items == init + [it];
      TallyEntries(init);
      TallyKeys(init);
      if IndexOf(TallyOf(init), it.key) < 0 {
        AddNewKey(init, it);
      } else {
        AddOldKey(init, it);
      }
    }
  }

  /** An entry's total is the sum of its key's amounts, for every key in the
      tally; a key never seen has no entry. */
  lemma TallyLookup<K, D>(items: seq<Item<K, D>>, key: K)
    ensures IndexOf(TallyOf(items), key) < 0 <==> key !in ItemKeys(items)
    ensures IndexOf(TallyOf(items), key) >= 0 ==>
      TallyOf(items)[IndexOf(TallyOf(items), key)].total == SumFor(items, key)
  {
    TallyKeys(items);
    TallyEntries(items);
  }
}
