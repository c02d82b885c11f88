/** Lists of records keyed by a string id, as the category and rule stores
    keep them: `findIndex`/`find` by id, replace-or-push upserts, `map`
    replacements and `filter` deletions. */
module Lists {
  import opened Text
  import opened StableSort

  predicate DistinctIds<T>(s: seq<T>, idOf: T -> string) {
    forall i, j :: 0 <= i < j < |s| ==> idOf(s[i]) != idOf(s[j])
  }

  predicate HasId<T>(s: seq<T>, idOf: T -> string, id: string) {
    exists i :: 0 <= i < |s| && idOf(s[i]) == id
  }

  /** `findIndex(x => x.id === id)`: the first position holding `id`, or -1. */
  function FindIndex<T>(s: seq<T>, idOf: T -> string, id: string): (r: int)
    ensures -1 <= r < |s|
    ensures r == -1 <==> !HasId(s, idOf, id)
    ensures r >= 0 ==> idOf(s[r]) == id
    ensures r >= 0 ==> forall j :: 0 <= j < r ==> idOf(s[j]) != id
  {
    if s == [] then -1
    else if idOf(s[0]) == id then 0
    else
      var k := FindIndex(s[1..], idOf, id);
      assert forall j :: 1 <= j < |s| ==> s[j] == s[1..][j - 1];
      if k < 0 then -1 else k + 1
  }

  /** `find(x => x.id === id)`. */
  function Find<T>(s: seq<T>, idOf: T -> string, id: string): (r: Option<T>)
    ensures r.None? <==> !HasId(s, idOf, id)
    ensures r.Some? ==> r.value in s && idOf(r.value) == id
    ensures r.Some? ==> r.value == s[FindIndex(s, idOf, id)]
  {
    var k := FindIndex(s, idOf, id);
    if k < 0 then None else Some(s[k])
  }

  /** Under distinct ids the index of an id is the one position holding it. */
  lemma FindIndexUnique<T>(s: seq<T>, idOf: T -> string, id: string, k: int)
    requires DistinctIds(s, idOf) && 0 <= k < |s| && idOf(s[k]) == id
    ensures FindIndex(s, idOf, id) == k
    ensures Find(s, idOf, id) == Some(s[k])
  {
  }

  /** The replace-or-push step: the first element with `x`'s id becomes
      `combine(old, x)`; with none, `x` is pushed. */
  function UpsertWith<T>(s: seq<T>, x: T, idOf: T -> string, combine: (T, T) -> T): (r: seq<T>)
    ensures HasId(s, idOf, idOf(x)) ==> |r| == |s|
    ensures !HasId(s, idOf, idOf(x)) ==> r == s + [x]
    ensures forall i :: 0 <= i < |s| && i != FindIndex(s, idOf, idOf(x)) ==> r[i] == s[i]
    ensures HasId(s, idOf, idOf(x)) ==>
      var k := FindIndex(s, idOf, idOf(x)); r[k] == combine(s[k], x)
  {
    var k := FindIndex(s, idOf, idOf(x));
    if k >= 0 then s[k := combine(s[k], x)] else s + [x]
  }

  /** A custom entry replaces a built-in one outright. */
  function TakeNew<T>(old_: T, new_: T): T { new_ }

  /** Applying `UpsertWith` for each custom entry in turn, starting from `base`. */
  function Overlay<T>(base: seq<T>, custom: seq<T>, idOf: T -> string, combine: (T, T) -> T): seq<T>
  {
    if custom == [] then base
    else UpsertWith(Overlay(base, custom[..|custom| - 1], idOf, combine), custom[|custom| - 1], idOf, combine)
  }

  /** The `forEach` that upserts each custom entry into a copy of `base`,
      in order. */
  method UpsertEach<T>(base: seq<T>, custom: seq<T>, idOf: T -> string, combine: (T, T) -> T) returns (r: seq<T>)
    ensures r == Overlay(base, custom, idOf, combine)
  {
    r := base;
    for i := 0 to |custom|
      invariant r == Overlay(base, custom[..i], idOf, combine)
    {
      assert custom[..i + 1][..i] == custom[..i];
      r := UpsertWith(r, custom[i], idOf, combine);
    }
    assert custom[..|custom|] == custom;
  }

  /** `map(x => x.id === y.id ? y : x)` when some element has `y`'s id, else
      `[...s, y]`. */
  function SaveById<T>(s: seq<T>, y: T, idOf: T -> string): (r: seq<T>)
    ensures HasId(s, idOf, idOf(y)) ==> |r| == |s|
    ensures !HasId(s, idOf, idOf(y)) ==> |r| == |s| + 1 && r[|s|] == y
    ensures forall i :: 0 <= i < |s| ==> r[i] == (if idOf(s[i]) == idOf(y) then y else s[i])
  {
    if FindIndex(s, idOf, idOf(y)) >= 0 then ReplaceAll(s, y, idOf) else s + [y]
  }

  function ReplaceAll<T>(s: seq<T>, y: T, idOf: T -> string): (r: seq<T>)
    ensures |r| == |s|
    ensures forall i :: 0 <= i < |s| ==> r[i] == (if idOf(s[i]) == idOf(y) then y else s[i])
  {
    if s == [] then []
    else [if idOf(s[0]) == idOf(y) then y else s[0]] + ReplaceAll(s[1..], y, idOf)
  }

  /** `filter(x => x.id !== id)`. */
  function RemoveId<T>(s: seq<T>, idOf: T -> string, id: string): (r: seq<T>)
    ensures |r| <= |s|
    ensures !HasId(r, idOf, id)
    ensures forall i :: 0 <= i < |r| ==> r[i] in s && idOf(r[i]) != id
    ensures forall i :: 0 <= i < |s| && idOf(s[i]) != id ==> s[i] in r
  {
    if s == [] then []
    else if idOf(s[0]) == id then RemoveId(s[1..], idOf, id)
    else [s[0]] + RemoveId(s[1..], idOf, id)
  }

  /** The filter works element by element and keeps the order: it
      distributes over concatenation, and keeps a single element exactly
      when its id differs. */
  lemma {:induction false} RemoveIdSplits<T>(a: seq<T>, b: seq<T>, idOf: T -> string, id: string)
    ensures RemoveId(a + b, idOf, id) == RemoveId(a, idOf, id) + RemoveId(b, idOf, id)
    ensures forall x :: RemoveId([x], idOf, id) == (if idOf(x) == id then [] else [x])
  {
    if a != [] {
      assert (a + b)[1..] == a[1..] + b;
      RemoveIdSplits(a[1..], b, idOf, id);
    } else {
      assert a + b == b;
    }
    forall x ensures RemoveId([x], idOf, id) == (if idOf(x) == id then [] else [x]) {
      assert [x][1..] == [];
    }
  }

  /** The ids of a list, in order. */
  function Ids<T>(s: seq<T>, idOf: T -> string): (r: seq<string>)
    ensures |r| == |s| && forall i :: 0 <= i < |s| ==> r[i] == idOf(s[i])
  {
    seq(|s|, i requires 0 <= i < |s| => idOf(s[i]))
  }

  /** The concatenation of a list of lists. */
  function Flatten<T>(groups: seq<seq<T>>): seq<T> {
    if groups == [] then [] else Flatten(groups[..|groups| - 1]) + groups[|groups| - 1]
  }

  // ---------------------------------------------------------------------
  // Lemmas

  lemma {:induction false} FlattenMember<T>(groups: seq<seq<T>>, n: int)
    requires 0 <= n < |Flatten(groups)|
    ensures exists k, i :: 0 <= k < |groups| && 0 <= i < |groups[k]| && Flatten(groups)[n] == groups[k][i]
  {
    var init := groups[..|groups| - 1];
    var last := groups[|groups| - 1];
    if n < |Flatten(init)| {
      FlattenMember(init, n);
      var k, i :| 0 <= k < |init| && 0 <= i < |init[k]| && Flatten(init)[n] == init[k][i];
      assert groups[k] == init[k];
    } else {
      assert Flatten(groups)[n] == last[n - |Flatten(init)|];
    }
  }

  lemma FlattenPrefix<T>(groups: seq<seq<T>>, k: int)
    requires 0 <= k < |groups|
    ensures Flatten(groups[..k + 1]) == Flatten(groups[..k]) + groups[k]
  {
    assert groups[..k + 1][..k] == groups[..k];
  }

  lemma FlattenAll<T>(groups: seq<seq<T>>, P: T -> bool)
    requires forall k, i :: 0 <= k < |groups| && 0 <= i < |groups[k]| ==> P(groups[k][i])
    ensures forall n :: 0 <= n < |Flatten(groups)| ==> P(Flatten(groups)[n])
  {
    forall n | 0 <= n < |Flatten(groups)| ensures P(Flatten(groups)[n]) {
      FlattenMember(groups, n);
    }
  }

  /** Ids are distinct across a list of groups when they are distinct inside
      each group and each group's ids start with a prefix that no other
      group's prefix is compatible with. */
  lemma {:induction false} FlattenDistinct<T>(groups: seq<seq<T>>, prefixes: seq<string>, idOf: T -> string)
    requires |prefixes| == |groups|
    requires forall k :: 0 <= k < |groups| ==> DistinctIds(groups[k], idOf)
    requires forall k, i :: 0 <= k < |groups| && 0 <= i < |groups[k]| ==> HasPrefix(idOf(groups[k][i]), prefixes[k])
    requires forall k, l :: 0 <= k < l < |groups| ==> Incompatible(prefixes[k], prefixes[l])
    ensures DistinctIds(Flatten(groups), idOf)
  {
    if groups != [] {
      var init, last := groups[..|groups| - 1], groups[|groups| - 1];
      var f := Flatten(init);
      FlattenDistinct(init, prefixes[..|groups| - 1], idOf);
      forall a, b | 0 <= a < b < |f + last| ensures idOf((f + last)[a]) != idOf((f + last)[b]) {
        if b < |f| {
          assert (f + last)[a] == f[a] && (f + last)[b] == f[b];
        } else if a >= |f| {
          assert (f + last)[a] == last[a - |f|] && (f + last)[b] == last[b - |f|];
        } else {
          FlattenMember(init, a);
          var k, i :| 0 <= k < |init| && 0 <= i < |init[k]| && f[a] == init[k][i];
          assert init[k] == groups[k];
          assert (f + last)[a] == groups[k][i];
          assert (f + last)[b] == groups[|groups| - 1][b - |f|];
          IncompatiblePrefixes(idOf(groups[k][i]), idOf(groups[|groups| - 1][b - |f|]),
                               prefixes[k], prefixes[|groups| - 1]);
        }
      }
    }
  }

  /** Removing an id that is not present changes nothing. */
  lemma {:induction false} RemoveAbsentId<T>(s: seq<T>, idOf: T -> string, id: string)
    requires !HasId(s, idOf, id)
    ensures RemoveId(s, idOf, id) == s
  {
    if s != [] {
      assert idOf(s[0]) != id;
      assert !HasId(s[1..], idOf, id) by {
        forall i | 0 <= i < |s[1..]| ensures idOf(s[1..][i]) != id {
          assert s[1..][i] == s[i + 1];
        }
      }
      RemoveAbsentId(s[1..], idOf, id);
    }
  }

  /** Removing an id from a list of distinct ids drops exactly one element. */
  lemma {:induction false} RemovePresentId<T>(s: seq<T>, idOf: T -> string, id: string)
    requires DistinctIds(s, idOf) && HasId(s, idOf, id)
    ensures |RemoveId(s, idOf, id)| == |s| - 1
  {
    if idOf(s[0]) == id {
      assert !HasId(s[1..], idOf, id) by {
        forall i | 0 <= i < |s[1..]| ensures idOf(s[1..][i]) != id {
          assert s[1..][i] == s[i + 1];
        }
      }
      RemoveAbsentId(s[1..], idOf, id);
    } else {
      var k :| 0 <= k < |s| && idOf(s[k]) == id;
      assert s[1..][k - 1] == s[k];
      RemovePresentId(s[1..], idOf, id);
    }
  }

  lemma {:induction false} FindAppend<T>(s: seq<T>, c: T, idOf: T -> string, id: string)
    ensures Find(s + [c], idOf, id)
         == if Find(s, idOf, id).Some? then Find(s, idOf, id)
            else if idOf(c) == id then Some(c) else None
  {
    var k := FindIndex(s, idOf, id);
    var k' := FindIndex(s + [c], idOf, id);
    if k >= 0 {
      assert (s + [c])[k] == s[k];
      assert forall j :: 0 <= j < k ==> (s + [c])[j] == s[j];
      assert k' == k;
    } else if idOf(c) == id {
      assert (s + [c])[|s|] == c;
      assert forall j :: 0 <= j < |s| ==> (s + [c])[j] == s[j];
      assert k' == |s|;
    } else {
      assert forall j :: 0 <= j < |s| + 1 ==> idOf((s + [c])[j]) != id by {
        forall j | 0 <= j < |s| + 1 ensures idOf((s + [c])[j]) != id {
          if j < |s| { assert (s + [c])[j] == s[j]; }
        }
      }
    }
  }

  /** What a built-in entry becomes after the custom entries are laid over it. */
  function Patched<T>(b: T, custom: seq<T>, idOf: T -> string, combine: (T, T) -> T): T {
    match Find(custom, idOf, idOf(b))
    case None => b
    case Some(c) => combine(b, c)
  }

  /** The custom entries whose id is not built in, in their order. */
  function Added<T>(custom: seq<T>, base: seq<T>, idOf: T -> string): (r: seq<T>)
    ensures forall y :: y in r ==> y in custom && !HasId(base, idOf, idOf(y))
  {
    if custom == [] then []
    else
      var init, c := custom[..|custom| - 1], custom[|custom| - 1];
      Added(init, base, idOf) + (if HasId(base, idOf, idOf(c)) then [] else [c])
  }

  function PatchAll<T>(base: seq<T>, custom: seq<T>, idOf: T -> string, combine: (T, T) -> T): (r: seq<T>)
    ensures |r| == |base|
    ensures forall i :: 0 <= i < |base| ==> r[i] == Patched(base[i], custom, idOf, combine)
  {
    seq(|base|, i requires 0 <= i < |base| => Patched(base[i], custom, idOf, combine))
  }

  ghost predicate KeepsId<T(!new)>(idOf: T -> string, combine: (T, T) -> T) {
    forall o, n :: idOf(combine(o, n)) == idOf(n)
  }

  lemma {:induction false} DistinctTail<T>(s: seq<T>, idOf: T -> string)
    requires DistinctIds(s, idOf) && s != []
    ensures DistinctIds(s[..|s| - 1], idOf)
    ensures !HasId(s[..|s| - 1], idOf, idOf(s[|s| - 1]))
  {
  }

  lemma PatchAllIds<T(!new)>(base: seq<T>, custom: seq<T>, idOf: T -> string, combine: (T, T) -> T)
    requires KeepsId(idOf, combine)
    ensures forall i :: 0 <= i < |base| ==> idOf(PatchAll(base, custom, idOf, combine)[i]) == idOf(base[i])
  {
    forall i | 0 <= i < |base| ensures idOf(Patched(base[i], custom, idOf, combine)) == idOf(base[i]) {
    }
  }

  /** Laying one more custom entry `c` over the built-in entries changes only
      the one whose id is `c`'s. */
  lemma PatchAllStep<T(!new)>(base: seq<T>, init: seq<T>, c: T, idOf: T -> string, combine: (T, T) -> T)
    requires !HasId(init, idOf, idOf(c))
    ensures forall i :: 0 <= i < |base| ==>
      PatchAll(base, init + [c], idOf, combine)[i]
        == if idOf(base[i]) == idOf(c) then combine(base[i], c) else PatchAll(base, init, idOf, combine)[i]
  {
    forall i | 0 <= i < |base|
      ensures Patched(base[i], init + [c], idOf, combine)
           == if idOf(base[i]) == idOf(c) then combine(base[i], c) else Patched(base[i], init, idOf, combine)
    {
      FindAppend(init, c, idOf, idOf(base[i]));
    }
  }

  /** Positions before `|m|` are looked up in `m` alone. */
  lemma FindIndexInPrefix<T>(m: seq<T>, a: seq<T>, idOf: T -> string, id: string)
    requires FindIndex(m, idOf, id) >= 0
    ensures FindIndex(m + a, idOf, id) == FindIndex(m, idOf, id)
  {
    var k := FindIndex(m, idOf, id);
    assert (m + a)[k] == m[k];
    assert forall j :: 0 <= j < k ==> (m + a)[j] == m[j];
  }

  lemma UpdateInPrefix<T>(m: seq<T>, a: seq<T>, k: int, v: T)
    requires 0 <= k < |m|
    ensures (m + a)[k := v] == m[k := v] + a
  {
  }

  lemma PatchAllReplace<T(!new)>(base: seq<T>, init: seq<T>, c: T, idOf: T -> string, combine: (T, T) -> T, k: int)
    requires DistinctIds(base, idOf) && !HasId(init, idOf, idOf(c))
    requires k == FindIndex(base, idOf, idOf(c)) && k >= 0
    ensures PatchAll(base, init + [c], idOf, combine)
         == PatchAll(base, init, idOf, combine)[k := combine(base[k], c)]
  {
    PatchAllStep(base, init, c, idOf, combine);
  }

  /** The step of the overlay when `c`'s id is built in, at position `k`. */
  lemma OverlayStepReplace<T(!new)>(base: seq<T>, init: seq<T>, c: T, idOf: T -> string, combine: (T, T) -> T, k: int)
    requires DistinctIds(base, idOf) && !HasId(init, idOf, idOf(c)) && KeepsId(idOf, combine)
    requires k == FindIndex(base, idOf, idOf(c)) && k >= 0
    ensures UpsertWith(PatchAll(base, init, idOf, combine) + Added(init, base, idOf), c, idOf, combine)
         == PatchAll(base, init + [c], idOf, combine) + Added(init, base, idOf)
  {
    var m, a := PatchAll(base, init, idOf, combine), Added(init, base, idOf);
    PatchAllIds(base, init, idOf, combine);
    assert FindIndex(m, idOf, idOf(c)) == k by {
      assert idOf(m[k]) == idOf(c);
      assert forall j :: 0 <= j < k ==> idOf(m[j]) == idOf(base[j]);
    }
    FindIndexInPrefix(m, a, idOf, idOf(c));
    assert m[k] == base[k] by {
      PatchAllStep(base, init, c, idOf, combine);
    }
    assert (m + a)[k] == m[k];
    UpdateInPrefix(m, a, k, combine(base[k], c));
    PatchAllReplace(base, init, c, idOf, combine, k);
  }

  lemma AddedIds<T>(custom: seq<T>, base: seq<T>, idOf: T -> string, id: string)
    requires !HasId(custom, idOf, id)
    ensures !HasId(Added(custom, base, idOf), idOf, id)
  {
    var a := Added(custom, base, idOf);
    forall j | 0 <= j < |a| ensures idOf(a[j]) != id {
      assert a[j] in a;
      var t :| 0 <= t < |custom| && custom[t] == a[j];
    }
  }

  lemma ConcatLacksId<T>(m: seq<T>, a: seq<T>, idOf: T -> string, id: string)
    requires !HasId(m, idOf, id) && !HasId(a, idOf, id)
    ensures !HasId(m + a, idOf, id)
  {
    forall j | 0 <= j < |m + a| ensures idOf((m + a)[j]) != id {
      if j < |m| {
        assert (m + a)[j] == m[j];
      } else {
        assert (m + a)[j] == a[j - |m|];
      }
    }
  }

  /** The step of the overlay when `c`'s id is new. */
  lemma OverlayStepAppend<T(!new)>(base: seq<T>, init: seq<T>, c: T, idOf: T -> string, combine: (T, T) -> T)
    requires !HasId(base, idOf, idOf(c)) && !HasId(init, idOf, idOf(c)) && KeepsId(idOf, combine)
    ensures UpsertWith(PatchAll(base, init, idOf, combine) + Added(init, base, idOf), c, idOf, combine)
         == PatchAll(base, init + [c], idOf, combine) + (Added(init, base, idOf) + [c])
  {
    var m, a := PatchAll(base, init, idOf, combine), Added(init, base, idOf);
    PatchAllIds(base, init, idOf, combine);
    assert !HasId(m, idOf, idOf(c)) by {
      forall j | 0 <= j < |m| ensures idOf(m[j]) != idOf(c) {
        assert idOf(m[j]) == idOf(base[j]);
      }
    }
    AddedIds(init, base, idOf, idOf(c));
    ConcatLacksId(m, a, idOf, idOf(c));
    PatchAllStep(base, init, c, idOf, combine);
    assert PatchAll(base, init + [c], idOf, combine) == m;
  }

  /** With distinct ids on both sides, overlaying the custom entries patches
      each built-in entry in place (a custom entry with the same id replaces
      it through `combine`) and appends the other custom entries in their
      order. */
  lemma {:induction false} OverlayShape<T(!new)>(base: seq<T>, custom: seq<T>, idOf: T -> string, combine: (T, T) -> T)
    requires DistinctIds(base, idOf) && DistinctIds(custom, idOf)
    requires KeepsId(idOf, combine)
    ensures Overlay(base, custom, idOf, combine)
         == PatchAll(base, custom, idOf, combine) + Added(custom, base, idOf)
  {
    if custom != [] {
      var init, c := custom[..|custom| - 1], custom[|custom| - 1];
      assert custom == init + [c];
      DistinctTail(custom, idOf);
      OverlayShape(base, init, idOf, combine);
      var k := FindIndex(base, idOf, idOf(c));
      if k >= 0 {
        OverlayStepReplace(base, init, c, idOf, combine, k);
      } else {
        OverlayStepAppend(base, init, c, idOf, combine);
      }
    }
  }

  /** The id set after an upsert is the old set plus the new entry's id, and
      distinct ids stay distinct. */
  lemma {:induction false} UpsertKeepsDistinct<T(!new)>(s: seq<T>, x: T, idOf: T -> string, combine: (T, T) -> T)
    requires DistinctIds(s, idOf) && KeepsId(idOf, combine)
    ensures DistinctIds(UpsertWith(s, x, idOf, combine), idOf)
    ensures HasId(UpsertWith(s, x, idOf, combine), idOf, idOf(x))
  {
    var r := UpsertWith(s, x, idOf, combine);
    var k := FindIndex(s, idOf, idOf(x));
    if k >= 0 {
      assert r[k] == combine(s[k], x);
      forall i, j | 0 <= i < j < |r| ensures idOf(r[i]) != idOf(r[j]) {
        assert idOf(r[i]) == idOf(s[i]) && idOf(r[j]) == idOf(s[j]);
      }
    } else {
      assert r[|s|] == x;
    }
  }

  /** Removing entries keeps a list in order. */
  lemma {:induction false} RemoveIdSorted<T>(s: seq<T>, idOf: T -> string, id: string, key: T -> int)
    requires SortedDesc(s, key)
    ensures SortedDesc(RemoveId(s, idOf, id), key)
  {
    if s != [] {
      SortedTail(s, key);
      RemoveIdSorted(s[1..], idOf, id, key);
      var t := RemoveId(s[1..], idOf, id);
      forall k | 0 <= k < |t| ensures key(t[k]) <= key(s[0]) {
        var j :| 0 <= j < |s[1..]| && s[1..][j] == t[k];
        assert s[j + 1] == t[k];
      }
      if idOf(s[0]) != id {
        var r := [s[0]] + t;
        forall i, j | 0 <= i < j < |r| ensures key(r[i]) >= key(r[j]) {
          if i > 0 {
            assert r[i] == t[i - 1] && r[j] == t[j - 1];
          }
        }
      }
    }
  }

  /** After a save the list holds the saved entry's id. */
  lemma SaveByIdHasId<T>(s: seq<T>, y: T, idOf: T -> string)
    ensures HasId(SaveById(s, y, idOf), idOf, idOf(y))
  {
    var r := SaveById(s, y, idOf);
    if !HasId(s, idOf, idOf(y)) {
      assert r[|s|] == y;
    } else {
      var k :| 0 <= k < |s| && idOf(s[k]) == idOf(y);
      assert r[k] == y;
    }
  }

  /** A permutation holds the same ids. */
  lemma PermutationHasId<T>(s: seq<T>, t: seq<T>, idOf: T -> string, id: string)
    requires multiset(s) == multiset(t) && HasId(s, idOf, id)
    ensures HasId(t, idOf, id)
  {
    var k :| 0 <= k < |s| && idOf(s[k]) == id;
    assert s[k] in multiset(t);
    var j :| 0 <= j < |t| && t[j] == s[k];
  }

  /** Where an id first occurs depends only on the list's ids. */
  lemma FindIndexSameIds<T, U>(s: seq<T>, idOf: T -> string, t: seq<U>, idOf2: U -> string, id: string)
    requires Ids(s, idOf) == Ids(t, idOf2)
    ensures FindIndex(s, idOf, id) == FindIndex(t, idOf2, id)
  {
    var a, b := FindIndex(s, idOf, id), FindIndex(t, idOf2, id);
    assert |s| == |t|;
    assert forall i :: 0 <= i < |s| ==> idOf(s[i]) == Ids(s, idOf)[i] == idOf2(t[i]);
  }

  /** Pushing an element adds its id, and keeps the ids distinct when it
      was new. */
  lemma AppendId<T>(s: seq<T>, x: T, idOf: T -> string)
    ensures forall id :: HasId(s + [x], idOf, id) <==> HasId(s, idOf, id) || idOf(x) == id
    ensures DistinctIds(s, idOf) && !HasId(s, idOf, idOf(x)) ==> DistinctIds(s + [x], idOf)
  {
    var r := s + [x];
    assert forall i :: 0 <= i < |s| ==> r[i] == s[i];
    assert r[|s|] == x;
  }

  /** Replacing an element by one with the same id keeps the ids. */
  lemma ReplaceKeepsIds<T>(s: seq<T>, k: int, y: T, idOf: T -> string)
    requires 0 <= k < |s| && idOf(y) == idOf(s[k])
    ensures Ids(s[k := y], idOf) == Ids(s, idOf)
    ensures forall id :: HasId(s[k := y], idOf, id) <==> HasId(s, idOf, id)
    ensures DistinctIds(s, idOf) ==> DistinctIds(s[k := y], idOf)
  {
    var r := s[k := y];
    assert forall i :: 0 <= i < |s| ==> idOf(r[i]) == idOf(s[i]);
  }

  lemma SeqAssoc<T>(x: seq<T>, y: seq<T>, z: seq<T>)
    ensures x + y + z == x + (y + z)
  {
  }
}
