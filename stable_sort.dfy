/** The stable sort that `Array.prototype.sort` performs with a comparator
    `(a, b) => key(b) - key(a)`: highest key first, and elements with equal
    keys keep the order they had. Sorting ascending by `order` is the same
    sort on the negated key. */
module StableSort {

  predicate SortedDesc<T>(s: seq<T>, key: T -> int) {
    forall i, j :: 0 <= i < j < |s| ==> key(s[i]) >= key(s[j])
  }

  /** The elements of `s` whose key is `k`, in their order in `s`. */
  function WithKey<T>(s: seq<T>, key: T -> int, k: int): (r: seq<T>)
    ensures |r| <= |s|
  {
    if s == [] then []
    else (if key(s[0]) == k then [s[0]] else []) + WithKey(s[1..], key, k)
  }

  /** Places `x` after every element whose key is at least `key(x)`. */
  function Insert<T>(x: T, s: seq<T>, key: T -> int): (r: seq<T>)
    ensures |r| == |s| + 1
  {
    if s == [] then [x]
    else if key(x) > key(s[0]) then [x] + s
    else [s[0]] + Insert(x, s[1..], key)
  }

  /** Insertion sort, one element from the back at a time. */
  function SortDesc<T>(s: seq<T>, key: T -> int): (r: seq<T>)
    ensures |r| == |s|
  {
    if s == [] then []
    else Insert(s[|s| - 1], SortDesc(s[..|s| - 1], key), key)
  }

  lemma {:induction false} InsertPermutes<T>(x: T, s: seq<T>, key: T -> int)
    ensures multiset(Insert(x, s, key)) == multiset(s) + multiset{x}
  {
    if s != [] && key(x) <= key(s[0]) {
      InsertPermutes(x, s[1..], key);
      assert s == [s[0]] + s[1..];
    }
  }

  /** The result is a permutation of the input. */
  lemma {:induction false} SortDescPermutes<T>(s: seq<T>, key: T -> int)
    ensures multiset(SortDesc(s, key)) == multiset(s)
  {
    if s != [] {
      SortDescPermutes(s[..|s| - 1], key);
      InsertPermutes(s[|s| - 1], SortDesc(s[..|s| - 1], key), key);
      assert s == s[..|s| - 1] + [s[|s| - 1]];
    }
  }

  lemma {:induction false} InsertBound<T>(x: T, s: seq<T>, key: T -> int, b: int)
    requires key(x) <= b
    requires forall i :: 0 <= i < |s| ==> key(s[i]) <= b
    ensures forall i :: 0 <= i < |s| + 1 ==> key(Insert(x, s, key)[i]) <= b
  {
    if s != [] && key(x) <= key(s[0]) {
      InsertBound(x, s[1..], key, b);
    }
  }

  lemma {:induction false} InsertSorted<T>(x: T, s: seq<T>, key: T -> int)
    requires SortedDesc(s, key)
    ensures SortedDesc(Insert(x, s, key), key)
  {
    if s != [] && key(x) <= key(s[0]) {
      InsertSorted(x, s[1..], key);
      InsertBound(x, s[1..], key, key(s[0]));
    }
  }

  /** The result is ordered by key, highest first. */
  lemma {:induction false} SortDescSorted<T>(s: seq<T>, key: T -> int)
    ensures SortedDesc(SortDesc(s, key), key)
  {
    if s != [] {
      SortDescSorted(s[..|s| - 1], key);
      InsertSorted(s[|s| - 1], SortDesc(s[..|s| - 1], key), key);
    }
  }

  lemma {:induction false} WithKeyConcat<T>(a: seq<T>, b: seq<T>, key: T -> int, k: int)
    ensures WithKey(a + b, key, k) == WithKey(a, key, k) + WithKey(b, key, k)
  {
    if a == [] {
      assert a + b == b;
    } else {
      var h := if key(a[0]) == k then [a[0]] else [];
      assert (a + b)[0] == a[0];
      assert (a + b)[1..] == a[1..] + b;
      WithKeyConcat(a[1..], b, key, k);
      calc {
        WithKey(a + b, key, k);
        h + WithKey(a[1..] + b, key, k);
        h + (WithKey(a[1..], key, k) + WithKey(b, key, k));
        (h + WithKey(a[1..], key, k)) + WithKey(b, key, k);
        WithKey(a, key, k) + WithKey(b, key, k);
      }
    }
  }

  lemma {:induction false} WithKeyNone<T>(s: seq<T>, key: T -> int, k: int)
    requires forall i :: 0 <= i < |s| ==> key(s[i]) != k
    ensures WithKey(s, key, k) == []
  {
    if s != [] {
      WithKeyNone(s[1..], key, k);
    }
  }

  lemma WithKeyCons<T>(y: T, t: seq<T>, key: T -> int, k: int)
    ensures WithKey([y] + t, key, k) == (if key(y) == k then [y] else []) + WithKey(t, key, k)
  {
    assert ([y] + t)[0] == y && ([y] + t)[1..] == t;
  }

  lemma SortedTail<T>(s: seq<T>, key: T -> int)
    requires SortedDesc(s, key) && s != []
    ensures SortedDesc(s[1..], key)
    ensures forall i :: 0 <= i < |s| ==> key(s[i]) <= key(s[0])
  {
  }

  lemma InsertFront<T>(x: T, s: seq<T>, key: T -> int, k: int)
    requires SortedDesc(s, key) && s != [] && key(x) > key(s[0])
    ensures WithKey([x] + s, key, k) == WithKey(s, key, k) + (if key(x) == k then [x] else [])
  {
    if key(x) == k {
      SortedTail(s, key);
      WithKeyNone(s, key, k);
    }
    WithKeyCons(x, s, key, k);
  }

  lemma {:induction false} InsertWithKey<T>(x: T, s: seq<T>, key: T -> int, k: int)
    requires SortedDesc(s, key)
    ensures WithKey(Insert(x, s, key), key, k)
         == WithKey(s, key, k) + (if key(x) == k then [x] else [])
  {
    var e := if key(x) == k then [x] else [];
    if s == [] {
      WithKeyCons(x, [], key, k);
    } else {
      if key(x) > key(s[0]) {
        InsertFront(x, s, key, k);
      } else {
        SortedTail(s, key);
        var t := Insert(x, s[1..], key);
        var h := if key(s[0]) == k then [s[0]] else [];
        InsertWithKey(x, s[1..], key, k);
        WithKeyCons(s[0], t, key, k);
        WithKeyCons(s[0], s[1..], key, k);
        assert [s[0]] + s[1..] == s;
        assert h + (WithKey(s[1..], key, k) + e) == (h + WithKey(s[1..], key, k)) + e;
      }
    }
  }

  lemma InsertIntoSortedWithKey<T>(x: T, s: seq<T>, key: T -> int, k: int)
    ensures WithKey(Insert(x, SortDesc(s, key), key), key, k)
         == WithKey(SortDesc(s, key), key, k) + (if key(x) == k then [x] else [])
  {
    SortDescSorted(s, key);
    InsertWithKey(x, SortDesc(s, key), key, k);
  }

  /** Stability: for every key, the elements carrying it appear in the result
      in the same order as in the input. */
  lemma {:induction false} SortDescStable<T>(s: seq<T>, key: T -> int, k: int)
    ensures WithKey(SortDesc(s, key), key, k) == WithKey(s, key, k)
  {
    if s != [] {
      var init, x := s[..|s| - 1], s[|s| - 1];
      var e := if key(x) == k then [x] else [];
      SortDescStable(init, key, k);
      InsertIntoSortedWithKey(x, init, key, k);
      assert s == init + [x];
      WithKeyConcat(init, [x], key, k);
      assert WithKey([x], key, k) == e + WithKey([x][1..], key, k);
      calc {
        WithKey(SortDesc(s, key), key, k);
        WithKey(Insert(x, SortDesc(init, key), key), key, k);
        WithKey(SortDesc(init, key), key, k) + e;
        WithKey(init, key, k) + e;
        WithKey(init, key, k) + WithKey([x], key, k);
        WithKey(s, key, k);
      }
    }
  }

  /** Sorting an already sorted list changes nothing: re-sorting after an
      in-place replacement that kept the order is harmless. */
  lemma {:induction false} SortDescOfSorted<T>(s: seq<T>, key: T -> int)
    requires SortedDesc(s, key)
    ensures SortDesc(s, key) == s
  {
    if s != [] {
      var init, x := s[..|s| - 1], s[|s| - 1];
      SortDescOfSorted(init, key);
      InsertAtEnd(x, init, key);
      assert init + [x] == s;
    }
  }

  lemma {:induction false} InsertAtEnd<T>(x: T, s: seq<T>, key: T -> int)
    requires forall i :: 0 <= i < |s| ==> key(s[i]) >= key(x)
    ensures Insert(x, s, key) == s + [x]
  {
    if s != [] {
      InsertAtEnd(x, s[1..], key);
      assert [s[0]] + (s[1..] + [x]) == s + [x];
    }
  }

  predicate KeysDistinct<T>(s: seq<T>, key: T -> int) {
    forall i, j :: 0 <= i < j < |s| ==> key(s[i]) != key(s[j])
  }

  lemma {:induction false} InsertKeysDistinct<T>(x: T, s: seq<T>, key: T -> int)
    requires KeysDistinct(s, key)
    requires forall i :: 0 <= i < |s| ==> key(s[i]) != key(x)
    ensures KeysDistinct(Insert(x, s, key), key)
  {
    if s != [] && key(x) <= key(s[0]) {
      var t := Insert(x, s[1..], key);
      InsertKeysDistinct(x, s[1..], key);
      InsertPermutes(x, s[1..], key);
      forall k | 0 <= k < |t| ensures key(t[k]) != key(s[0]) {
        assert t[k] in multiset(t);
        assert t[k] == x || t[k] in s[1..];
      }
    }
  }

  /** Keys that were pairwise distinct stay so. */
  lemma {:induction false} SortDescKeysDistinct<T>(s: seq<T>, key: T -> int)
    requires KeysDistinct(s, key)
    ensures KeysDistinct(SortDesc(s, key), key)
  {
    if s != [] {
      var init, x := s[..|s| - 1], s[|s| - 1];
      var t := SortDesc(init, key);
      SortDescKeysDistinct(init, key);
      SortDescPermutes(init, key);
      forall k | 0 <= k < |t| ensures key(t[k]) != key(x) {
        assert t[k] in multiset(t);
        assert t[k] in init;
      }
      InsertKeysDistinct(x, t, key);
    }
  }
}
