/**
 * Python's `list.sort(key=..., reverse=...)` on the keys the article views
 * sort by: a stable sort, ascending or, with `reverse=True`, descending, in
 * which items with equal keys keep their original order in both directions.
 *
 * `SortBy` is the specification (insertion of each item, in list order,
 * behind every item it does not strictly precede); `SortInPlace` sorts an
 * array in place and is proved equal to it; the lemmas show the result is
 * ordered, a permutation of the input, and stable.
 */
module Sorting {

  /** A sort key: a number (score) or a string (date, title). */
  datatype Key = NumKey(n: int) | StrKey(s: string)

  /** Python's `<` on `str`: lexicographic by code point. */
  predicate StrLt(a: string, b: string) {
    if b == [] then false
    else if a == [] then true
    else if a[0] != b[0] then a[0] < b[0]
    else StrLt(a[1..], b[1..])
  }

  /**
   * `<` on keys. One sort only ever compares keys of one kind; numbers are
   * put before strings so that the order is total.
   */
  predicate KeyLt(x: Key, y: Key) {
    match (x, y)
    case (NumKey(m), NumKey(n)) => m < n
    case (StrKey(a), StrKey(b)) => StrLt(a, b)
    case (NumKey(_), StrKey(_)) => true
    case (StrKey(_), NumKey(_)) => false
  }

  /** `x` goes strictly before `y`: a smaller key, or with `desc` a greater one. */
  predicate Before<T>(key: T -> Key, desc: bool, x: T, y: T) {
    if desc then KeyLt(key(y), key(x)) else KeyLt(key(x), key(y))
  }

  /** No item goes strictly before an item to its left. */
  ghost predicate SortedBy<T>(s: seq<T>, key: T -> Key, desc: bool) {
    forall i, j :: 0 <= i < j < |s| ==> !Before(key, desc, s[j], s[i])
  }

  /** Insert `x` behind the last item it does not strictly precede. */
  function InsertSorted<T>(s: seq<T>, x: T, key: T -> Key, desc: bool): (r: seq<T>)
    ensures |r| == |s| + 1
  {
    if s == [] || !Before(key, desc, x, s[|s| - 1]) then s + [x]
    else InsertSorted(s[..|s| - 1], x, key, desc) + [s[|s| - 1]]
  }

  /** The stable sort of `s`. */
  function SortBy<T>(s: seq<T>, key: T -> Key, desc: bool): (r: seq<T>)
    ensures |r| == |s|
  {
    if s == [] then [] else InsertSorted(SortBy(s[..|s| - 1], key, desc), s[|s| - 1], key, desc)
  }

  /** The items of `s` whose key is `k`, in order. */
  function WithKey<T>(s: seq<T>, key: T -> Key, k: Key): (r: seq<T>)
    ensures |r| <= |s|
  {
    if s == [] then []
    else WithKey(s[..|s| - 1], key, k) + (if key(s[|s| - 1]) == k then [s[|s| - 1]] else [])
  }

  // ---------------------------------------------------------------------
  // The key order is a strict total order

  lemma {:induction false} StrLtIrreflexive(a: string)
    ensures !StrLt(a, a)
  {
    if a != [] {
      StrLtIrreflexive(a[1..]);
    }
  }

  lemma {:induction false} StrLtTransitive(a: string, b: string, c: string)
    requires StrLt(a, b) && StrLt(b, c)
    ensures StrLt(a, c)
  {
    if a != [] && a[0] == b[0] && b[0] == c[0] {
      StrLtTransitive(a[1..], b[1..], c[1..]);
    }
  }

  lemma {:induction false} StrLtTotal(a: string, b: string)
    requires a != b
    ensures StrLt(a, b) || StrLt(b, a)
  {
    if a != [] && b != [] && a[0] == b[0] {
      StrLtTotal(a[1..], b[1..]);
    }
  }

  lemma KeyLtIrreflexive(x: Key)
    ensures !KeyLt(x, x)
  {
    if x.StrKey? {
      StrLtIrreflexive(x.s);
    }
  }

  lemma KeyLtTransitive(x: Key, y: Key, z: Key)
    requires KeyLt(x, y) && KeyLt(y, z)
    ensures KeyLt(x, z)
  {
    if x.StrKey? && y.StrKey? && z.StrKey? {
      StrLtTransitive(x.s, y.s, z.s);
    }
  }

  lemma KeyLtTotal(x: Key, y: Key)
    requires x != y
    ensures KeyLt(x, y) || KeyLt(y, x)
  {
    if x.StrKey? && y.StrKey? {
      StrLtTotal(x.s, y.s);
    }
  }

  /** `!Before(y, x)` means `x` goes before `y` or has the same key. */
  lemma NotBeforeMeansAtMost<T>(key: T -> Key, desc: bool, x: T, y: T)
    requires !Before(key, desc, y, x)
    ensures key(x) == key(y) || Before(key, desc, x, y)
  {
    if key(x) != key(y) {
      KeyLtTotal(key(x), key(y));
    }
  }

  lemma BeforeAsymmetric<T>(key: T -> Key, desc: bool, x: T, y: T)
    requires Before(key, desc, x, y)
    ensures !Before(key, desc, y, x) && key(x) != key(y)
  {
    KeyLtIrreflexive(key(x));
    if Before(key, desc, y, x) {
      KeyLtTransitive(key(x), key(y), key(x));
    }
  }

  // ---------------------------------------------------------------------
  // Properties of the sort

  lemma {:induction false} InsertSortedPermutes<T>(s: seq<T>, x: T, key: T -> Key, desc: bool)
    ensures multiset(InsertSorted(s, x, key, desc)) == multiset(s) + multiset{x}
  {
    if s != [] && Before(key, desc, x, s[|s| - 1]) {
      var init := s[..|s| - 1];
      InsertSortedPermutes(init, x, key, desc);
      assert s == init + [s[|s| - 1]];
    }
  }

  /** The sort returns a permutation of its input. */
  lemma {:induction false} SortByPermutes<T>(s: seq<T>, key: T -> Key, desc: bool)
    ensures multiset(SortBy(s, key, desc)) == multiset(s)
  {
    if s != [] {
      var init := s[..|s| - 1];
      SortByPermutes(init, key, desc);
      InsertSortedPermutes(SortBy(init, key, desc), s[|s| - 1], key, desc);
      assert s == init + [s[|s| - 1]];
    }
  }

  /** Appending `z` behind a sorted run keeps it sorted when nothing in the run goes after `z`. */
  lemma SortedSnoc<T>(q: seq<T>, z: T, key: T -> Key, desc: bool)
    requires SortedBy(q, key, desc)
    requires forall y :: y in q ==> !Before(key, desc, z, y)
    ensures SortedBy(q + [z], key, desc)
  {
    var r := q + [z];
    forall i, j | 0 <= i < j < |r| ensures !Before(key, desc, r[j], r[i]) {
      if j == |q| {
        assert r[i] in q;
      }
    }
  }

  lemma {:induction false} InsertSortedSorted<T>(s: seq<T>, x: T, key: T -> Key, desc: bool)
    requires SortedBy(s, key, desc)
    ensures SortedBy(InsertSorted(s, x, key, desc), key, desc)
  {
    if s == [] {
    } else {
      var init := s[..|s| - 1];
      var last := s[|s| - 1];
      if !Before(key, desc, x, last) {
        forall y | y in s ensures !Before(key, desc, x, y) {
          var i :| 0 <= i < |s| && s[i] == y;
          if i < |s| - 1 {
            assert !Before(key, desc, last, y);
            NotBeforeMeansAtMost(key, desc, y, last);
            NotBeforeMeansAtMost(key, desc, last, x);
            if Before(key, desc, x, y) {
              if key(y) == key(last) {
              } else if desc {
                KeyLtTransitive(key(last), key(y), key(x));
                BeforeAsymmetric(key, desc, last, x);
              } else {
                KeyLtTransitive(key(x), key(y), key(last));
              }
            }
          }
        }
        SortedSnoc(s, x, key, desc);
      } else {
        assert SortedBy(init, key, desc);
        InsertSortedSorted(init, x, key, desc);
        InsertSortedPermutes(init, x, key, desc);
        var q := InsertSorted(init, x, key, desc);
        forall y | y in q ensures !Before(key, desc, last, y) {
          assert y in multiset(q);
          if y == x {
            BeforeAsymmetric(key, desc, x, last);
          } else {
            assert y in multiset(init);
            var i :| 0 <= i < |init| && init[i] == y;
            assert s[i] == y;
          }
        }
        SortedSnoc(q, last, key, desc);
      }
    }
  }

  /** The sort's output is ordered by key, descending when `desc`. */
  lemma {:induction false} SortBySorted<T>(s: seq<T>, key: T -> Key, desc: bool)
    ensures SortedBy(SortBy(s, key, desc), key, desc)
  {
    if s != [] {
      SortBySorted(s[..|s| - 1], key, desc);
      InsertSortedSorted(SortBy(s[..|s| - 1], key, desc), s[|s| - 1], key, desc);
    }
  }

  lemma {:induction false} WithKeyAppend<T>(a: seq<T>, b: seq<T>, key: T -> Key, k: Key)
    ensures WithKey(a + b, key, k) == WithKey(a, key, k) + WithKey(b, key, k)
  {
    if b == [] {
      assert a + b == a;
    } else {
      var ab := a + b;
      assert ab[..|ab| - 1] == a + b[..|b| - 1];
      WithKeyAppend(a, b[..|b| - 1], key, k);
    }
  }

  /** Inserting `x` puts it behind every item with the same key. */
  lemma {:induction false} InsertSortedStable<T>(s: seq<T>, x: T, key: T -> Key, desc: bool, k: Key)
    ensures WithKey(InsertSorted(s, x, key, desc), key, k) ==
      WithKey(s, key, k) + (if key(x) == k then [x] else [])
  {
    var tx := if key(x) == k then [x] else [];
    if s == [] || !Before(key, desc, x, s[|s| - 1]) {
      assert InsertSorted(s, x, key, desc) == s + [x];
      assert (s + [x])[..|s|] == s;
    } else {
      var init := s[..|s| - 1];
      var last := s[|s| - 1];
      var q := InsertSorted(init, x, key, desc);
      var tl := if key(last) == k then [last] else [];
      assert InsertSorted(s, x, key, desc) == q + [last];
      InsertSortedStable(init, x, key, desc, k);
      BeforeAsymmetric(key, desc, x, last);
      assert (q + [last])[..|q|] == q;
      var w := WithKey(init, key, k);
      assert WithKey(q + [last], key, k) == w + tx + tl;
      assert WithKey(s, key, k) == w + tl;
      SwapEmpty(w, tx, tl);
    }
  }

  lemma SwapEmpty<T>(w: seq<T>, a: seq<T>, b: seq<T>)
    requires a == [] || b == []
    ensures w + a + b == w + b + a
  {
    if a == [] {
      assert w + a == w;
    } else {
      assert w + b == w;
    }
  }

  /** Items with equal keys keep their relative order: the sort is stable. */
  lemma {:induction false} SortByStable<T>(s: seq<T>, key: T -> Key, desc: bool, k: Key)
    ensures WithKey(SortBy(s, key, desc), key, k) == WithKey(s, key, k)
  {
    if s != [] {
      var init := s[..|s| - 1];
      SortByStable(init, key, desc, k);
      InsertSortedStable(SortBy(init, key, desc), s[|s| - 1], key, desc, k);
    }
  }

  // ---------------------------------------------------------------------
  // The in-place sort

  /** Insert `a[i]` into the sorted prefix `a[..i]`, shifting greater items right. */
  method InsertStep<T>(a: array<T>, i: nat, key: T -> Key, desc: bool)
    requires i < a.Length
    modifies a
    ensures a[..i + 1] == InsertSorted(old(a[..i]), old(a[i]), key, desc)
    ensures a[i + 1..] == old(a[i + 1..])
  {
    ghost var p := a[..i];
    var x := a[i];
    var j := i;
    assert p[..j] == p && p[j..] == [];
    while j > 0 && Before(key, desc, x, a[j - 1])
      invariant 0 <= j <= i
      invariant forall k :: 0 <= k < j ==> a[k] == p[k]
      invariant forall k :: j < k <= i ==> a[k] == p[k - 1]
      invariant forall k :: i < k < a.Length ==> a[k] == old(a[k])
      invariant InsertSorted(p, x, key, desc) == InsertSorted(p[..j], x, key, desc) + p[j..]
    {
      InsertSortedShift(p, j, x, key, desc);
      a[j] := a[j - 1];
      j := j - 1;
    }
    a[j] := x;
    InsertSortedStop(p, j, x, key, desc);
    assert a[..i + 1] == p[..j] + [x] + p[j..];
  }

  /** Where the shifting stops, `x` goes behind the prefix. */
  lemma InsertSortedStop<T>(p: seq<T>, j: nat, x: T, key: T -> Key, desc: bool)
    requires j <= |p| && (j == 0 || !Before(key, desc, x, p[j - 1]))
    ensures InsertSorted(p[..j], x, key, desc) == p[..j] + [x]
  {
  }

  /** One step of the shifting loop: `x` moves left past `p[j - 1]`. */
  lemma InsertSortedShift<T>(p: seq<T>, j: nat, x: T, key: T -> Key, desc: bool)
    requires 0 < j <= |p| && Before(key, desc, x, p[j - 1])
    ensures InsertSorted(p[..j], x, key, desc) + p[j..] == InsertSorted(p[..j - 1], x, key, desc) + p[j - 1..]
  {
    assert p[..j][..j - 1] == p[..j - 1];
    assert p[j - 1..] == [p[j - 1]] + p[j..];
  }

  /** `items.sort(key=key, reverse=desc)` on an array. */
  method SortInPlace<T>(a: array<T>, key: T -> Key, desc: bool)
    modifies a
    ensures a[..] == SortBy(old(a[..]), key, desc)
  {
    ghost var s := a[..];
    var i := 0;
    while i < a.Length
      invariant 0 <= i <= a.Length
      invariant a[..i] == SortBy(s[..i], key, desc)
      invariant a[i..] == s[i..]
    {
      InsertStep(a, i, key, desc);
      assert s[..i + 1][..i] == s[..i];
      i := i + 1;
    }
    assert a[..] == a[..a.Length];
    assert s == s[..a.Length];
  }
}
