/**
 * Ranking rows for a board: `[...results].sort((a, b) => b.key - a.key)`.
 * The comparator orders rows by descending key, and the built-in sort is
 * stable, so rows with equal keys keep the order they had in `results`.
 * `SortedByKey` is that ordering as a function (an insertion of each row,
 * in input order, after every row whose key is at least its own);
 * `SortByKey` performs it in place on an array.
 */
module Ranking {
  import opened Standings

  /** Keys never increase from left to right. */
  predicate NonIncreasing(board: Board, s: seq<Row>)
  {
    forall i, j :: 0 <= i < j < |s| ==> Points(board, s[i]) >= Points(board, s[j])
  }

  /** The rows of `s` whose key is `k`, in their order in `s`. */
  function WithKey(board: Board, s: seq<Row>, k: int): seq<Row>
  {
    if s == [] then []
    else (if Points(board, s[0]) == k then [s[0]] else []) + WithKey(board, s[1..], k)
  }

  /** Places `x` after every row of `t` whose key is at least its own. */
  function Insert(board: Board, t: seq<Row>, x: Row): seq<Row>
  {
    if t == [] then [x]
    else if Points(board, t[0]) >= Points(board, x) then [t[0]] + Insert(board, t[1..], x)
    else [x] + t
  }

  /** The stable descending order of `s` by the board's key. */
  function SortedByKey(board: Board, s: seq<Row>): seq<Row>
    decreases |s|
  {
    if s == [] then []
    else Insert(board, SortedByKey(board, s[..|s| - 1]), s[|s| - 1])
  }

  lemma {:induction false} WithKeyAppend(board: Board, a: seq<Row>, b: seq<Row>, k: int)
    ensures WithKey(board, a + b, k) == WithKey(board, a, k) + WithKey(board, b, k)
    decreases |a|
  {
    if a == [] {
      assert a + b == b;
    } else {
      var head := if Points(board, a[0]) == k then [a[0]] else [];
      WithKeyAppend(board, a[1..], b, k);
      calc {
        WithKey(board, a + b, k);
        { assert (a + b)[0] == a[0]; assert (a + b)[1..] == a[1..] + b; }
        head + WithKey(board, a[1..] + b, k);
        head + (WithKey(board, a[1..], k) + WithKey(board, b, k));
        (head + WithKey(board, a[1..], k)) + WithKey(board, b, k);
        WithKey(board, a, k) + WithKey(board, b, k);
      }
    }
  }

  lemma {:induction false} WithKeyNone(board: Board, t: seq<Row>, k: int)
    requires forall j :: 0 <= j < |t| ==> Points(board, t[j]) < k
    ensures WithKey(board, t, k) == []
    decreases |t|
  {
    if t != [] {
      WithKeyNone(board, t[1..], k);
    }
  }

  lemma {:induction false} InsertPermutation(board: Board, t: seq<Row>, x: Row)
    ensures multiset(Insert(board, t, x)) == multiset(t) + multiset{x}
    ensures |Insert(board, t, x)| == |t| + 1
    decreases |t|
  {
    if t != [] && Points(board, t[0]) >= Points(board, x) {
      InsertPermutation(board, t[1..], x);
      assert t == [t[0]] + t[1..];
    }
  }

  /** Inserting a row no greater than a bound into rows no greater than
      that bound gives rows no greater than it. */
  lemma {:induction false} InsertBounded(board: Board, t: seq<Row>, x: Row, c: int)
    requires forall j :: 0 <= j < |t| ==> Points(board, t[j]) <= c
    requires Points(board, x) <= c
    ensures forall j :: 0 <= j < |Insert(board, t, x)| ==> Points(board, Insert(board, t, x)[j]) <= c
    decreases |t|
  {
    if t != [] && Points(board, t[0]) >= Points(board, x) {
      InsertBounded(board, t[1..], x, c);
    }
  }

  lemma {:induction false} InsertOrdered(board: Board, t: seq<Row>, x: Row)
    requires NonIncreasing(board, t)
    ensures NonIncreasing(board, Insert(board, t, x))
    decreases |t|
  {
    if t != [] && Points(board, t[0]) >= Points(board, x) {
      var r := Insert(board, t[1..], x);
      InsertOrdered(board, t[1..], x);
      InsertBounded(board, t[1..], x, Points(board, t[0]));
      assert Insert(board, t, x) == [t[0]] + r;
    }
  }

  lemma NonIncreasingTail(board: Board, t: seq<Row>)
    requires t != [] && NonIncreasing(board, t)
    ensures NonIncreasing(board, t[1..])
    ensures forall j :: 0 <= j < |t| ==> Points(board, t[j]) <= Points(board, t[0])
  {
  }

  /** A row above every row of `t`, put in front of `t`, comes after all
      rows of its own key. */
  lemma InsertFrontWithKey(board: Board, t: seq<Row>, x: Row, k: int)
    requires forall j :: 0 <= j < |t| ==> Points(board, t[j]) < Points(board, x)
    ensures WithKey(board, [x] + t, k) == WithKey(board, t, k) + (if Points(board, x) == k then [x] else [])
  {
    WithKeyAppend(board, [x], t, k);
    assert WithKey(board, [x], k) == (if Points(board, x) == k then [x] else []) + WithKey(board, [], k);
    if Points(board, x) == k {
      WithKeyNone(board, t, k);
    }
  }

  lemma WithKeyCons(board: Board, h: Row, r: seq<Row>, k: int)
    ensures WithKey(board, [h] + r, k) == (if Points(board, h) == k then [h] else []) + WithKey(board, r, k)
  {
    assert ([h] + r)[1..] == r;
  }

  lemma {:induction false} InsertWithKey(board: Board, t: seq<Row>, x: Row, k: int)
    requires NonIncreasing(board, t)
    ensures WithKey(board, Insert(board, t, x), k)
         == WithKey(board, t, k) + (if Points(board, x) == k then [x] else [])
    decreases |t|
  {
    if t == [] {
      InsertFrontWithKey(board, t, x, k);
      assert [x] + t == [x];
    } else if Points(board, t[0]) >= Points(board, x) {
      var r := Insert(board, t[1..], x);
      assert Insert(board, t, x) == [t[0]] + r;
      assert t == [t[0]] + t[1..];
      NonIncreasingTail(board, t);
      InsertWithKey(board, t[1..], x, k);
      WithKeyCons(board, t[0], r, k);
      WithKeyCons(board, t[0], t[1..], k);
    } else {
      NonIncreasingTail(board, t);
      InsertFrontWithKey(board, t, x, k);
    }
  }

  lemma {:induction false} SortedByKeyPermutation(board: Board, s: seq<Row>)
    ensures multiset(SortedByKey(board, s)) == multiset(s)
    ensures |SortedByKey(board, s)| == |s|
    decreases |s|
  {
    if s != [] {
      var init, last := s[..|s| - 1], s[|s| - 1];
      var sortedInit := SortedByKey(board, init);
      SortedByKeyPermutation(board, init);
      InsertPermutation(board, sortedInit, last);
      assert SortedByKey(board, s) == Insert(board, sortedInit, last);
      assert s == init + [last];
      calc {
        multiset(SortedByKey(board, s));
        multiset(sortedInit) + multiset{last};
        multiset(init) + multiset{last};
        multiset(init + [last]);
      }
    }
  }

  lemma {:induction false} SortedByKeyOrdered(board: Board, s: seq<Row>)
    ensures NonIncreasing(board, SortedByKey(board, s))
    decreases |s|
  {
    if s != [] {
      var init, last := s[..|s| - 1], s[|s| - 1];
      SortedByKeyOrdered(board, init);
      InsertOrdered(board, SortedByKey(board, init), last);
    }
  }

  lemma {:induction false} SortedByKeyStable(board: Board, s: seq<Row>, k: int)
    ensures WithKey(board, SortedByKey(board, s), k) == WithKey(board, s, k)
    decreases |s|
  {
    if s != [] {
      var init, last := s[..|s| - 1], s[|s| - 1];
      SortedByKeyStable(board, init, k);
      SortedByKeyOrdered(board, init);
      InsertWithKey(board, SortedByKey(board, init), last, k);
      WithKeyAppend(board, init, [last], k);
      assert s == init + [last];
    }
  }

  /** The sort keeps every row (a permutation of the input), orders the
      rows by non-increasing key, and keeps the input order among rows with
      the same key. */
  lemma SortedByKeyCorrect(board: Board, s: seq<Row>)
    ensures multiset(SortedByKey(board, s)) == multiset(s)
    ensures |SortedByKey(board, s)| == |s|
    ensures NonIncreasing(board, SortedByKey(board, s))
    ensures forall k :: WithKey(board, SortedByKey(board, s), k) == WithKey(board, s, k)
  {
    SortedByKeyPermutation(board, s);
    SortedByKeyOrdered(board, s);
    forall k ensures WithKey(board, SortedByKey(board, s), k) == WithKey(board, s, k) {
      SortedByKeyStable(board, s, k);
    }
  }

  lemma {:induction false} WithKeyMembers(board: Board, s: seq<Row>, k: int)
    ensures forall x :: x in WithKey(board, s, k) ==> x in s && Points(board, x) == k
    decreases |s|
  {
    if s != [] {
      WithKeyMembers(board, s[1..], k);
    }
  }

  lemma WithKeyStep(board: Board, s: seq<Row>, k: int)
    requires s != []
    ensures Points(board, s[0]) == k ==> WithKey(board, s[1..], k) == WithKey(board, s, k)[1..]
    ensures Points(board, s[0]) != k ==> WithKey(board, s[1..], k) == WithKey(board, s, k)
  {
  }

  /** Two rankings in non-increasing key order that agree on the order of
      the rows of every key are the same ranking. */
  lemma {:induction false} SameOrderPerKey(board: Board, a: seq<Row>, b: seq<Row>)
    requires |a| == |b|
    requires NonIncreasing(board, a) && NonIncreasing(board, b)
    requires forall k :: WithKey(board, a, k) == WithKey(board, b, k)
    ensures a == b
    decreases |a| + |b|
  {
    if a != [] {
      var ka, kb := Points(board, a[0]), Points(board, b[0]);
      NonIncreasingTail(board, a);
      NonIncreasingTail(board, b);
      WithKeyMembers(board, a, kb);
      WithKeyMembers(board, b, ka);
      assert a[0] in WithKey(board, b, ka);
      assert b[0] in WithKey(board, a, kb);
      assert ka == kb;
      assert WithKey(board, a, ka)[0] == a[0];
      assert WithKey(board, b, ka)[0] == b[0];
      assert a[0] == b[0] by {
        assert WithKey(board, a, ka) == WithKey(board, b, ka);
      }
      forall k ensures WithKey(board, a[1..], k) == WithKey(board, b[1..], k) {
        WithKeyStep(board, a, k);
        WithKeyStep(board, b, k);
      }
      SameOrderPerKey(board, a[1..], b[1..]);
      assert a == [a[0]] + a[1..] && b == [b[0]] + b[1..];
    }
  }

  /** `SortedByKey` is the only permutation of `s` that is non-increasing
      in the key and keeps the input order among equal keys: any stable
      descending sort of `s` returns it. */
  lemma StableSortUnique(board: Board, s: seq<Row>, r: seq<Row>)
    requires multiset(r) == multiset(s)
    requires NonIncreasing(board, r)
    requires forall k :: WithKey(board, r, k) == WithKey(board, s, k)
    ensures r == SortedByKey(board, s)
  {
    SortedByKeyCorrect(board, s);
    assert |r| == |multiset(r)| == |multiset(s)| == |s|;
    SameOrderPerKey(board, r, SortedByKey(board, s));
  }

  /** `Insert` puts `x` at the first position whose key is below its own. */
  lemma {:induction false} InsertAt(board: Board, t: seq<Row>, x: Row, j: nat)
    requires j <= |t|
    requires forall m :: 0 <= m < j ==> Points(board, t[m]) >= Points(board, x)
    requires forall m :: j <= m < |t| ==> Points(board, t[m]) < Points(board, x)
    ensures Insert(board, t, x) == t[..j] + [x] + t[j..]
    decreases j
  {
    if j == 0 {
      assert t[..0] + [x] + t[0..] == [x] + t;
    } else {
      var u := t[1..];
      InsertAt(board, u, x, j - 1);
      calc {
        Insert(board, t, x);
        [t[0]] + Insert(board, u, x);
        [t[0]] + (u[..j - 1] + [x] + u[j - 1..]);
        { assert t[..j] == [t[0]] + u[..j - 1]; assert t[j..] == u[j - 1..]; }
        t[..j] + [x] + t[j..];
      }
    }
  }

  lemma SortedByKeyPrefix(board: Board, s: seq<Row>, i: nat)
    requires i < |s|
    ensures SortedByKey(board, s[..i + 1]) == Insert(board, SortedByKey(board, s[..i]), s[i])
  {
    assert s[..i + 1][..i] == s[..i];
  }

  /** Inserting by shifting: the sorted prefix `t`, shifted right from
      position `j`, with `x` placed at `j`, is `Insert(board, t, x)` when `j`
      is the first position whose key is below that of `x`. */
  lemma InsertShifted(board: Board, t: seq<Row>, x: Row, j: nat, u: seq<Row>)
    requires NonIncreasing(board, t) && j <= |t|
    requires |u| == |t| + 1 && u[j] == x
    requires forall m :: 0 <= m < j ==> u[m] == t[m]
    requires forall m :: j < m <= |t| ==> u[m] == t[m - 1]
    requires j > 0 ==> Points(board, t[j - 1]) >= Points(board, x)
    requires forall m :: j <= m < |t| ==> Points(board, t[m]) < Points(board, x)
    ensures u == Insert(board, t, x)
  {
    forall m | 0 <= m < j ensures Points(board, t[m]) >= Points(board, x) {
      assert Points(board, t[m]) >= Points(board, t[j - 1]);
    }
    InsertAt(board, t, x, j);
    var v := t[..j] + [x] + t[j..];
    forall m | 0 <= m < |u| ensures u[m] == v[m] {
      if m < j {
        assert v[m] == t[m];
      } else if m > j {
        assert v[m] == t[m - 1];
      }
    }
    assert u == v;
  }

  /** Moves the rows of `a[..i]` whose key is below `key` one place to the
      right, from the end, and returns the gap left behind. */
  method ShiftRight(board: Board, a: array<Row>, i: nat, key: int) returns (j: nat)
    requires i < a.Length
    modifies a
    ensures j <= i
    ensures forall m :: 0 <= m < j ==> a[m] == old(a[m])
    ensures forall m :: j < m <= i ==> a[m] == old(a[m - 1])
    ensures forall m :: i < m < a.Length ==> a[m] == old(a[m])
    ensures forall m :: j <= m < i ==> Points(board, old(a[m])) < key
    ensures j > 0 ==> Points(board, old(a[j - 1])) >= key
  {
    j := i;
    while j > 0 && Points(board, a[j - 1]) < key
      invariant 0 <= j <= i
      invariant forall m :: 0 <= m < j ==> a[m] == old(a[m])
      invariant forall m :: j < m <= i ==> a[m] == old(a[m - 1])
      invariant forall m :: i < m < a.Length ==> a[m] == old(a[m])
      invariant forall m :: j <= m < i ==> Points(board, old(a[m])) < key
    {
      a[j] := a[j - 1];
      j := j - 1;
    }
  }

  /** One step of the insertion sort: `a[i]` moves into the sorted prefix
      `a[..i]`, the rest of the array is left alone. */
  method InsertInPlace(board: Board, a: array<Row>, i: nat)
    requires i < a.Length && NonIncreasing(board, a[..i])
    modifies a
    ensures a[..i + 1] == Insert(board, old(a[..i]), old(a[i]))
    ensures a[i + 1..] == old(a[i + 1..])
  {
    ghost var orig := a[..];
    var x := a[i];
    var j := ShiftRight(board, a, i, Points(board, x));
    a[j] := x;
    InsertShifted(board, orig[..i], x, j, a[..i + 1]);
    assert a[i + 1..] == orig[i + 1..];
  }

  /** Sorts `a` in place into the order of `SortedByKey`. */
  method SortByKey(board: Board, a: array<Row>)
    modifies a
    ensures a[..] == SortedByKey(board, old(a[..]))
  {
    ghost var orig := a[..];
    var i := 0;
    while i < a.Length
      invariant 0 <= i <= a.Length
      invariant a[..i] == SortedByKey(board, orig[..i])
      invariant a[i..] == orig[i..]
    {
      SortedByKeyOrdered(board, orig[..i]);
      SortedByKeyPrefix(board, orig, i);
      InsertInPlace(board, a, i);
      i := i + 1;
    }
    assert orig[..a.Length] == orig;
  }
}
