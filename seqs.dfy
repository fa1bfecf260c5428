/** The query shapes the store uses over its tables: `WHERE` (Filter,
    First), `ORDER BY key DESC` (SortDesc) and `LIMIT n` (Top). */
module Seqs {
  import opened Basics

  /** Every pair of elements, in order, is related by `rel`. */
  ghost predicate Pairwise<T>(xs: seq<T>, rel: (T, T) -> bool) {
    forall i, j :: 0 <= i < j < |xs| ==> rel(xs[i], xs[j])
  }

  /** No two elements share a key. */
  ghost predicate DistinctKeys<T>(xs: seq<T>, key: T -> int) {
    forall i, j :: 0 <= i < j < |xs| ==> key(xs[i]) != key(xs[j])
  }

  /** The elements that satisfy `keep`, in their original order. */
  function Filter<T(==,!new)>(xs: seq<T>, keep: T -> bool): (r: seq<T>)
    ensures |r| <= |xs|
    ensures forall x :: x in r <==> x in xs && keep(x)
  {
    if xs == [] then []
    else (if keep(xs[0]) then [xs[0]] else []) + Filter(xs[1..], keep)
  }

  /** Filtering keeps whatever relation held between every ordered pair. */
  lemma {:induction false} FilterPairwise<T(!new)>(xs: seq<T>, keep: T -> bool, rel: (T, T) -> bool)
    requires Pairwise(xs, rel)
    ensures Pairwise(Filter(xs, keep), rel)
    decreases |xs|
  {
    if xs != [] {
      assert Pairwise(xs[1..], rel);
      FilterPairwise(xs[1..], keep, rel);
      var tail := Filter(xs[1..], keep);
      forall y | y in tail ensures rel(xs[0], y) {
        var j :| 0 <= j < |xs[1..]| && xs[1..][j] == y;
        assert xs[j + 1] == y;
      }
    }
  }

  /** Appending an element related to every earlier one keeps the relation. */
  lemma PairwiseAppend<T>(xs: seq<T>, y: T, rel: (T, T) -> bool)
    requires Pairwise(xs, rel)
    requires forall i :: 0 <= i < |xs| ==> rel(xs[i], y)
    ensures Pairwise(xs + [y], rel)
  {
    var r := xs + [y];
    forall i, j | 0 <= i < j < |r| ensures rel(r[i], r[j]) {
      assert r[i] == xs[i];
      if j < |xs| {
        assert r[j] == xs[j];
      }
    }
  }

  /** The first element that satisfies `p`: the row a `fetchone()` returns. */
  function First<T>(xs: seq<T>, p: T -> bool): (r: Option<T>)
    ensures r.None? <==> forall i :: 0 <= i < |xs| ==> !p(xs[i])
    ensures r.Some? ==> exists i :: 0 <= i < |xs| && xs[i] == r.value && p(xs[i]) &&
                                   forall j :: 0 <= j < i ==> !p(xs[j])
  {
    if xs == [] then None
    else if p(xs[0]) then Some(xs[0])
    else
      var r := First(xs[1..], p);
      assert forall i :: 1 <= i < |xs| ==> xs[i] == xs[1..][i - 1];
      r
  }

  /** Index of the first element with the largest key. */
  function MaxIndex<T>(xs: seq<T>, key: T -> int): (k: nat)
    requires |xs| > 0
    ensures k < |xs|
    ensures forall j :: 0 <= j < |xs| ==> key(xs[j]) <= key(xs[k])
    ensures forall j :: 0 <= j < k ==> key(xs[j]) < key(xs[k])
  {
    if |xs| == 1 then 0
    else
      var k := MaxIndex(xs[1..], key);
      if key(xs[0]) >= key(xs[1..][k]) then 0 else k + 1
  }

  /** Keys never increase along `r`. */
  ghost predicate Descending<T>(r: seq<T>, key: T -> int) {
    forall i, j :: 0 <= i < j < |r| ==> key(r[i]) >= key(r[j])
  }

  /** Keys strictly decrease along `r`. */
  ghost predicate StrictlyDescending<T>(r: seq<T>, key: T -> int) {
    forall i, j :: 0 <= i < j < |r| ==> key(r[i]) > key(r[j])
  }

  lemma RemoveAt<T>(xs: seq<T>, k: nat)
    requires k < |xs|
    ensures multiset(xs) == multiset(xs[..k] + xs[k + 1..]) + multiset{xs[k]}
    ensures forall y :: y in xs[..k] + xs[k + 1..] ==> y in xs
  {
    assert xs == xs[..k] + [xs[k]] + xs[k + 1..];
  }

  lemma PrependLargest<T>(x: T, tail: seq<T>, key: T -> int)
    requires Descending(tail, key)
    requires forall i :: 0 <= i < |tail| ==> key(tail[i]) <= key(x)
    ensures Descending([x] + tail, key)
  {
    var r := [x] + tail;
    forall i, j | 0 <= i < j < |r| ensures key(r[i]) >= key(r[j]) {
      assert r[j] == tail[j - 1];
      if i > 0 {
        assert r[i] == tail[i - 1];
      }
    }
  }

  /** `ORDER BY key DESC`: a permutation of `xs` whose keys never increase. */
  function SortDesc<T(==,!new)>(xs: seq<T>, key: T -> int): (r: seq<T>)
    ensures multiset(r) == multiset(xs)
    ensures Descending(r, key)
    decreases |xs|
  {
    if xs == [] then []
    else
      var k := MaxIndex(xs, key);
      var tail := SortDesc(xs[..k] + xs[k + 1..], key);
      SortStep(xs, k, tail, key);
      [xs[k]] + tail
  }

  /** Putting a largest element in front of the sorted rest sorts the whole. */
  lemma SortStep<T>(xs: seq<T>, k: nat, tail: seq<T>, key: T -> int)
    requires k < |xs| && forall j :: 0 <= j < |xs| ==> key(xs[j]) <= key(xs[k])
    requires multiset(tail) == multiset(xs[..k] + xs[k + 1..]) && Descending(tail, key)
    ensures multiset([xs[k]] + tail) == multiset(xs)
    ensures Descending([xs[k]] + tail, key)
  {
    RemoveAt(xs, k);
    forall i | 0 <= i < |tail| ensures key(tail[i]) <= key(xs[k]) {
      assert tail[i] in multiset(xs[..k] + xs[k + 1..]);
      assert tail[i] in xs;
    }
    PrependLargest(xs[k], tail, key);
  }

  lemma RemoveAtDistinct<T>(xs: seq<T>, k: nat, key: T -> int)
    requires k < |xs| && DistinctKeys(xs, key)
    ensures DistinctKeys(xs[..k] + xs[k + 1..], key)
    ensures forall y :: y in xs[..k] + xs[k + 1..] ==> key(y) != key(xs[k])
  {
    var rest := xs[..k] + xs[k + 1..];
    forall m | 0 <= m < |rest| ensures rest[m] == xs[if m < k then m else m + 1] {
    }
    forall i, j | 0 <= i < j < |rest| ensures key(rest[i]) != key(rest[j]) {
      var i' := if i < k then i else i + 1;
      var j' := if j < k then j else j + 1;
      assert rest[i] == xs[i'] && rest[j] == xs[j'];
    }
    forall y | y in rest ensures key(y) != key(xs[k]) {
      var m :| 0 <= m < |rest| && rest[m] == y;
      var m' := if m < k then m else m + 1;
      assert xs[m'] == y && m' != k;
    }
  }

  lemma PrependStrict<T>(x: T, tail: seq<T>, key: T -> int)
    requires StrictlyDescending(tail, key)
    requires forall i :: 0 <= i < |tail| ==> key(tail[i]) < key(x)
    ensures StrictlyDescending([x] + tail, key)
  {
    var r := [x] + tail;
    forall i, j | 0 <= i < j < |r| ensures key(r[i]) > key(r[j]) {
      assert r[j] == tail[j - 1];
      if i > 0 {
        assert r[i] == tail[i - 1];
      }
    }
  }

  /** With distinct keys the order is strictly descending. */
  lemma {:induction false} SortDescStrict<T(!new)>(xs: seq<T>, key: T -> int)
    requires DistinctKeys(xs, key)
    ensures StrictlyDescending(SortDesc(xs, key), key)
    decreases |xs|
  {
    if xs != [] {
      var k := MaxIndex(xs, key);
      var rest := xs[..k] + xs[k + 1..];
      RemoveAtDistinct(xs, k, key);
      SortDescStrict(rest, key);
      var tail := SortDesc(rest, key);
      var r := SortDesc(xs, key);
      assert r == [xs[k]] + tail;
      StrictHead(xs[k], tail, rest, key);
    }
  }

  lemma StrictHead<T>(x: T, tail: seq<T>, rest: seq<T>, key: T -> int)
    requires multiset(tail) == multiset(rest) && forall y :: y in rest ==> key(y) != key(x)
    requires Descending([x] + tail, key) && StrictlyDescending(tail, key)
    ensures StrictlyDescending([x] + tail, key)
  {
    forall i | 0 <= i < |tail| ensures key(tail[i]) < key(x) {
      assert tail[i] in multiset(rest);
      assert tail[i] in rest;
      assert ([x] + tail)[i + 1] == tail[i];
      assert key(([x] + tail)[0]) >= key(([x] + tail)[i + 1]);
    }
    PrependStrict(x, tail, key);
  }

  /** The first `n` elements, or all of them when there are fewer. */
  function Take<T>(xs: seq<T>, n: nat): (r: seq<T>)
    ensures |r| <= n && |r| <= |xs| && (|r| < n ==> r == xs)
    ensures r == xs[..|r|]
  {
    if n < |xs| then xs[..n] else xs
  }

  lemma TakeDescending<T(!new)>(sorted: seq<T>, key: T -> int, n: nat)
    requires Descending(sorted, key)
    ensures Descending(Take(sorted, n), key)
    ensures forall x, y :: x in sorted && x !in Take(sorted, n) && y in Take(sorted, n) ==>
              |Take(sorted, n)| == n && key(x) <= key(y)
  {
    var r := Take(sorted, n);
    forall x, y | x in sorted && x !in r && y in r
      ensures |r| == n && key(x) <= key(y)
    {
      var m :| 0 <= m < |sorted| && sorted[m] == x;
      var i :| 0 <= i < |r| && r[i] == y;
      assert sorted[i] == y;
      assert i < m;
    }
  }

  /** `WHERE keep ORDER BY key DESC LIMIT n`. */
  function Top<T(==,!new)>(xs: seq<T>, keep: T -> bool, key: T -> int, n: nat): (r: seq<T>)
    ensures |r| <= n
    ensures forall x :: x in r ==> x in xs && keep(x)
    ensures Descending(r, key)
    ensures forall x, y :: x in xs && keep(x) && x !in r && y in r ==> |r| == n && key(x) <= key(y)
  {
    var filtered := Filter(xs, keep);
    var sorted := SortDesc(filtered, key);
    assert forall x :: x in sorted <==> x in multiset(filtered);
    TakeDescending(sorted, key, n);
    Take(sorted, n)
  }

  lemma TakeStrict<T(!new)>(sorted: seq<T>, key: T -> int, n: nat)
    requires StrictlyDescending(sorted, key)
    ensures StrictlyDescending(Take(sorted, n), key)
    ensures forall x, y :: x in sorted && x !in Take(sorted, n) && y in Take(sorted, n) ==> key(x) < key(y)
  {
    var r := Take(sorted, n);
    forall x, y | x in sorted && x !in r && y in r
      ensures key(x) < key(y)
    {
      var m :| 0 <= m < |sorted| && sorted[m] == x;
      var i :| 0 <= i < |r| && r[i] == y;
      assert sorted[i] == y;
      assert i < m;
    }
  }

  /** Under distinct keys the top `n` are strictly descending, and every
      row left out ranks strictly below each row returned. */
  lemma TopStrict<T(!new)>(xs: seq<T>, keep: T -> bool, key: T -> int, n: nat)
    requires DistinctKeys(Filter(xs, keep), key)
    ensures StrictlyDescending(Top(xs, keep, key, n), key)
    ensures forall x, y :: x in xs && keep(x) && x !in Top(xs, keep, key, n) && y in Top(xs, keep, key, n) ==>
              key(x) < key(y)
  {
    var filtered := Filter(xs, keep);
    SortDescStrict(filtered, key);
    var sorted := SortDesc(filtered, key);
    TakeStrict(sorted, key, n);
    assert Top(xs, keep, key, n) == Take(sorted, n);
    forall x | x in xs && keep(x) ensures x in sorted {
      assert x in multiset(filtered);
    }
  }
}
