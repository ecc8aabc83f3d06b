/** Ranking of symbol indices by descending key. The bot sorts an index-ordered
    array with a stable comparison sort on the key alone, so equal keys keep
    ascending index order: the ranking is the sort by the strict total order
    `Before` below, and that order has exactly one sorted arrangement. */
module Ranking {

  /** `i` ranks ahead of `j`: larger key, or equal key and smaller index. */
  predicate Before(p: seq<real>, i: int, j: int)
    requires 0 <= i < |p| && 0 <= j < |p|
  {
    p[i] > p[j] || (p[i] == p[j] && i < j)
  }

  predicate InRange(p: seq<real>, xs: seq<int>) {
    forall k :: 0 <= k < |xs| ==> 0 <= xs[k] < |p|
  }

  predicate Distinct(xs: seq<int>) {
    forall a, b :: 0 <= a < b < |xs| ==> xs[a] != xs[b]
  }

  predicate Sorted(p: seq<real>, xs: seq<int>)
    requires InRange(p, xs)
  {
    forall a, b :: 0 <= a < b < |xs| ==> Before(p, xs[a], xs[b])
  }

  /** The indices 0, 1, ..., n - 1 in ascending order. */
  function Indices(n: nat): (r: seq<int>)
    ensures |r| == n
    ensures forall k :: 0 <= k < n ==> r[k] == k
  {
    seq(n, k requires 0 <= k < n => k)
  }

  /** Inserts `x` into the sorted `xs` at its place. */
  function Insert(p: seq<real>, x: int, xs: seq<int>): (r: seq<int>)
    requires 0 <= x < |p| && InRange(p, xs) && Sorted(p, xs) && x !in xs
    ensures InRange(p, r) && Sorted(p, r)
    ensures multiset(r) == multiset(xs) + multiset{x}
    decreases |xs|
  {
    if |xs| == 0 then [x]
    else if Before(p, x, xs[0]) then
      ConsSorted(p, x, xs);
      [x] + xs
    else
      var t := Insert(p, x, xs[1..]);
      InsertTail(p, x, xs, t);
      [xs[0]] + t
  }

  /** Putting `h` in front of a sorted sequence keeps it sorted when `h` ranks
      ahead of the sequence's first element. */
  lemma ConsSorted(p: seq<real>, h: int, t: seq<int>)
    requires 0 <= h < |p| && InRange(p, t) && Sorted(p, t)
    requires |t| > 0 ==> Before(p, h, t[0])
    ensures InRange(p, [h] + t) && Sorted(p, [h] + t)
  {
  }

  /** The step of `Insert` that keeps the head of `xs` in front. */
  lemma InsertTail(p: seq<real>, x: int, xs: seq<int>, t: seq<int>)
    requires 0 <= x < |p| && InRange(p, xs) && Sorted(p, xs) && x !in xs
    requires |xs| > 0 && !Before(p, x, xs[0])
    requires InRange(p, t) && Sorted(p, t)
    requires multiset(t) == multiset(xs[1..]) + multiset{x}
    ensures InRange(p, [xs[0]] + t) && Sorted(p, [xs[0]] + t)
    ensures multiset([xs[0]] + t) == multiset(xs) + multiset{x}
  {
    assert xs == [xs[0]] + xs[1..];
    if |t| > 0 {
      assert t[0] in multiset(t);
      if t[0] != x {
        assert t[0] in xs[1..];
      }
    }
    ConsSorted(p, xs[0], t);
  }

  /** Insertion sort of `xs` by `Before`. */
  function Rank(p: seq<real>, xs: seq<int>): (r: seq<int>)
    requires InRange(p, xs) && Distinct(xs)
    ensures InRange(p, r) && Sorted(p, r)
    ensures multiset(r) == multiset(xs)
    ensures |r| == |xs|
  {
    if |xs| == 0 then []
    else
      var n := |xs| - 1;
      var init := Rank(p, xs[..n]);
      assert xs == xs[..n] + [xs[n]];
      assert xs[n] !in multiset(xs[..n]);
      var r := Insert(p, xs[n], init);
      assert |r| == |multiset(r)|;
      r
  }

  /** The first `k` symbols of the ranking of all indices of `p`. */
  function TopK(p: seq<real>, k: nat): seq<int>
    requires k <= |p|
  {
    Rank(p, Indices(|p|))[..k]
  }

  // ---------------------------------------------------------------------------

  /** A sorted arrangement is determined by its elements: any correct sort by
      `Before`, stable or not, produces the same sequence. */
  lemma {:induction false} SortedUnique(p: seq<real>, a: seq<int>, b: seq<int>)
    requires InRange(p, a) && InRange(p, b)
    requires Sorted(p, a) && Sorted(p, b)
    requires multiset(a) == multiset(b)
    ensures a == b
  {
    assert |a| == |multiset(a)| == |multiset(b)| == |b|;
    if |a| > 0 {
      assert a[0] in multiset(b) && b[0] in multiset(a);
      HeadsAgree(p, a, b);
      assert a == [a[0]] + a[1..] && b == [b[0]] + b[1..];
      assert multiset(a) == multiset{a[0]} + multiset(a[1..]);
      assert multiset(b) == multiset{b[0]} + multiset(b[1..]);
      assert multiset(a[1..]) == multiset(a) - multiset{a[0]};
      assert multiset(b[1..]) == multiset(b) - multiset{a[0]};
      SortedUnique(p, a[1..], b[1..]);
    }
  }

  /** The head of a sorted sequence ranks ahead of every other element. */
  lemma HeadAhead(p: seq<real>, a: seq<int>, x: int)
    requires InRange(p, a) && Sorted(p, a)
    requires x in a && x != a[0]
    ensures 0 <= x < |p| && Before(p, a[0], x)
  {
    var i :| 0 <= i < |a| && a[i] == x;
  }

  lemma HeadsAgree(p: seq<real>, a: seq<int>, b: seq<int>)
    requires InRange(p, a) && InRange(p, b)
    requires Sorted(p, a) && Sorted(p, b)
    requires multiset(a) == multiset(b) && |a| > 0 && |b| > 0
    ensures a[0] == b[0]
  {
    assert a[0] in multiset(b) && b[0] in multiset(a);
    if a[0] != b[0] {
      HeadAhead(p, a, b[0]);
      HeadAhead(p, b, a[0]);
    }
  }

  /** What the first `k` of the ranking are: `k` distinct indices in
      ranking order, each ahead of every index left out. */
  lemma TopKSpec(p: seq<real>, k: nat)
    requires k <= |p|
    ensures |TopK(p, k)| == k
    ensures InRange(p, TopK(p, k)) && Distinct(TopK(p, k))
    ensures Sorted(p, TopK(p, k))
    ensures forall a, j :: 0 <= a < k && 0 <= j < |p| && j !in TopK(p, k) ==> Before(p, TopK(p, k)[a], j)
  {
    var all := Rank(p, Indices(|p|));
    var r := TopK(p, k);
    assert |all| == |multiset(all)| == |multiset(Indices(|p|))| == |p|;
    forall a, j | 0 <= a < k && 0 <= j < |p| && j !in r
      ensures Before(p, r[a], j)
    {
      assert Indices(|p|)[j] == j;
      assert j in multiset(all);
      var m :| 0 <= m < |all| && all[m] == j;
      assert m >= k;
    }
  }

  /** Ranking depends only on the order `Before` induces: two key sequences
      that order every pair of indices alike rank all indices alike. */
  lemma SameOrderSameTopK(p: seq<real>, q: seq<real>, k: nat)
    requires |p| == |q| && k <= |p|
    requires forall i, j :: 0 <= i < |p| && 0 <= j < |p| ==> (Before(p, i, j) <==> Before(q, i, j))
    ensures TopK(p, k) == TopK(q, k)
  {
    var rp := Rank(p, Indices(|p|));
    var rq := Rank(q, Indices(|q|));
    assert Sorted(q, rp);
    SortedUnique(q, rp, rq);
  }
}
