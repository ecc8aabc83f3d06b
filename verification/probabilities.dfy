/** Probability distributions over the symbols, derived from the lifetime
    counters or from the window, with additive smoothing. Probabilities are
    exact reals. */
module Probabilities {
  import opened Stats

  /** The additive smoothing constant. */
  const Smoothing: real := 1.0

  function SumR(xs: seq<real>): real {
    if |xs| == 0 then 0.0 else SumR(xs[..|xs| - 1]) + xs[|xs| - 1]
  }

  /** One probability per symbol, each positive, adding up to one. */
  predicate IsDistribution(p: seq<real>) {
    && |p| == SymbolCount
    && (forall i :: 0 <= i < |p| ==> p[i] > 0.0)
    && SumR(p) == 1.0
  }

  /** Each count plus the smoothing constant, divided by `d`. */
  function Scale(c: seq<nat>, d: real): seq<real>
    requires d > 0.0
  {
    seq(|c|, i requires 0 <= i < |c| => (c[i] as real + Smoothing) / d)
  }

  lemma {:induction false} ScaleSum(c: seq<nat>, d: real)
    requires d > 0.0
    ensures SumR(Scale(c, d)) == (Sum(c) as real + Smoothing * |c| as real) / d
  {
    if |c| > 0 {
      var n := |c| - 1;
      assert Scale(c, d)[..n] == Scale(c[..n], d);
      ScaleSum(c[..n], d);
      var a := Sum(c[..n]) as real + Smoothing * n as real;
      var b := c[n] as real + Smoothing;
      assert a / d + b / d == (a + b) / d;
    }
  }

  /** Additive smoothing: entry i is (c[i] + 1) / (sum of c + |c|). */
  function Smooth(c: seq<nat>): (r: seq<real>)
    ensures |r| == |c|
    ensures forall i :: 0 <= i < |c| ==> r[i] > 0.0
    ensures |c| > 0 ==> SumR(r) == 1.0
  {
    var d := Sum(c) as real + Smoothing * |c| as real;
    if |c| == 0 then []
    else
      ScaleSum(c, d);
      assert d / d == 1.0;
      ScalePositive(c, d);
      Scale(c, d)
  }

  lemma ScalePositive(c: seq<nat>, d: real)
    requires d > 0.0
    ensures forall i :: 0 <= i < |c| ==> Scale(c, d)[i] > 0.0
  {
    forall i | 0 <= i < |c|
      ensures Scale(c, d)[i] > 0.0
    {
      var a := c[i] as real + Smoothing;
      assert a > 0.0;
      assert a / d > 0.0;
    }
  }

  /** The fallback when there is no data: 1/8 for every symbol. */
  function Uniform(): (r: seq<real>)
    ensures IsDistribution(r)
  {
    var u := seq(SymbolCount, _ => 1.0 / SymbolCount as real);
    ZerosSum(Zeros());
    assert u == Smooth(Zeros());
    u
  }

  /** Distribution from the lifetime counters; uniform while nothing has
      been recorded. */
  function GlobalProbabilities(s: State): (r: seq<real>)
    ensures IsDistribution(r)
    ensures s.totalAll == 0 ==> forall i :: 0 <= i < SymbolCount ==> r[i] == 1.0 / SymbolCount as real
  {
    if s.totalAll == 0 then Uniform() else Smooth(s.allCounts)
  }

  /** Per-symbol counts of the window's entries. */
  function WindowCounts(w: seq<int>): Counts {
    seq(SymbolCount, i requires 0 <= i < SymbolCount => Occurrences(w, i))
  }

  /** Distribution from the window; uniform while the window is empty. */
  function LocalProbabilities(s: State): (r: seq<real>)
    ensures IsDistribution(r)
    ensures |s.recent| == 0 ==> forall i :: 0 <= i < SymbolCount ==> r[i] == 1.0 / SymbolCount as real
  {
    if |s.recent| == 0 then Uniform() else Smooth(WindowCounts(s.recent))
  }

  // ---------------------------------------------------------------------------
  // What the distributions mean for records reachable from the default

  /** When the window holds only symbols, its per-symbol counts add up to its
      length. */
  lemma {:induction false} WindowCountsSum(w: seq<int>)
    requires AllSymbols(w)
    ensures Sum(WindowCounts(w)) == |w|
  {
    if |w| > 0 {
      var n := |w| - 1;
      WindowCountsSum(w[..n]);
      var c := WindowCounts(w[..n]);
      assert forall i :: 0 <= i < SymbolCount ==>
        Occurrences(w, i) == Occurrences(w[..n], i) + (if w[n] == i then 1 else 0);
      assert WindowCounts(w) == c[w[n] := c[w[n]] + 1];
      SumIncrement(c, w[n]);
    } else {
      ZerosSum(WindowCounts(w));
    }
  }

  /** In a valid record, entry i of the global distribution is
      (count of i + 1) / (total + 8), including while the total is 0. */
  lemma GlobalMatchesCounts(s: State)
    requires Valid(s)
    ensures forall i :: 0 <= i < SymbolCount ==>
      GlobalProbabilities(s)[i] == (s.allCounts[i] as real + Smoothing) / (s.totalAll as real + Smoothing * SymbolCount as real)
  {
    ZerosSum(s.allCounts);
  }

  /** When every window entry is a symbol, entry i of the local distribution is
      (occurrences of i in the window + 1) / (window length + 8), including
      while the window is empty. */
  lemma LocalMatchesWindow(s: State)
    requires AllSymbols(s.recent)
    ensures forall i :: 0 <= i < SymbolCount ==>
      LocalProbabilities(s)[i] == (Occurrences(s.recent, i) as real + Smoothing) / (|s.recent| as real + Smoothing * SymbolCount as real)
  {
    WindowCountsSum(s.recent);
  }
}
