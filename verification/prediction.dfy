/** The four symbols offered as the next prediction: the top of the ranking of
    all symbols by local (window) probability. */
module Prediction {
  import opened Stats
  import opened Probabilities
  import opened Ranking

  /** Number of symbols offered per prediction. */
  const PredictionSize: nat := 4

  /** The four most probable symbols under the local distribution, most
      probable first, lower symbol first among equals. */
  function Top4Symbols(s: State): (r: seq<int>)
    ensures |r| == PredictionSize
    ensures forall k :: 0 <= k < |r| ==> IsSymbol(r[k])
    ensures Distinct(r)
    ensures var p := LocalProbabilities(s);
      && InRange(p, r)
      && (forall a :: 0 <= a < |r| - 1 ==> p[r[a]] >= p[r[a + 1]])
      && (forall a, b :: 0 <= a < b < |r| && p[r[a]] == p[r[b]] ==> r[a] < r[b])
      && (forall j :: IsSymbol(j) && j !in r ==> p[j] <= p[r[|r| - 1]])
      && (forall j :: IsSymbol(j) && j !in r && p[j] == p[r[|r| - 1]] ==> r[|r| - 1] < j)
  {
    var p := LocalProbabilities(s);
    TopKSpec(p, PredictionSize);
    TopK(p, PredictionSize)
  }

  /** The raw window counts as ranking keys. */
  function CountKeys(c: Counts): (q: seq<real>)
    ensures |q| == SymbolCount
  {
    seq(SymbolCount, i requires 0 <= i < SymbolCount => c[i] as real)
  }

  lemma DivideOrder(x: real, y: real, d: real)
    requires d > 0.0
    ensures x / d > y / d <==> x > y
    ensures x / d == y / d <==> x == y
  {
    assert x / d * d == x && y / d * d == y;
    if x > y {
      assert x / d - y / d == (x - y) / d;
    }
  }

  /** All smoothed entries share one denominator, so when every window entry
      is a symbol the local distribution orders every pair of symbols as the
      raw window counts do. */
  lemma LocalOrderIsCountOrder(s: State)
    requires AllSymbols(s.recent)
    ensures forall i, j :: 0 <= i < SymbolCount && 0 <= j < SymbolCount ==>
      (Before(LocalProbabilities(s), i, j) <==> Before(CountKeys(WindowCounts(s.recent)), i, j))
  {
    var p := LocalProbabilities(s);
    var q := CountKeys(WindowCounts(s.recent));
    var d := |s.recent| as real + Smoothing * SymbolCount as real;
    LocalMatchesWindow(s);
    forall i, j | 0 <= i < SymbolCount && 0 <= j < SymbolCount
      ensures Before(p, i, j) <==> Before(q, i, j)
    {
      assert p[i] == (q[i] + Smoothing) / d && p[j] == (q[j] + Smoothing) / d;
      DivideOrder(q[i] + Smoothing, q[j] + Smoothing, d);
    }
  }

  /** When every window entry is a symbol, the offered symbols are the top of
      the ranking by raw window counts. */
  lemma Top4ByWindowCount(s: State)
    requires AllSymbols(s.recent)
    ensures Top4Symbols(s) == TopK(CountKeys(WindowCounts(s.recent)), PredictionSize)
  {
    LocalOrderIsCountOrder(s);
    SameOrderSameTopK(LocalProbabilities(s), CountKeys(WindowCounts(s.recent)), PredictionSize);
  }

  /** When every window entry is a symbol, the offered symbols are the most
      frequent in the window: more frequent first, lower symbol first among
      equally frequent ones, and no omitted symbol more frequent than the last
      one offered. */
  lemma Top4MostFrequent(s: State)
    requires AllSymbols(s.recent)
    ensures var r := Top4Symbols(s);
      && (forall a, b :: 0 <= a < b < |r| ==>
            Occurrences(s.recent, r[a]) > Occurrences(s.recent, r[b])
            || (Occurrences(s.recent, r[a]) == Occurrences(s.recent, r[b]) && r[a] < r[b]))
      && (forall j :: IsSymbol(j) && j !in r ==> Occurrences(s.recent, j) <= Occurrences(s.recent, r[|r| - 1]))
  {
    Top4ByWindowCount(s);
    TopKSpec(CountKeys(WindowCounts(s.recent)), PredictionSize);
  }

  /** A worked ranking: with one clear favourite, one runner-up and six tied
      symbols, the ties are broken by ascending symbol. */
  lemma TopKExample()
    ensures TopK([0.5, 0.2, 0.05, 0.05, 0.05, 0.05, 0.05, 0.05], PredictionSize) == [0, 1, 2, 3]
  {
    var p := [0.5, 0.2, 0.05, 0.05, 0.05, 0.05, 0.05, 0.05];
    var ix := Indices(8);
    forall a, b | 0 <= a < b < 8
      ensures Before(p, ix[a], ix[b])
    {
      if a >= 2 {
        assert p[a] == 0.05 && p[b] == 0.05;
      }
    }
    var all := Rank(p, ix);
    SortedUnique(p, all, ix);
    assert all[..PredictionSize] == [0, 1, 2, 3];
  }
}
