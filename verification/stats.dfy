/** The shared statistics record of the prediction bot and the operations that
    change it: recording an observed symbol (with the bounded FIFO window) and
    resetting everything to the defaults. */
module Stats {

  /** Number of outcome symbols of the game. */
  const SymbolCount: nat := 8

  /** Maximal length of the window of most recent symbols. */
  const WindowSize: nat := 29

  /** Per-symbol counters: always exactly one entry per symbol. */
  type Counts = c: seq<nat> | |c| == SymbolCount witness [0, 0, 0, 0, 0, 0, 0, 0]

  predicate IsSymbol(x: int) {
    0 <= x < SymbolCount
  }

  /** The record shared by every chat session. */
  datatype State = State(
    allCounts: Counts,
    recent: seq<int>,
    totalAll: nat,
    correctPredictions: nat,
    totalPredictions: nat)

  /** Result of recording a symbol: whether it was accepted, and the new state. */
  datatype Added = Added(accepted: bool, state: State)

  function Zeros(): Counts {
    seq(SymbolCount, _ => 0)
  }

  /** The record as it is built at start-up. */
  function Default(): State {
    State(Zeros(), [], 0, 0, 0)
  }

  function Sum(c: seq<nat>): nat {
    if |c| == 0 then 0 else Sum(c[..|c| - 1]) + c[|c| - 1]
  }

  /** Number of times `x` occurs in `w`. */
  function Occurrences(w: seq<int>, x: int): nat {
    if |w| == 0 then 0
    else Occurrences(w[..|w| - 1], x) + (if w[|w| - 1] == x then 1 else 0)
  }

  predicate AllSymbols(w: seq<int>) {
    forall k :: 0 <= k < |w| ==> IsSymbol(w[k])
  }

  /** The invariants the bookkeeping keeps, starting from the default record. */
  predicate Valid(s: State) {
    && Sum(s.allCounts) == s.totalAll
    && |s.recent| <= WindowSize
    && AllSymbols(s.recent)
    && s.correctPredictions <= s.totalPredictions
  }

  /** Appends `x` to the window and drops the oldest entry once the window
      is longer than `WindowSize`. */
  function Push(w: seq<int>, x: int): (r: seq<int>)
    ensures |r| > 0 && r[|r| - 1] == x
    ensures |w| < WindowSize ==> r == w + [x]
    ensures |w| == WindowSize ==> r == w[1..] + [x]
    ensures |w| <= WindowSize ==> |r| <= WindowSize
  {
    var pushed := w + [x];
    if |pushed| > WindowSize then pushed[1..] else pushed
  }

  /** Records one observed symbol; anything outside [0, SymbolCount) is
      rejected and leaves the record as it was. */
  function AddResult(s: State, symbol: int): (r: Added)
    ensures r.accepted <==> IsSymbol(symbol)
    ensures !r.accepted ==> r.state == s
    ensures r.accepted ==>
      && r.state.allCounts[symbol] == s.allCounts[symbol] + 1
      && (forall i :: 0 <= i < SymbolCount && i != symbol ==> r.state.allCounts[i] == s.allCounts[i])
      && r.state.totalAll == s.totalAll + 1
      && r.state.recent == Push(s.recent, symbol)
    ensures r.state.correctPredictions == s.correctPredictions
    ensures r.state.totalPredictions == s.totalPredictions
  {
    if symbol < 0 || symbol >= SymbolCount then Added(false, s)
    else
      var counts := s.allCounts[symbol := s.allCounts[symbol] + 1];
      Added(true, s.(allCounts := counts, recent := Push(s.recent, symbol), totalAll := s.totalAll + 1))
  }

  /** Replaces every counter by its default, whatever the record held. */
  function Reset(s: State): (r: State)
    ensures forall i :: 0 <= i < SymbolCount ==> r.allCounts[i] == 0
    ensures r.recent == []
    ensures r.totalAll == 0 && r.correctPredictions == 0 && r.totalPredictions == 0
    ensures Valid(r)
  {
    ZerosSum(Zeros());
    Default()
  }

  // ---------------------------------------------------------------------------
  // Counting lemmas

  lemma {:induction false} ZerosSum(c: seq<nat>)
    ensures Sum(c) == 0 <==> forall i :: 0 <= i < |c| ==> c[i] == 0
  {
    if |c| > 0 {
      ZerosSum(c[..|c| - 1]);
      assert forall i :: 0 <= i < |c| - 1 ==> c[..|c| - 1][i] == c[i];
    }
  }

  /** Raising one entry by one raises the total by one. */
  lemma {:induction false} SumIncrement(c: seq<nat>, k: int)
    requires 0 <= k < |c|
    ensures Sum(c[k := c[k] + 1]) == Sum(c) + 1
  {
    var c' := c[k := c[k] + 1];
    if k < |c| - 1 {
      assert c'[..|c| - 1] == c[..|c| - 1][k := c[k] + 1];
      SumIncrement(c[..|c| - 1], k);
    } else {
      assert c'[..|c| - 1] == c[..|c| - 1];
    }
  }

  lemma AddResultPreservesValid(s: State, symbol: int)
    requires Valid(s)
    ensures Valid(AddResult(s, symbol).state)
  {
    if IsSymbol(symbol) {
      SumIncrement(s.allCounts, symbol);
      var r := AddResult(s, symbol).state;
      assert r.allCounts == s.allCounts[symbol := s.allCounts[symbol] + 1];
    }
  }

  lemma DefaultValid()
    ensures Valid(Default())
  {
    ZerosSum(Zeros());
  }

  // ---------------------------------------------------------------------------
  // Replaying a sequence of observations

  /** Records every symbol of `syms`, in order. */
  function RecordAll(s: State, syms: seq<int>): State {
    if |syms| == 0 then s
    else AddResult(RecordAll(s, syms[..|syms| - 1]), syms[|syms| - 1]).state
  }

  /** The symbols of `syms` that the range check accepts, in order. */
  function Accepted(syms: seq<int>): (r: seq<int>)
    ensures AllSymbols(r)
    ensures |r| <= |syms|
  {
    if |syms| == 0 then []
    else
      var init := Accepted(syms[..|syms| - 1]);
      if IsSymbol(syms[|syms| - 1]) then init + [syms[|syms| - 1]] else init
  }

  /** The last `n` elements of `xs`, or all of them when there are fewer. */
  function LastN(xs: seq<int>, n: nat): (r: seq<int>)
    ensures |r| == if |xs| <= n then |xs| else n
    ensures r == xs[|xs| - |r|..]
  {
    if |xs| <= n then xs else xs[|xs| - n..]
  }

  /** Pushing onto a window that holds the last `WindowSize` symbols of a
      history gives the last `WindowSize` symbols of the extended history. */
  lemma PushLastN(h: seq<int>, x: int)
    ensures Push(LastN(h, WindowSize), x) == LastN(h + [x], WindowSize)
  {
    if |h| > WindowSize {
      assert LastN(h, WindowSize)[1..] + [x] == (h + [x])[|h| + 1 - WindowSize..];
    }
  }

  /** From a record whose window is within bounds, replaying `syms` leaves in
      the window the last `WindowSize` accepted symbols of the old window
      followed by the accepted ones of `syms`. */
  lemma {:induction false} RecordAllWindow(s: State, syms: seq<int>)
    requires |s.recent| <= WindowSize
    ensures RecordAll(s, syms).recent == LastN(s.recent + Accepted(syms), WindowSize)
  {
    if |syms| > 0 {
      var init := syms[..|syms| - 1];
      var x := syms[|syms| - 1];
      RecordAllWindow(s, init);
      if IsSymbol(x) {
        PushLastN(s.recent + Accepted(init), x);
        assert s.recent + Accepted(syms) == s.recent + Accepted(init) + [x];
      }
    }
  }

  /** Replaying `syms` adds to each counter the number of times its symbol
      occurs in `syms`, and to the total the number of accepted symbols. */
  lemma {:induction false} RecordAllCounts(s: State, syms: seq<int>)
    ensures forall i :: 0 <= i < SymbolCount ==>
      RecordAll(s, syms).allCounts[i] == s.allCounts[i] + Occurrences(syms, i)
    ensures RecordAll(s, syms).totalAll == s.totalAll + |Accepted(syms)|
    ensures RecordAll(s, syms).correctPredictions == s.correctPredictions
    ensures RecordAll(s, syms).totalPredictions == s.totalPredictions
  {
    if |syms| > 0 {
      RecordAllCounts(s, syms[..|syms| - 1]);
    }
  }

  /** Starting from the default record, the window always holds the last
      min(WindowSize, n) of the n accepted symbols, each counter equals the
      number of occurrences of its symbol, and the invariants hold. */
  lemma FromDefault(syms: seq<int>)
    ensures RecordAll(Default(), syms).recent == LastN(Accepted(syms), WindowSize)
    ensures forall i :: 0 <= i < SymbolCount ==> RecordAll(Default(), syms).allCounts[i] == Occurrences(syms, i)
    ensures RecordAll(Default(), syms).totalAll == |Accepted(syms)|
    ensures Valid(RecordAll(Default(), syms))
  {
    RecordAllWindow(Default(), syms);
    assert Default().recent + Accepted(syms) == Accepted(syms);
    RecordAllCounts(Default(), syms);
    DefaultValid();
    RecordAllValid(Default(), syms);
  }

  lemma {:induction false} RecordAllValid(s: State, syms: seq<int>)
    requires Valid(s)
    ensures Valid(RecordAll(s, syms))
  {
    if |syms| > 0 {
      RecordAllValid(s, syms[..|syms| - 1]);
      AddResultPreservesValid(RecordAll(s, syms[..|syms| - 1]), syms[|syms| - 1]);
    }
  }
}
