/** The effect of the bot's inline-button callbacks on the shared record:
    confirming a prediction, naming the actual symbol after a wrong
    prediction, and confirming or cancelling a reset. Message editing and the
    follow-up prediction message do not change the record and are not part of
    this model. */
module Feedback {
  import opened Stats

  /** Callback data, with the symbol of `pred_<n>` / `correct_<n>` already
      parsed to an integer. */
  datatype Callback =
    | ResetConfirm
    | ResetCancel
    | Pred(symbol: int)
    | Wrong
    | Correct(symbol: int)
    | Unrecognised

  /** `pred_<symbol>`: one of the offered symbols came up. The prediction
      counters move before the symbol is recorded, whether or not the symbol
      is then accepted. */
  function ConfirmPrediction(s: State, symbol: int): (r: State)
    ensures r.correctPredictions == s.correctPredictions + 1
    ensures r.totalPredictions == s.totalPredictions + 1
    ensures r.totalPredictions - r.correctPredictions == s.totalPredictions - s.correctPredictions
    ensures IsSymbol(symbol) ==>
      && r.allCounts[symbol] == s.allCounts[symbol] + 1
      && (forall i :: 0 <= i < SymbolCount && i != symbol ==> r.allCounts[i] == s.allCounts[i])
      && r.totalAll == s.totalAll + 1
      && r.recent == Push(s.recent, symbol)
    ensures !IsSymbol(symbol) ==> r.allCounts == s.allCounts && r.recent == s.recent && r.totalAll == s.totalAll
  {
    var counted := s.(correctPredictions := s.correctPredictions + 1,
                      totalPredictions := s.totalPredictions + 1);
    AddResult(counted, symbol).state
  }

  /** `correct_<symbol>`: the prediction missed and the user named the
      symbol that came up. Only the total of predictions moves. */
  function RecordCorrection(s: State, symbol: int): (r: State)
    ensures r.correctPredictions == s.correctPredictions
    ensures r.totalPredictions == s.totalPredictions + 1
    ensures IsSymbol(symbol) ==>
      && r.allCounts[symbol] == s.allCounts[symbol] + 1
      && (forall i :: 0 <= i < SymbolCount && i != symbol ==> r.allCounts[i] == s.allCounts[i])
      && r.totalAll == s.totalAll + 1
      && r.recent == Push(s.recent, symbol)
    ensures !IsSymbol(symbol) ==> r.allCounts == s.allCounts && r.recent == s.recent && r.totalAll == s.totalAll
  {
    var counted := s.(totalPredictions := s.totalPredictions + 1);
    AddResult(counted, symbol).state
  }

  /** The record after handling one callback: cancelling a reset, asking for
      the full symbol list and unknown data change nothing; confirming a
      reset restores the start-up record. */
  function HandleCallback(s: State, cb: Callback): (r: State)
    ensures cb.ResetCancel? || cb.Wrong? || cb.Unrecognised? ==> r == s
    ensures cb.ResetConfirm? ==> r == Default()
  {
    match cb
    case ResetConfirm => Reset(s)
    case ResetCancel => s
    case Pred(symbol) => ConfirmPrediction(s, symbol)
    case Wrong => s
    case Correct(symbol) => RecordCorrection(s, symbol)
    case Unrecognised => s
  }

  /** Every callback keeps the invariants, in particular that correct
      predictions never outnumber predictions. */
  lemma HandleCallbackPreservesValid(s: State, cb: Callback)
    requires Valid(s)
    ensures Valid(HandleCallback(s, cb))
  {
    match cb
    case Pred(symbol) =>
      AddResultPreservesValid(s.(correctPredictions := s.correctPredictions + 1,
                                 totalPredictions := s.totalPredictions + 1), symbol);
    case Correct(symbol) =>
      AddResultPreservesValid(s.(totalPredictions := s.totalPredictions + 1), symbol);
    case _ =>
  }

  /** The record after a run of callbacks, oldest first. */
  function Run(s: State, cbs: seq<Callback>): State {
    if |cbs| == 0 then s else HandleCallback(Run(s, cbs[..|cbs| - 1]), cbs[|cbs| - 1])
  }

  /** Whatever callbacks arrive, starting from the default record the
      invariants hold: counts sum to the total, the window is at most
      `WindowSize` symbols long, and correct <= total predictions. */
  lemma {:induction false} RunPreservesValid(cbs: seq<Callback>)
    ensures Valid(Run(Default(), cbs))
  {
    if |cbs| == 0 {
      DefaultValid();
    } else {
      RunPreservesValid(cbs[..|cbs| - 1]);
      HandleCallbackPreservesValid(Run(Default(), cbs[..|cbs| - 1]), cbs[|cbs| - 1]);
    }
  }

  /** A confirmed prediction and a correction for the same symbol leave the
      same record, except that the confirmation counts one more correct
      prediction. */
  lemma FeedbackAccuracy(s: State, symbol: int)
    ensures HandleCallback(s, Pred(symbol))
         == HandleCallback(s, Correct(symbol)).(correctPredictions := HandleCallback(s, Correct(symbol)).correctPredictions + 1)
  {
  }

  // ---------------------------------------------------------------------------
  // Interleaving at `await` points

  /** The callback handler is asynchronous: between its `await`s it runs
      these synchronous pieces, and pieces of different callbacks may
      interleave. */
  datatype Segment =
    | CountCorrect        // `pred_`: both prediction counters
    | CountMiss           // `correct_`: the total of predictions only
    | Record(symbol: int) // `addResult` after the message edit
    | ResetAll            // `reset_confirm`

  function ApplySegment(s: State, seg: Segment): State {
    match seg
    case CountCorrect => s.(correctPredictions := s.correctPredictions + 1,
                            totalPredictions := s.totalPredictions + 1)
    case CountMiss => s.(totalPredictions := s.totalPredictions + 1)
    case Record(symbol) => AddResult(s, symbol).state
    case ResetAll => Reset(s)
  }

  /** The segments one callback runs, in order. */
  function Segments(cb: Callback): seq<Segment> {
    match cb
    case ResetConfirm => [ResetAll]
    case Pred(symbol) => [CountCorrect, Record(symbol)]
    case Correct(symbol) => [CountMiss, Record(symbol)]
    case _ => []
  }

  /** The record after a run of segments, oldest first. */
  function RunSegments(s: State, segs: seq<Segment>): State {
    if |segs| == 0 then s else ApplySegment(RunSegments(s, segs[..|segs| - 1]), segs[|segs| - 1])
  }

  /** Run without interruption, a callback's segments have the effect of
      handling the callback as one step. */
  lemma CallbackIsItsSegments(s: State, cb: Callback)
    ensures RunSegments(s, Segments(cb)) == HandleCallback(s, cb)
  {
    var segs := Segments(cb);
    if |segs| == 2 {
      assert segs[..1] == [segs[0]];
      assert segs[..1][..0] == [];
      var mid := ApplySegment(s, segs[0]);
      assert RunSegments(s, segs[..1]) == mid;
      assert RunSegments(s, segs) == ApplySegment(mid, segs[1]);
    } else if |segs| == 1 {
      assert segs[..0] == [];
    }
  }

  lemma SegmentPreservesValid(s: State, seg: Segment)
    requires Valid(s)
    ensures Valid(ApplySegment(s, seg))
  {
    match seg
    case Record(symbol) => AddResultPreservesValid(s, symbol);
    case _ =>
  }

  /** However the segments of concurrent callbacks interleave, starting from
      the default record every invariant holds after each segment. */
  lemma {:induction false} InterleavingPreservesValid(segs: seq<Segment>)
    ensures Valid(RunSegments(Default(), segs))
  {
    if |segs| == 0 {
      DefaultValid();
    } else {
      InterleavingPreservesValid(segs[..|segs| - 1]);
      SegmentPreservesValid(RunSegments(Default(), segs[..|segs| - 1]), segs[|segs| - 1]);
    }
  }

  /** Handled one at a time, callbacks never record more symbols than they
      count predictions. */
  lemma {:induction false} AtomicRunRecordsAtMostPredictions(cbs: seq<Callback>)
    ensures Run(Default(), cbs).totalAll <= Run(Default(), cbs).totalPredictions
  {
    if |cbs| > 0 {
      AtomicRunRecordsAtMostPredictions(cbs[..|cbs| - 1]);
    }
  }

  /** Interleaved, they can: a `pred_` counts its prediction, a
      `reset_confirm` runs while the `pred_` awaits its message edit, and the
      `pred_` then records its symbol. */
  lemma InterleavingExceedsPredictions()
    ensures var r := RunSegments(Default(), [CountCorrect, ResetAll, Record(0)]);
      r.totalAll == 1 && r.totalPredictions == 0
  {
  }
}
