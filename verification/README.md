# Prediction-bot statistics, modelled in Dafny

The bot in `index.js` is a Telegram assistant for an 8-symbol guessing game.
Around its chat plumbing sits a small statistics engine. It works on one
shared record, `sharedData`, which holds:

- per-symbol lifetime counts (`allCounts`, 8 entries);
- a FIFO window `recent` of the last 29 observed symbols;
- the total number of observations, `totalAll`;
- the prediction-accuracy counters `correctPredictions` and `totalPredictions`.

The engine has these operations:

- `addResult` records one symbol.
- `resetSharedData` clears everything.
- `getGlobalProbabilities` and `getLocalProbabilities` turn counts into
  distributions with additive smoothing (constant 1).
- `getTop4Symbols` offers the four symbols that are most probable in the
  window.
- The callback handler updates the accuracy counters before it records a
  symbol.

The model is functional. `Stats.State` is an immutable record, every
operation is a pure function, and probabilities are exact reals.

- `stats.dfy` (module `Stats`): the record, `AddResult` with its window
  `Push`, `Reset`, the invariant `Valid`, and replay of symbol sequences.
- `probabilities.dfy` (module `Probabilities`): smoothing, the uniform
  fallback, and the global and local distributions.
- `ranking.dfy` (module `Ranking`): the ranking order and an insertion
  sort by it. It also proves that a sorted arrangement is unique.
- `prediction.dfy` (module `Prediction`): the four offered symbols.
- `feedback.dfy` (module `Feedback`): the effect of each callback on the
  record. It also covers the synchronous segments the asynchronous handler
  runs between its `await`s, which callbacks running at the same time may
  interleave.

The bot sorts with JavaScript's stable `Array.prototype.sort`, comparing
probability alone, over an array built in symbol order. Its result is
therefore the sort by "higher probability first, lower symbol first among
equals". The model defines exactly that strict total order (`Ranking.Before`).
`Ranking.SortedUnique` proves that only one arrangement is sorted by it. So
any correct sort, including the stable one the bot uses, yields the ranking
the model computes.

## Model

| member | source | states |
|---|---|---|
| Stats.AddResult | index.js:50-58 | A symbol outside [0, 8) is rejected with `false` and the record is unchanged. A valid symbol is accepted: its count rises by exactly 1, every other count is unchanged, the total rises by 1, the symbol is pushed onto the window, and the prediction counters are untouched |
| Stats.Push | index.js:53-54 | The pushed symbol is the last window entry. Below 29 entries the window just grows. At 29 entries the oldest entry is evicted. A window of at most 29 stays at most 29 |
| Stats.Reset | index.js:60-67 | Whatever the previous record, the result has all counts 0, an empty window and all three totals 0, and it satisfies the invariants |
| Stats.DefaultValid | index.js:21-27 | The start-up record satisfies the invariants: counts sum to the total, window ≤ 29 symbols, all in range, correct ≤ total predictions |
| Stats.AddResultPreservesValid | index.js:50-58 | Recording any integer, valid or not, keeps every invariant. This includes sum(allCounts) == totalAll and all window entries lying in [0, 8) |
| Stats.RecordAllWindow | index.js:53-54 | After replaying a sequence, the window is the last 29 entries of the old window followed by the accepted symbols |
| Stats.RecordAllCounts | index.js:52-55 | Replaying a sequence adds, to each count, the occurrences of that symbol, and to the total, the number of accepted symbols. The prediction counters are unchanged |
| Stats.RecordAllValid | index.js:50-58 | Replaying any sequence of integers from a valid record keeps the invariants |
| Stats.FromDefault | index.js:50-58 | From the start-up record, the window is the last min(29, n) of the n accepted symbols. Each count equals the occurrences of its symbol, and the total equals the number of accepted symbols |
| Probabilities.Smooth | index.js:72-74 | Additive smoothing of a count vector keeps its length and gives strictly positive entries that sum to exactly 1 |
| Probabilities.Uniform | index.js:71 | The fallback has 8 positive entries that sum to 1 |
| Probabilities.GlobalProbabilities | index.js:69-75 | The global distribution has 8 positive entries that sum to 1. Each entry is 1/8 when nothing has been recorded |
| Probabilities.LocalProbabilities | index.js:77-86 | The local distribution has 8 positive entries that sum to 1. Each entry is 1/8 when the window is empty |
| Probabilities.WindowCountsSum | index.js:81-82 | If the window holds only symbols in range, its per-symbol counts sum to its length |
| Probabilities.GlobalMatchesCounts | index.js:69-75 | In a valid record, global entry i equals (count of i + 1) / (totalAll + 8). This holds in the uniform-fallback case too |
| Probabilities.LocalMatchesWindow | index.js:77-86 | When every window entry is a symbol, local entry i equals (occurrences of i in the window + 1) / (window length + 8). This holds on an empty window too |
| Ranking.Insert | index.js:91 | Insertion into a sorted sequence keeps it sorted by the ranking order and adds exactly the inserted index |
| Ranking.Rank | index.js:90-91 | Sorting a list of distinct indices gives a permutation of it that is sorted by the ranking order: higher key first, lower index first among equals |
| Ranking.SortedUnique | index.js:91 | Two sequences with the same elements that are both sorted by the ranking order are equal. So any correct sort by the ranking order gives the same ranking |
| Ranking.TopKSpec | index.js:88-92 | The first k of the ranking are k distinct in-range indices in ranking order. Each one ranks ahead of every index left out |
| Ranking.SameOrderSameTopK | index.js:91 | Two key vectors that order every pair of indices the same way have the same top k |
| Prediction.Top4Symbols | index.js:88-93 | Returns 4 distinct symbols in [0, 8). Their local probabilities are non-increasing, and equal probabilities come in ascending symbol order. No omitted symbol is more probable than the fourth symbol offered, and an omitted symbol that ties with it has a higher index |
| Prediction.LocalOrderIsCountOrder | index.js:83-85 | When every window entry is a symbol, the local probabilities order every pair of symbols the same way the raw window counts do, because all entries share one denominator |
| Prediction.Top4ByWindowCount | index.js:88-92 | When every window entry is a symbol, ranking by local probability and ranking by raw window count give the same 4 symbols in the same order |
| Prediction.Top4MostFrequent | index.js:88-92 | When every window entry is a symbol, the offered symbols are the most frequent in the window. A more frequent symbol comes first, and among equally frequent symbols the lower one comes first. No omitted symbol is more frequent than the last symbol offered |
| Prediction.TopKExample | index.js:88-92 | Keys [0.5, 0.2, 0.05 ×6] give the top four [0, 1, 2, 3]: the six-way tie is broken by ascending symbol |
| Feedback.ConfirmPrediction | index.js:209-218 | `pred_`: correct and total predictions each rise by 1, even if the symbol is then rejected. For a valid symbol, its count rises by 1, every other count is unchanged, the total rises by 1 and the symbol is pushed onto the window. For an invalid symbol, counts, window and total are unchanged |
| Feedback.RecordCorrection | index.js:229-237 | `correct_`: only total predictions rises by 1, and correct predictions is unchanged. For a valid symbol, its count rises by 1, every other count is unchanged, the total rises by 1 and the symbol is pushed onto the window. For an invalid symbol, counts, window and total are unchanged |
| Feedback.HandleCallback | index.js:193-239 | `reset_cancel`, `wrong` and unrecognised data leave the record unchanged. `reset_confirm` yields the start-up record. `pred_` and `correct_` act as `ConfirmPrediction` and `RecordCorrection` |
| Feedback.HandleCallbackPreservesValid | index.js:186-240 | Every callback keeps the invariants. These include correct ≤ total predictions and, for `reset_confirm`, the reset record |
| Feedback.RunPreservesValid | index.js:186-240 | Starting from the start-up record, every sequence of callbacks leaves a record that satisfies all invariants |
| Feedback.FeedbackAccuracy | index.js:209-237 | For the same symbol, `pred_` and `correct_` leave the same record except that `pred_` counts one more correct prediction |
| Feedback.CallbackIsItsSegments | index.js:193-239 | Running a callback's synchronous segments without interruption is the same as handling the callback in one step. The segments are the counter bump and then `addResult` for `pred_` and `correct_`, and the reset for `reset_confirm` |
| Feedback.SegmentPreservesValid | index.js:193-237 | Each synchronous segment on its own keeps every invariant. The segments are the reset, the counter bumps of `pred_` and `correct_`, and `addResult` |
| Feedback.InterleavingPreservesValid | index.js:186-240 | Starting from the start-up record, any interleaving of segments from callbacks running at the same time leaves a record that satisfies all invariants |
| Feedback.AtomicRunRecordsAtMostPredictions | index.js:209-237 | If callbacks are handled one at a time, the number of recorded symbols never exceeds the number of predictions counted |
| Feedback.InterleavingExceedsPredictions | index.js:209-218 | With interleaving, that bound fails. A `pred_` bumps its counters, a `reset_confirm` runs while the `pred_` awaits its message edit, and the `pred_` then records its symbol. The result has one recorded symbol and zero predictions |

## Left out

- Telegram I/O is not modelled: the command handlers, message editing, `sendPrediction`, the keyboard builders and the `/start` and `/help` texts (index.js:95-113, 138-184). They are transport and presentation.
- Persistence is not modelled: `loadSharedData` and `saveSharedData` read and write a JSON file (index.js:29-48), which is foreign I/O. Every model run starts from the start-up record. A loaded file is not trusted, because its `||` defaults can break the invariants (for example a wrong-length `allCounts`).
- `getStatsText` (index.js:115-136) is not modelled. It is string formatting with `toFixed` percentages.
- IEEE-754 floating point is not modelled. Probabilities are exact reals, so "sums to 1" holds exactly and there is no rounding.
- Parsing of callback data with `parseInt` is not modelled (index.js:210, 230). The symbol arrives as an integer. In JavaScript, `NaN` slips past the range check of `addResult`, because both comparisons are false. The keyboards never produce such data, so the model does not cover that path.
- `Stats.Counts` fixes `allCounts` at exactly 8 entries. Only a loaded file could change its length.
- Probabilities.LocalProbabilities: `WindowCounts` ignores window entries outside [0, 8). For negative entries JavaScript behaves the same, because `counts[sym]++` writes a property that `map` and `reduce` skip (index.js:82-85). For an entry of 8 or more JavaScript differs: `counts[sym]++` extends the array, and every entry of the result is `NaN`, with 9 or more entries. Such entries cannot arise from the start-up record: `Stats.FromDefault` and `Feedback.RunPreservesValid` show every window entry is in range.
- A rejected `await` ends the callback handler at that point. If `answerCallbackQuery` rejects (index.js:191), the callback changes nothing. If `editMessageText` rejects (index.js:214-217, 233-236), the prediction counters have moved but `addResult` never runs. `Feedback.HandleCallback` and `Feedback.Run` model only callbacks that complete. The cut-short runs are prefixes of a callback's segments. `Feedback.InterleavingPreservesValid` covers them for the invariants, since it holds for every sequence of segments.
- The callback handler is `async` and awaits between bumping the prediction counters and calling `addResult` (index.js:214-217, 233-236). Callbacks may interleave there. `Feedback.Run` treats each callback as one atomic step, so its results, including `Feedback.AtomicRunRecordsAtMostPredictions`, do not cover interleaved states. `Feedback.InterleavingPreservesValid` covers those states for the invariants only. Each synchronous segment is taken to run without interruption, which holds on Node's single thread.
- The Markov transition counts, the batch entry of symbols and the Markov top-3 mode are not modelled. They are not in `index.js`.
