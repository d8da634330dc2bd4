# Verified model of the backtesting validation core

This project models the parts of the `backtesting` package whose correctness is hard to see
from the code, and proves what they promise, for all inputs:

- **Combinatorial purged cross-validation** (`Combinations`, `Factorization`, `PathSearch`, `Hall`,
  `Baranyai`, `CpcvPaths`, `CpcvSplit`, `CpcvEvaluate`). The path search is modelled with its mutable lists, its undo
  and its pruning of paths with equal group unions. The proofs give soundness, exact undo, completeness under the pruning
  (by exchanging the futures of two equal paths), and the counting identity behind its final test. Hall's marriage theorem
  and Baranyai's theorem are proved as well, so the search is known to succeed for every test size that divides the
  number of groups. Splitting is leak free, and assembled paths hold one return per row.
- **Reference machines** (`FillDriven`, `FundingCarry`, `FundingRows`, `LateFills`, `CmeGap`, `CmeGapRows`, `PairsTrading`,
  `PairsScores`, `PositionBefore`). `FillDriven` is the
  shape the machines share: events in time order, fills merged by a moving index, and a position that changes at
  once when there are no fills. One theorem shows that timely fills of a machine's own signals reproduce the run without
  fills; three machines are instances of it, each with the imperative loop proved against it. For each of them every row is
  explained from the events and fills alone: when it is emitted, why, and on which side. For the funding machine the
  exact condition on late fills is proved too.
- **Replay** (`Sorting`, `ReplayTicks`, `Replay`). From signals, book snapshots, closes and trades to ticks, and from ticks
  to orders by per-instrument queues. Signals at non-negative times are all submitted, once, at the first quote that
  reaches them; the exact condition for arbitrary times is proved too.
- **Comparison and gate** (`Gate`), **ledger** (`Ledger`): sorting and comparing signal tables reports nothing exactly when
  the multisets agree, a `REFERENCE_PASS` rests on enough independent engines, and the trade-by-trade ledger marks the
  vectorised equity at every bar.
- **Pipeline** (`Feasibility`, `Checkpoint1`, `Candidates`, `Orchestrator`, `OrchestratorRuns`, `Evidence`, `SharedDirs`). A
  persisted state machine over candidates. Safety, conservation, termination in three sweeps, stop-and-resume, and a reason
  for every history entry and every file, over any sequence of sessions.
- **Derived tables** (`Trades`, `TradesAgree`, `CarryBook`, `StressWindows`, `RowIndex`).

## Where the code is weaker than it looks

Each of these is a theorem with its exact condition, or a concrete input.

- Stopping and resuming a batch can change its final statuses when two different candidates share a directory:
  `derive_candidate_dir` maps `A-x` and `B-x` to one directory, and each overwrites the other's summary.
  A batch is repeatable exactly when a directory belongs to one identity (`SharedDirs.RepeatableExactly`).
- A signal before 1970 on an instrument without quotes gets no closing quote, because that instrument counts as quoted at -1
  (`Replay.EarlySignalStaysPending`); every signal is submitted exactly when each instrument has a signal at a
  non-negative time or a base quote that reaches the signal (`Replay.RunReplay`).
- Trades extracted from weights rebuild the positive-weight rows exactly when no weight jumps over 0
  (`TradesAgree.RebuildsExactly`); a weight that goes from long to short in one row keeps its trade open
  (`TradesAgree.JumpKeepsTradeOpen`).
- Every row of a carry book is delta neutral exactly when all leg columns are distinct, or the z bound is negative and no
  pair is ever active (`CarryBook.NeutralExactly`).
- With an exit rate above the entry rate a carry pair goes in and out on a constant rate between them; otherwise a pair is
  held exactly from a day that opens it to the next that shuts it (`CarryBook.HeldExactly`, `CarryBook.FlickersBetween`).
- A close or fair value of at most a millionth is quoted with a bid that is not below it
  (`ReplayTicks.SurroundsStrictly`).
- Without fills, a CME gap exit is opposite to its entry exactly when no gap was detected in between or the last one has
  the entered direction (`CmeGap.ExitOppositeExactly`); with both directions allowed it can fail
  (`CmeGap.BothWaysCanExitOnEntrySide`).
- Late fills leave the funding machine's rows unchanged exactly when every row between a signal and its fill is quiet in
  both positions (`LateFills.LateFillsExactly`); otherwise an entry is repeated (`LateFills.LateFillExample`).
- A ledger with negative initial equity opens a negative position that it never marks or closes; for positive closes it
  agrees with the vectorised equity exactly when initial equity is not negative or the close stands still while a position
  is wanted (`Ledger.LedgerMarksExactly`).

## Conventions

Floating-point numbers are exact reals, and a missing number stands for NaN or an infinity; in the checkpoint gate, where
they are compared, infinities and NaN are values of their own. Timestamps are integers.
Pandas sorting, filtering, merging and grouping are functions on sequences with their documented meaning; sorts are stable.
Exceptions are results. Probes, runners, logarithms and calibrations are function parameters, and a time budget is the
number of steps that still start before it is spent.

## Model

| member | source | states |
|---|---|---|
| Combinations.CombosCount | backtesting/cpcv.py:133-134 | the enumeration of combinations has comb(n, k) entries |
| Combinations.CombosSound | backtesting/cpcv.py:133 | every entry is an increasing k-tuple of group ids |
| Combinations.CombosComplete | backtesting/cpcv.py:133 | every increasing k-tuple is an entry |
| Combinations.CombosSorted | backtesting/cpcv.py:133 | entries come in strict lexicographic order, so none occurs twice |
| Combinations.ChairIdentity | backtesting/cpcv.py:133-135 | k C(n, k) = n C(n - 1, k - 1), the identity behind the number of paths |
| Factorization.FullByCounting | backtesting/cpcv.py:142-143 | once every combination is placed without overlap, every path covers all groups: the final test always holds |
| Factorization.SwapKeepsFactorization | backtesting/cpcv.py:150-153 | exchanging the futures of two paths with one union of groups keeps a factorization |
| PathSearch.SymmetricBranch | backtesting/cpcv.py:147-153 | if no factorization continues to one path, none continues to a later path with the same union, so skipping it loses nothing |
| PathSearch.Search.Backtrack | backtesting/cpcv.py:141-170 | success extends the placement to a factorization; failure restores both lists exactly and means that no factorization extends it |
| PathSearch.Search.TryPath | backtesting/cpcv.py:160-168 | one branch: append, recurse, and on failure an exact undo with no factorization behind the branch |
| PathSearch.Search.Place | backtesting/cpcv.py:160-162 | placing a combination changes one path's list and group set and nothing else |
| PathSearch.Search.Blocked | backtesting/cpcv.py:155-158 | no factorization continues to a path that is full or overlaps the combination |
| Hall.Marriage | backtesting/cpcv.py:129-175 | Hall's theorem, from which the existence of paths follows: enough neighbours give a matching |
| Baranyai.FactorizationExists | backtesting/cpcv.py:129-175 | Baranyai's theorem: when k divides n the combinations can be distributed over paths that each cover every group once |
| CpcvPaths.AlwaysAlive | backtesting/cpcv.py:172-173 | the search never starts at a dead end when k divides n |
| CpcvPaths.PathComboIndices | backtesting/cpcv.py:129-175 | empty exactly when k does not divide n; otherwise every combination is in exactly one path and every path covers every group exactly once |
| CpcvPaths.FactorizationIsPathSystem | backtesting/cpcv.py:137-175 | what the search leaves behind is a path system |
| CpcvPaths.PathSystemNeedsDivision | backtesting/cpcv.py:130-131 | no path system exists when k does not divide n, so returning none is right |
| CpcvSplit.GroupsPartition | backtesting/cpcv.py:66-72 | the groups are non-empty, contiguous and fill the rows |
| CpcvSplit.GroupBounds | backtesting/cpcv.py:66-71 | each group starts where the one before stopped; the last takes the remainder |
| CpcvSplit.EmbargoCovers | backtesting/cpcv.py:80 | the embargo is the least whole number of rows that covers the fraction |
| CpcvSplit.Cpcv.BuildGroups | backtesting/cpcv.py:58-72 | the three checks in order, and the partition for a valid setting |
| CpcvSplit.Cpcv.ApplyPurgeAndEmbargo | backtesting/cpcv.py:74-103 | train is exactly the rows outside every test group's purge and embargo zone, in order; test is the concatenation of the groups |
| CpcvSplit.Cpcv.Split | backtesting/cpcv.py:177-191 | one pair per combination, in order, without the empty ones |
| CpcvSplit.LeakFree | backtesting/cpcv.py:83-99 | no row is in both sets, and train rows keep more than purge before and more than embargo after every test row |
| CpcvSplit.TestIncreasing | backtesting/cpcv.py:101 | test rows are strictly increasing |
| CpcvSplit.TrainSize | backtesting/cpcv.py:81-102 | train keeps at least n - test - k (purge + embargo) rows |
| CpcvEvaluate.AssemblePath | backtesting/cpcv.py:298-308 | one path's chunks in order: some exactly when every combination of the path has results and one of them a sample, and then exactly their samples, returns as well as rows |
| CpcvEvaluate.PathIsPermutation | backtesting/cpcv.py:297-313 | with full returns a path holds one return for every row |
| CpcvEvaluate.ReturnsConserved | backtesting/cpcv.py:297-313 | over all paths, every combination's returns are used exactly once |
| CpcvEvaluate.EvaluatePaths | backtesting/cpcv.py:291-313 | no series when k does not divide n; otherwise, whatever results are missing, one series for each path of a path system whose combinations all have results and some sample, holding exactly their samples; with all results, comb(n - 1, k - 1) full series |
| FillDriven.DrivenEqualsImmediate | backtesting/differential_validation.py:5507-5579 | if each signal of the run without fills is filled after its event and no later than the next, the run driven by those fills emits the same signals |
| FillDriven.DrainCatchesUp | backtesting/differential_validation.py:6171-6186 | applying due fills before an event brings the driven run level with the immediate one |
| FillDriven.FillsApplied | backtesting/differential_validation.py:5512-5523 | for fills and events in time order, exactly the fills at or before an event have been applied when it is handled |
| FundingCarry.FundingSignals | backtesting/differential_validation.py:5502-5579 | the loop over funding rows with its fill index emits the rows of the machine's run |
| FundingCarry.FundingDrivenEqualsImmediate | backtesting/differential_validation.py:5507-5579 | driven and immediate runs emit the same signals |
| FundingCarry.FundingAlternates | backtesting/differential_validation.py:5538-5579 | without fills sells to enter and buys to exit alternate |
| FundingRows.RowsExactly | backtesting/differential_validation.py:5524-5579 | for every fill stream, a row enters exactly when the machine is flat, the funding pays more than the minimum in a year and both readings are within their limits, and leaves exactly when a position is held and the funding is negative; the strength is always 1 |
| FundingRows.HeldByFills | backtesting/differential_validation.py:5512-5523 | with fills, a position is held exactly when the last fill so far that says so opens one |
| LateFills.LateFillsExactly | backtesting/differential_validation.py:5507-5579 | with one matching fill per signal, however late, the driven run emits the rows of the run without fills exactly when every row between a signal and its fill is quiet in both positions |
| LateFills.SideBySide | backtesting/differential_validation.py:5512-5579 | while every waiting row is quiet the driven run is level with the run without fills, or one fill behind it |
| LateFills.Diverges | backtesting/differential_validation.py:5538-5579 | a row that is not quiet while a fill is awaited parts the rows for good |
| LateFills.LateFillExample | backtesting/differential_validation.py:5512-5563 | two paying rows before the first fill give two entries instead of one |
| CmeGap.GapSignals | backtesting/differential_validation.py:6159-6228 | the event loop with its gap object updated in place emits the rows of the machine's run |
| CmeGap.OnEvent | backtesting/differential_validation.py:6184-6228 | one loop body is one step of the machine |
| CmeGap.HandleFeature | backtesting/differential_validation.py:6235-6268 | a weekend gap within bounds and direction becomes a new gap object; otherwise the active one stays |
| CmeGap.NewGapSize | backtesting/differential_validation.py:6253-6256 | a new gap lies its size in basis points from the Friday close, on the side its direction says |
| CmeGap.ExitsAroundEntry | backtesting/differential_validation.py:6442-6470 | target and stop lie on opposite sides of the entry price, so no price is both |
| CmeGap.GapDrivenEqualsImmediate | backtesting/differential_validation.py:6164-6228 | driven and immediate runs emit the same signals |
| CmeGap.EachGapOnce | backtesting/differential_validation.py:6183-6228 | for any fill stream and events by time, features before prices on a tie, each detected gap has at most one entry and at most one exit |
| CmeGap.EachGapOnceSorted | backtesting/differential_validation.py:6043-6074 | so for whatever features and prices, once sorted as the event list is |
| CmeGap.SingleModeAlternates | backtesting/differential_validation.py:6183-6228 | in a single-direction mode without fills, entries and exits alternate on opposite sides, also when a new gap replaces the active one |
| CmeGap.ExitOppositeExactly | backtesting/differential_validation.py:6183-6228 | without fills, in every mode: the signal after an entry is its exit, on the opposite side exactly when no gap was detected in between or the last one has the entered direction |
| CmeGap.SingleModeExits | backtesting/differential_validation.py:6490-6495 | in a single-direction mode that condition always holds |
| CmeGap.BothWaysCanExitOnEntrySide | backtesting/differential_validation.py:6187-6220 | a stream on which it fails: with both directions allowed a replacement makes the exit fall on the side of the entry |
| CmeGapRows.NewGapExactly | backtesting/differential_validation.py:6235-6268 | two observations open a gap exactly when neither is on a roll day, they span a weekend, and size and direction are wanted; its size, target, detection and expiry |
| CmeGapRows.RowsExactly | backtesting/differential_validation.py:6183-6228 | for every fill stream, a row is emitted exactly when a price enters or leaves the active gap, for the first reason that holds; that gap was opened by the last observations that open one, and entered at the price of a later market event |
| CmeGapRows.RowsTradeWeekends | backtesting/differential_validation.py:6235-6268 | every row is of a tradable weekend, on the side of its direction |
| CmeGapRows.HeldByFills | backtesting/differential_validation.py:6171-6181 | with fills, a position is held exactly when the last entry or exit so far is an entry |
| PairsTrading.PairsSignals | backtesting/differential_validation.py:5001-5115 | the event loop with Kalman, calibration and position state emits the rows of the machine's run |
| PairsTrading.KalmanStep | backtesting/differential_validation.py:5059-5065 | the step is always taken; the variance stays positive and below its prediction, and the new ratio does not widen the spread |
| PairsTrading.KalmanOptimal | backtesting/differential_validation.py:5059-5065 | precisions add, and no other hedge ratio is a better compromise between staying put and closing the spread |
| PairsTrading.RunKeepsSane | backtesting/differential_validation.py:5059-5070 | after any events and fills the variance is positive and the history is within its bound |
| PairsTrading.PairsDrivenEqualsImmediate | backtesting/differential_validation.py:5025-5115 | driven and immediate runs emit the same signals, although an entry sets the side before its fill |
| PairsTrading.PairsAlternate | backtesting/differential_validation.py:5084-5115 | without fills each entry is closed by the next signal, an exit or a stop on the other side |
| PairsScores.ScoresExactly | backtesting/differential_validation.py:5047-5081 | an event has a z score exactly when it prices a pair newer than all before it and a calibration is in force; the score is the spread of the latest prices, at the hedge ratio from before the event, less the mean, over the deviation |
| PairsScores.RowsExactly | backtesting/differential_validation.py:5084-5115 | for every fill stream, a row is emitted exactly when the score stops or exits the position held, or enters from flat on a trusted filter; entries sell dear spreads and buy cheap ones |
| PairsScores.RowThresholds | backtesting/differential_validation.py:5084-5115 | read off any row: entries are beyond the entry bound on their side, exits within theirs, stops beyond theirs |
| PairsScores.HistoryIsLatest | backtesting/differential_validation.py:5066-5070 | the history is the latest part, as long as allowed, of the spreads of all new pairs |
| PairsScores.CalibrationInForce | backtesting/differential_validation.py:5072-5075 | the calibration in force is the last one made, from more than a hundred spreads and more than an hour after the one before |
| PairsScores.HeldByFills | backtesting/differential_validation.py:5025-5036 | with fills, the position and its side are those of the last fill so far that opens or closes |
| PositionBefore.PositionsBefore | backtesting/differential_validation.py:6522-6553 | the merge gives each price time the size that the last earlier trade reports, among those that report one, or 0 |
| Sorting.SortFilter | backtesting/differential_validation.py:3690 | sorting and then selecting is selecting and then sorting: the sort is stable |
| Sorting.SortedUnique | backtesting/differential_validation.py:7138 | a multiset has one sorted arrangement when only equal rows tie |
| Sorting.StringLeMeans | backtesting/differential_validation.py:7138 | text sorts by the first character that differs |
| Sorting.FlatMapMatches | backtesting/differential_validation.py:3863-3890 | a loop that appends at most one item for a row gives one item, in order, for exactly the rows that qualify |
| ReplayTicks.ReplaySignals | backtesting/differential_validation.py:3638-3694 | one signal, in time order, for each row to buy or sell a mapped instrument at a time, with the fields it bears; the other rows are counted by what they lack, and the replayed and skipped symbols are given |
| ReplayTicks.SmokeTicks | backtesting/differential_validation.py:3826-3978 | everything up to the cap, in time order; with room for all, exactly one quote for each usable snapshot, one around each close of a symbol without a usable snapshot, one trade for each good trade row, and a closing quote for each signal that the quotes before it do not reach |
| ReplayTicks.TicksGood | backtesting/differential_validation.py:3863-3971 | bids are positive and below asks; prices and sizes are positive |
| ReplayTicks.SurroundsStrictly | backtesting/differential_validation.py:3894-3896 | a quoted price lies strictly between bid and ask exactly when it is above the least bid |
| ReplayTicks.ClosingReachesExactly | backtesting/differential_validation.py:3939-3975 | when some quote reaches a signal, given the closing quotes |
| Replay.CapIsEffective | backtesting/differential_validation.py:3531-3542 | with something to replay the effective cap never cuts a tick off |
| Replay.BuildPending | backtesting/differential_validation.py:3704-3713 | each queue is its instrument's signals in time order |
| Replay.ReplayStrategy.OnQuoteTick | backtesting/differential_validation.py:3735-3752 | a quote submits exactly the due head of its queue |
| Replay.PlayOrdersAtFirstQuote | backtesting/differential_validation.py:3735-3752 | in any tick order each signal is ordered at the first quote that reaches it, or never |
| Replay.RunEngine | backtesting/differential_validation.py:3716-3752 | over all ticks the object's queues and orders are those of playing each instrument, in time order |
| Replay.SubmittedExactlyOnce | backtesting/differential_validation.py:3741-3752 | with nothing pending, submitted and replayable signals are equal multisets and order attempts equal signals |
| Replay.RunReplay | backtesting/differential_validation.py:3528-3590 | with signals, ticks account for every row; nothing runs without ticks, and then some signal is unreachable; otherwise queues end empty exactly when every signal is reachable, and then every signal is submitted once, at its first quote |
| Replay.NonNegativeIsReachable | backtesting/differential_validation.py:3939-3975 | signals at non-negative times are always reachable |
| Replay.EarlySignalStaysPending | backtesting/differential_validation.py:3939-3957 | a signal a millisecond before 1970, replayed beside one trade, gets no closing quote and stays pending |
| Ledger.Simulate | backtesting/differential_validation.py:6564-6620 | for any closes and equity the ledger's trades and rows; for positive closes its marked equity is the vectorised equity at every bar exactly when initial equity is not negative or the close never moves while a position is wanted |
| Ledger.LedgerMarksExactly | backtesting/differential_validation.py:6564-6620 | the same equivalence about the ledger function |
| Ledger.LedgerBooks | backtesting/differential_validation.py:6582-6611 | with positive closes and equity, trades alternate, a sell closes the buy before it, and profits add up |
| Ledger.WantedExactly | backtesting/differential_validation.py:6574-6582 | a position is wanted exactly when some bar asked to buy and none since asked to sell; the last signal of a time counts |
| Ledger.TradesAtTurns | backtesting/differential_validation.py:6582-6611 | with positive closes and equity, there is one trade at each bar where that changes, at its time and close |
| Ledger.MarkedMoves | backtesting/differential_validation.py:4816-4828 | the vectorised equity moves with the close exactly while a position was wanted at the bar before |
| Ledger.EquityIsAccount | backtesting/differential_validation.py:4816-4828 | the vectorised product is an account of shares and cash, bought at the closes of the bar before and held to this one, less the cost of turning over |
| Ledger.ProfitsAddUp | backtesting/differential_validation.py:6596-6611 | equity is initial equity plus realised profits |
| Gate.CompareSignals | backtesting/differential_validation.py:6920-6966 | the row-by-row comparison of the sorted tables reports exactly their differences |
| Gate.ReportedExactly | backtesting/differential_validation.py:6920-6966 | exactly the differences between the sorted tables are reported: surplus rows, column values and quote fields |
| Gate.NormalizedMeans | backtesting/differential_validation.py:7130-7138 | a normalised table holds the same signals, sides in lower case, by datetime, instrument and side |
| Gate.NothingReportedExactly | backtesting/differential_validation.py:6920-6966 | nothing is reported exactly when the signal multisets are equal and no quote differs |
| Gate.IndependentPassMeans | backtesting/differential_validation.py:3129-3178 | an independent reference passes exactly when its signals are the project's and, for a full one, trades, equity and metrics did not fail |
| Gate.Validate | backtesting/differential_validation.py:2889-2976 | from the selected engines, each run or refused by its adapter, to the conclusion and the reason, both as the runs and the contract say; the gate passes exactly when it names no reason |
| Gate.ReferencePassIsSound | backtesting/differential_validation.py:892-899 | REFERENCE_PASS means at least the minimum number of independent engines with the project's signal multiset, and no failure anywhere |
| Gate.SignalsOnlyCountedExactly | backtesting/differential_validation.py:757-771 | a completed signals-only engine is counted exactly when it reproduces signals and quotes |
| Gate.BlockedExactly | backtesting/differential_validation.py:782-796 | no reason is named exactly when the gate passes, the contract is declared and a target was selected |
| Gate.PassNamesNoReason | backtesting/differential_validation.py:697-706 | in every validation a passing gate names no reason, because only an engine implemented in a declared contract can complete |
| Gate.ConclusionExactly | backtesting/differential_validation.py:892-899 | FAIL exactly when the data failed or an engine contradicts the project; else REFERENCE_PASS exactly when enough engines confirm it, at least one; else ADVISORY_ONLY exactly when one completed; else SKIP |
| Gate.ReasonExactly | backtesting/differential_validation.py:782-796 | the reason named is the first of six shortcomings of contract and runs |
| Feasibility.ResultFromDict | backtesting/pipeline_feasibility.py:52-75 | the first error in reading order, or the result; a repeated check name is refused |
| Feasibility.RoundTrip | backtesting/pipeline_feasibility.py:52-110 | writing and reading a result gives it back exactly when it is well formed |
| Feasibility.ReadingIsStable | backtesting/pipeline_feasibility.py:52-110 | what was read once is read the same after writing it |
| Feasibility.ToDictInjective | backtesting/pipeline_feasibility.py:92-110 | different results are written differently |
| Feasibility.PassMeans | backtesting/pipeline_feasibility.py:78-89 | PASS exactly when the last check of each required name passed and no power check failed; FAIL otherwise |
| Checkpoint1.CumulativeTrials | backtesting/pipeline_checkpoint1.py:133-150 | the count beside each row is its family's running count there |
| Checkpoint1.RunningMeans | backtesting/pipeline_checkpoint1.py:137-138 | a running count is the greatest of the last override and the family's counts since |
| Checkpoint1.RunningGrows | backtesting/pipeline_checkpoint1.py:137-139 | without overrides a running count never falls |
| Checkpoint1.ExpectedTrials | backtesting/pipeline_checkpoint1.py:197-206 | the count at the last row naming the summary, else at the family's last row |
| Checkpoint1.FamilyRegistry | backtesting/pipeline_checkpoint1.py:169-194 | one entry per family of a row or a budget, from its last row |
| Checkpoint1.RegistryAgreesWithExpected | backtesting/pipeline_checkpoint1.py:169-206 | registry and expected trials agree on a family without a path of its own |
| Checkpoint1.EvaluateIsWorst | backtesting/pipeline_checkpoint1.py:321-327 | the outcome is the worst verdict |
| Checkpoint1.PassMeans | backtesting/pipeline_checkpoint1.py:209-327 | what an automatic pass guarantees about summary and registry, exactly, with floats that may be infinite or NaN |
| Checkpoint1.FailMeans | backtesting/pipeline_checkpoint1.py:209-327 | what an automatic failure found, exactly; in what is left a human is asked |
| Checkpoint1.FailIsFinal | backtesting/pipeline_checkpoint1.py:209-327 | no summary that only adds what a human would supply turns a failure |
| Checkpoint1.PassIsComparable | backtesting/pipeline_checkpoint1.py:235-302 | a pass leaves neither DSR nor PSR NaN, and an infinite DSR only beside an infinite PSR |
| Candidates.PreRegister | backtesting/pipeline_orchestrator.py:142-191 | succeeds exactly for at most 15 registrable ideas; each starts as registered, with bare texts, a directory from its id and a default family |
| Candidates.RegisteredMeans | backtesting/pipeline_orchestrator.py:158-182 | texts lose only the white space around them, the directory is the id without its prefix, and a blank family is NEW |
| Candidates.DirsCollide | backtesting/pipeline_orchestrator.py:81-87 | two prefixes of one id share a directory |
| Candidates.Candidate.SetStatus | backtesting/pipeline_orchestrator.py:98-103 | a new status is recorded once; an equal one changes nothing |
| Candidates.Candidate.AdvanceCandidate | backtesting/pipeline_orchestrator.py:194-258 | one step on the object, with the files it writes and its exceptions |
| Candidates.Candidate.Reprobe | backtesting/pipeline_orchestrator.py:273-308 | one candidate of a reprobe: a failed one whose new result is written differently from the file gets one more entry, a pass exactly when the result meets everything; any other stays as it is |
| Candidates.AdvanceKeepsSafe | backtesting/pipeline_orchestrator.py:194-258 | a step keeps the record's invariant and does nothing in a no-op status |
| Candidates.ReprobeKeepsSafe | backtesting/pipeline_orchestrator.py:272-308 | a reprobe keeps the record's invariant |
| Candidates.PathOfHistory | backtesting/pipeline_orchestrator.py:24-33 | every legal history has one of eight shapes, told by its last status |
| Candidates.NoStage3AfterFailure | backtesting/pipeline_orchestrator.py:228-258 | Stage 3 comes after a Stage 2 pass; after any Stage 2 failure only failures and a reprobe pass follow |
| Orchestrator.RunSweep | backtesting/pipeline_orchestrator.py:452-466 | the inner loop over candidate objects, with a write after each step |
| Orchestrator.RunNormal | backtesting/pipeline_orchestrator.py:449-476 | a normal session persists what three sweeps give, up to the budget or an exception |
| Orchestrator.RunReprobe | backtesting/pipeline_orchestrator.py:261-322 | a session fails exactly when some failed candidate lacks what its reprobe needs, and then persists nothing; otherwise every failed candidate is rejudged on its new result, with one advisory line each |
| OrchestratorRuns.AlwaysSafe | backtesting/pipeline_orchestrator.py:401-477 | after any sequence of normal and reprobe sessions every record is safe and histories only grow |
| OrchestratorRuns.PipelineSafety | backtesting/pipeline_orchestrator.py:194-308 | status is the last entry, stage3_done is preceded by stage2_pass, and a candidate that ever failed Stage 2 never reaches Stage 3 or checkpoint 1 later |
| OrchestratorRuns.ThreeSweepsSuffice | backtesting/pipeline_orchestrator.py:451-468 | within budget and without exceptions a session leaves every candidate in a no-op status |
| OrchestratorRuns.ResumeMakesNoDifference | backtesting/pipeline_orchestrator.py:417-468 | with deterministic probes and runners and a directory per identity, stopping and resuming, by budget or by a crash between a step's file and the state file, changes neither the final records nor whether an exception occurs |
| OrchestratorRuns.RegisteredBatch | backtesting/pipeline_orchestrator.py:158-182 | registration yields a batch in its first state; distinct derived directories make it repeatable |
| OrchestratorRuns.FunnelConservesAlways | backtesting/pipeline_orchestrator.py:361-388 | in every reachable state the funnel neither loses nor repeats a candidate, and each of its numbers is that of the statuses |
| Evidence.EveryEntryHasReason | backtesting/pipeline_orchestrator.py:194-308 | whatever sessions have run on a registered batch, every history entry has its reason in one of them: no probe or runner, a result that met everything or did not, a summary, or the verdict on a summary |
| Evidence.PassOnReprobeWasEarned | backtesting/pipeline_orchestrator.py:301-308 | a candidate at stage2_pass_on_reprobe had a reprobe result that meets everything |
| Evidence.CheckpointPassWasEarned | backtesting/pipeline_orchestrator.py:241-258 | a candidate at checkpoint1_pass had a summary of its directory that the gate passes, and a Stage 2 result that meets everything |
| Evidence.EveryFileHasSource | backtesting/pipeline_orchestrator.py:216-252 | every file on disk holds what a session's probe, runner or gate gave for its directory |
| SharedDirs.UninterruptedFails | backtesting/pipeline_orchestrator.py:229-258 | without a stop a candidate is judged by the summary of the last one in its directory |
| SharedDirs.InterruptedPasses | backtesting/pipeline_orchestrator.py:229-258 | after a stop it is judged by its own |
| SharedDirs.RepeatableExactly | backtesting/pipeline_orchestrator.py:81-87 | a batch is repeatable exactly when a directory belongs to one identity |
| Trades.ExtractTrades | backtesting/ohlcv_rotation_backtest.py:198-252 | the loops over rows and columns give the specified closed and still-open trades |
| Trades.SignalsFromWeights | backtesting/differential_validation.py:4768-4805 | the buy and sell signals of the weight panel |
| Trades.SignalsFromTrades | backtesting/differential_validation.py:7432-7458 | a buy and a sell for each trade |
| TradesAgree.RebuildsExactly | backtesting/ohlcv_rotation_backtest.py:219-236 | an instrument's trades rebuild its positive-weight rows exactly when its weight never jumps over 0 |
| TradesAgree.JumpKeepsTradeOpen | backtesting/ohlcv_rotation_backtest.py:219-236 | from half long to half short in one row the trade stays open and covers the short row |
| TradesAgree.NonNegativeNeverJumps | backtesting/ohlcv_rotation_backtest.py:219-236 | non-negative weights never jump |
| TradesAgree.TradesDisjoint | backtesting/ohlcv_rotation_backtest.py:219-248 | an instrument's trades are disjoint and in order, and one is open exactly at a positive last weight |
| TradesAgree.SignalsAgree | backtesting/differential_validation.py:7432-7458 | signals from trades are the signals from weights and one sell at the last row per open instrument, as multisets |
| TradesAgree.TradesEarn | backtesting/ohlcv_rotation_backtest.py:224-247 | the profit of every trade takes its entry close to its exit close, and is missing exactly without those prices |
| TradesAgree.SignalsAreTurns | backtesting/differential_validation.py:4768-4805 | the signals of the weights are exactly the cells where a weight turns positive or stops being so, row by row |
| CarryBook.Rebalance | backtesting/c2_funding_carry_backtest.py:186-195 | the dictionary of active pairs after a rebalance: an active pair stays unless the day shuts it, another one joins when the day opens it; and the active pairs in order |
| CarryBook.TargetWeights | backtesting/c2_funding_carry_backtest.py:169-202 | every row is the book of the pairs active that day; with distinct columns and the exit rate at most the entry rate, a pair has weight exactly when some rebalance day opened it and none since shut it, and then half of an equal share |
| CarryBook.HeldExactly | backtesting/c2_funding_carry_backtest.py:186-193 | over all days, active pairs are those opened and not shut since, exactly when the exit rate is at most the entry rate or the z bound is negative |
| CarryBook.FlickersBetween | backtesting/c2_funding_carry_backtest.py:190-193 | with the exit rate above the entry rate, a rate between them opens a pair one day and shuts it the next |
| CarryBook.BookNeutral | backtesting/c2_funding_carry_backtest.py:196-201 | with distinct columns each perpetual weighs minus its spot and gross exposure is 1 exactly when a pair is active, else 0 |
| CarryBook.NeutralExactly | backtesting/c2_funding_carry_backtest.py:177-201 | over all days, every row of target weights is neutral exactly when all columns are distinct or the z bound is negative |
| StressWindows.StressWindows | backtesting/c2_funding_carry_backtest.py:109-122 | the windows are separated and cover exactly the active days |
| StressWindows.WindowsMaximal | backtesting/c2_funding_carry_backtest.py:109-122 | the days next to a window are inactive |
| StressWindows.WindowsUnique | backtesting/c2_funding_carry_backtest.py:109-122 | a mask has one list of windows |
| StressWindows.RoundTrips | backtesting/c2_funding_carry_backtest.py:109-122 | encoding and decoding are inverse on masks and on separated windows |
| RowIndex.BuildRows | backtesting/artifact_rows.py:121-143 | one row per record with ordinals from 0, with the first symbol and datetime text the record has; other items and payloads give none |
| RowIndex.StepsBounded | backtesting/artifact_rows.py:170-171 | neighbouring sample positions differ by at least 1 and at most total / n rounded up |
| RowIndex.SelectDownsampleIndices | backtesting/artifact_rows.py:164-173 | for total > n >= 1, exactly n + 1 increasing indices from 0 to total - 1 with bounded gaps; otherwise all or none |
| RowIndex.IncreasingUnique | backtesting/artifact_rows.py:173 | sorting the index set leaves one list |
| RowIndex.RowTable.Upsert | backtesting/artifact_rows.py:186-240 | each selected artifact's rows are replaced; every other key keeps its rows |
| RowIndex.RowTable.Read | backtesting/artifact_rows.py:274-318 | a read filters, then samples or slices, the records of the list the rows were built from |
| RowIndex.LatestWins | backtesting/artifact_rows.py:209-235 | after any sequence of upserts each key holds the records of its latest payload |

## Left out

- Database connections, files other than the pipeline's own, JSON text, environment variables, clocks and identifiers.
- Floating-point rounding, including that of `int(i * step)` and of the embargo product; all arithmetic is exact.
- Sharpe ratios, PSR, DSR and other statistics; only `dsr <= psr` as a gate condition is modelled.
- `_coerce_oos_returns`: the model starts from the returns by combination and group.
- Order of tied rows in `sort_values`, which is not stable for one column; sorts of the model are stable, and `PositionsBefore` takes trades in any time order that a sort may leave.
- CompareSignals: which quote fields differ at a row is an input of the comparison.
- Comparisons of indicators, trades, equity and metrics: each is an input, a number of rows and whether it failed.
- Letter case beyond a to z, where sides and symbols are folded.
- SmokeTicks: per-source row counters and trade ids are not returned.
- Price rows without an instrument column: the symbol of every row is resolved before.
- Reindexing rebalance weights to every bar; the equity formula takes the weights at each bar.
- `_fear_greed_reference_signals`, the technical and maker machines: further machines of the `FillDriven` shape.
- CME and funding display rows: metadata text beside time, side, action and price.
- Regular expressions that parse the registry and normalise paths; the model takes parsed rows and normalised text.
- Timestamps of history entries, the shortlist text, and the metrics in the reprobe advisory.
- Advance: a summary file that exists but is not a JSON object counts as unreadable.
- BuildRows: the millisecond column `ts_ms`, and symbol values that are not text.
- Upsert: the transaction's rollback and the created_at column.
