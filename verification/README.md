# A verified model of an order-book replay and execution-cost pipeline

The project models five parts of the `l2tca` package and proves what they promise.

- **The order book** (`SortedDict`, `BookModel`, `BookLaws`, `BookReads`, `OrderBook`). A frame of
  adds, replacements and deletes is written in place to two sorted dictionaries, trimmed to the
  window, checked for crossing, and undone from a log when it is refused.
- **Trust in the book** (`Digits`, `Checksum`, `Tracking`, `Replay`, `Verdicts`). The checksum string,
  the tracker that decides when a book may be believed, the producer of views, the verifier that
  replays the same capture independently, and which text a verdict is about.
- **Execution cost** (`Execution`, `Schedule`, `Slices`, `Lookups`, `Costs`, `WalkLaws`, `Backtest`, `Windows`,
  `WindowLaws`, `WindowedBacktest`, `BacktestErrors`, `MissedWindows`). The sliced simulator, the
  as-of lookups, the four-layer decomposition, the streaming backtest over many windows, when it
  raises, and which windows it leaves out.
- **The feed** (`Backoff`, `Subscription`, `FeedModel`, `FeedLaws`, `FeedClient`). The reconnect loop
  over an arbitrary sequence of events and an arbitrary caller, its handshake and its retry ladder.
- **The partitioned writer** (`Writer`).

`Captures` holds small captures at which some of the promises below fail.

Classes stand for the source's mutable objects; each method is proved against a function on values,
and the laws are lemmas about those functions. Prices, quantities and money are exact (`real`).
Exceptions are `Result` values whose error says which family was raised: `ValueError`, which the
backtest catches, or `IndexError` and division errors, which it does not. The hash, the partition of a
row's time, the events a connection meets, what the caller does with each message, and the draws
behind the jitter are parameters.

Some promises in the source's comments do not hold as stated; the model keeps the code and gives the
exact condition:

- Trimming leaves the touch alone, so the crossed check may follow it, provided the window has room
  for at least one level (`UpdateOutcome`, `EmptyWindowAcceptsCrossed`).
- A checksum of zero is taken on trust by the tracker and compared by the verifier (`FirstMismatch`,
  `ZeroChecksumIsTrusted`, `ZeroChecksumSplitsThem`).
- A view is yielded for a frame without a checksum, but it shows the book before that frame
  (`ViewShowsUpdate`, `ViewsAreTracked`, `DeletedLevelStillShown`).
- Two tops are equal exactly when their payloads are and their texts have the same widths; at the
  default precisions different tops can share a payload (`PayloadDecidesTop`, `PayloadsCollide`).
- A refused subscription is reported only when the refusal is the first message to decide that
  channel (`HandshakeOutcome`, `StandingIs`, `LateRefusalAccepted`).
- A view without a mid is said to raise a `ValueError` and its window to be skipped; it raises an
  `IndexError`, which ends the whole backtest. A one-sided view or a zero benchmark ends it in exactly
  the cases of `BacktestEnds`, never over two-sided views (`QuotedBacktestCompletes`,
  `OneSidedBookEndsBacktest`).
- Only windows without a usable book at their start are said to be skipped, and the last view before
  each window to be kept. A window that sees no view is dropped even when an earlier view stands at
  its start. When pricing every window on all views up to its end completes, the stream gives the same
  rows less one for each such window (`StreamIsHistory`, `StreamDropsBlindWindows`,
  `QuietWindowsDropped`).
- Holding an update back stops the tracker from asking for a snapshot, whatever its state was
  (`ResyncAskedWhen`).
- Windows that share a start hold every view once per window, yet their rows are unaffected
  (`BuffersAreWindows`, `StreamIsHistory`).

## Model

| member | source | states |
|---|---|---|
| OrderBooks.OrderBook.ApplySnapshot | src/l2tca/book/order_book.py:83-101 | A snapshot replaces both sides and counts one frame, or is refused (non-positive quantity, crossed) and changes nothing, not even the dictionaries in place. |
| OrderBooks.OrderBook.ApplyUpdate | src/l2tca/book/order_book.py:122-164 | The new state is the folded, trimmed book with `seq` one higher, or exactly the old state when the frame is refused. |
| OrderBooks.OrderBook.WriteLevels | src/l2tca/book/order_book.py:125-134 | Replaying the log backwards gives the pre-frame contents of both sides at every point; it stops exactly at a negative quantity. |
| OrderBooks.OrderBook.Trim | src/l2tca/book/order_book.py:136-145 | What remains is the `depth` best entries, and the log still undoes everything. |
| OrderBooks.OrderBook.RollBack | src/l2tca/book/order_book.py:154-161 | Both sides end as the reversed log says. |
| OrderBooks.LogWrite | src/l2tca/book/order_book.py:129-134 | Logging what a write replaces makes the log undo that write, whatever was written, without touching the other side. |
| OrderBooks.OrderBook.BestBid | src/l2tca/book/order_book.py:176-182 | The entry no other bid beats; absent exactly on an empty side. |
| OrderBooks.OrderBook.BestAsk | src/l2tca/book/order_book.py:184-190 | The entry no other ask beats; absent exactly on an empty side. |
| OrderBooks.OrderBook.DepthLevels | src/l2tca/book/order_book.py:209-235 | The top levels of each side, nothing for a non-positive request. |
| OrderBooks.OrderBook.QuantityToPrice | src/l2tca/book/order_book.py:267-280 | The filtered sum is what a walk from the touch to that price meets. |
| OrderBooks.OrderBook.Clear | src/l2tca/book/order_book.py:166-172 | Both sides are dropped, the frame counter survives. |
| BookLaws.FoldAt | src/l2tca/book/order_book.py:125-134 | The last mention of a price decides it: zero deletes, anything else replaces; unmentioned prices are untouched. |
| BookLaws.TrimStep | src/l2tca/book/order_book.py:138-145 | Dropping the worst level of an overfull side leaves its `depth` best entries alone. |
| BookLaws.BestIsBestPart | src/l2tca/book/order_book.py:136-145 | What trimming keeps has the size of the window or the whole side, and every kept price beats every dropped one. |
| BookLaws.BestPartUnique | src/l2tca/book/order_book.py:136-145 | No other part of the side meets that description. |
| BookLaws.TrimKeepsTouch | src/l2tca/book/order_book.py:136-137 | Trimming to a window of at least one level never moves the touch. |
| BookLaws.UpdateOutcome | src/l2tca/book/order_book.py:122-164 | An update is accepted exactly when no quantity is negative and the result is uncrossed (or the window is empty); then each side is the best part of the folded side, within `depth`, and `seq` grows by one. |
| BookLaws.SnapshotOutcome | src/l2tca/book/order_book.py:83-101 | A snapshot is accepted, whatever the book held, exactly when every quantity is positive and every bid is below every ask; then the sides hold the prices it names, each with its last mention, and `seq` grows by one. |
| BookLaws.EmptyWindowAcceptsCrossed | src/l2tca/book/order_book.py:136-153 | With depth zero a crossing frame is accepted. |
| BookLaws.RunKeepsBook | src/l2tca/book/order_book.py:70-172 | Over every run: keys match levels, quantities are positive, sides uncrossed, `seq` counts accepted frames, the window bound holds unless a snapshot was the last thing to take effect, and a clear leaves both sides empty. |
| BookReads.BestFirstListsSide | src/l2tca/book/order_book.py:218-235 | The listing is strictly best first and holds exactly the entries of the side. |
| BookReads.TopListsBest | src/l2tca/book/order_book.py:209-235 | The top `n` levels are the `n` best entries, ranked by counting what stands ahead. |
| BookReads.TopHoldsBest | src/l2tca/book/order_book.py:209-235 | The top `n` levels are, best first, exactly the entries with fewer than `n` ahead of them. |
| BookReads.LoadedListing | src/l2tca/book/order_book.py:83-101 | A side loaded from levels that come best first with positive quantities lists them as they came. |
| BookReads.TopIsPrefix | src/l2tca/book/order_book.py:209-235 | Asking for more levels extends the answer and never changes it. |
| BookReads.ReachIsPrefix | src/l2tca/book/order_book.py:267-280 | Levels at or better than a limit form a prefix of the best-first listing. |
| Checksum.RenderReadsBack | src/l2tca/book/sequence.py:254-275 | A rendered value is digits without a leading zero and reads back as the value in units of its last place. |
| Checksum.ExactUnits | src/l2tca/book/sequence.py:254-275 | For a value exact at that many places, those units are value times ten to the places. |
| Checksum.RenderIsDecimal | src/l2tca/book/sequence.py:254-275 | An exact positive value is rendered as the plain decimal writing of its units. |
| Checksum.UnitsAreNearest | src/l2tca/book/sequence.py:254-275 | Any other value is rounded to the nearest number of units, and to the even one of two. |
| Checksum.RenderNegative | src/l2tca/book/sequence.py:254-275 | A negative value keeps its sign in front, and with it its leading zeros. |
| Checksum.RenderInjective | src/l2tca/book/sequence.py:254-275 | Exact values have equal texts exactly when they are equal. |
| Checksum.WireRenders | src/l2tca/book/sequence.py:254-275 | Formatting the digits and exponent as they came on the wire, half to even on the digits, gives the text of the number they stand for. |
| Checksum.TrailingZerosVanish | src/l2tca/book/sequence.py:254-275 | The same number written with more trailing zeros, and the exponent to match, gives the same text, rounding included. |
| Checksum.PayloadShape | src/l2tca/book/sequence.py:306-312 | The payload is the asks' text followed by the bids', and nothing past the tenth level of a side is in it. |
| Checksum.PayloadSpells | src/l2tca/book/sequence.py:306-312 | The payload is the first ten asks and then the first ten bids, written out level by level. |
| Checksum.LevelAdds | src/l2tca/book/sequence.py:306-312 | A further level adds its price text and then its quantity text at the end of its side, and nothing from the eleventh on. |
| Checksum.PayloadDecidesTop | src/l2tca/book/sequence.py:278-349 | Two ten-level tops of exact values are equal exactly when their payloads are equal and, level by level, their texts have the same widths. |
| Checksum.PayloadsCollide | src/l2tca/book/sequence.py:306-312 | At one and eight decimals, a price of 1.0 with quantity 23 and a price of 10.2 with quantity 3 have one payload. |
| Tracking.SequenceTracker.OnSnapshot | src/l2tca/book/sequence.py:163-173 | An accepted snapshot makes the tracker live and drops what was held; a refused one changes nothing. |
| Tracking.SequenceTracker.OnUpdate | src/l2tca/book/sequence.py:175-212 | Not live: nothing happens. Live: refused frames raise and leave the state, missing and zero checksums are believed, a mismatch leaves the frame applied and disconnects. |
| Tracking.SequenceTracker.Buffer | src/l2tca/book/sequence.py:228-244 | Any state becomes resyncing and the update is held last. |
| Tracking.SequenceTracker.Drain | src/l2tca/book/sequence.py:246-251 | The held updates are returned in order and forgotten. |
| Tracking.LiveMeansAccountedFor | src/l2tca/book/sequence.py:163-251 | Over every run the tracker is live exactly when an accepted snapshot is followed by an unbroken span, and then the book is that snapshot's book with exactly the updates accepted since. |
| Tracking.UntrustedBookIsFrozen | src/l2tca/book/sequence.py:187-188 | Outside live, no sequence of calls without an acceptable snapshot changes the book or restores trust. |
| Tracking.LosingTrust | src/l2tca/book/sequence.py:175-244 | Over every run, between a moment the tracker is live and a later one it is not, trust was ended first by a disconnect, an update held back, or an applied update whose non-zero checksum does not match. |
| Tracking.TrustEnds | src/l2tca/book/sequence.py:195-212 | At any point of a run those calls, and no others, take the tracker out of live, and the book keeps a mismatching update. |
| Tracking.RunKeepsMachine | src/l2tca/book/sequence.py:93-97 | Every reachable book is sound and the awaiting state is never entered. |
| Tracking.DrainReturnsHeldBack | src/l2tca/book/sequence.py:228-251 | What is held is what arrived since the last drain or accepted snapshot, in order. |
| Tracking.ResyncAskedWhen | src/l2tca/book/sequence.py:219-244 | A snapshot is asked for exactly when the tracker is neither live nor holding updates back. |
| Tracking.FullDepthVerdictIsTenLevelVerdict | src/l2tca/book/sequence.py:199-207 | After an accepted update the full-depth verdict is the ten-level verdict. |
| Tracking.VerdictIsHash | src/l2tca/book/sequence.py:187-212 | Over every run, for every hash: an update that a live tracker applies leaves it live exactly when it carries no checksum, a zero, or the hash of the book it made, written out as ten asks and then ten bids. |
| Verdicts.HashOfLevels | src/l2tca/book/sequence.py:278-349 | After a snapshot given best first and an empty frame, the tracker is live, and the verifier agrees, exactly when the checksum is the hash of the asks and then the bids as given, at most ten of each; the tracker also when it is zero. |
| Verdicts.HashOfOneLevelEach | src/l2tca/book/sequence.py:278-349 | At one and eight decimals, one unit bid at 1.0 and one offered at 2.0: the text hashed is 20, 100000000, 10, 100000000. |
| Replay.Verifier.Feed | src/l2tca/cli/inspect.py:35-49 | The tally after a frame: snapshots ready it, refused frames raise and change nothing, others are applied and counted as checked, agreed or uncheckable. |
| Replay.EveryUpdateCounted | src/l2tca/cli/inspect.py:40-49 | Agreed counts the updates applied whose checksum is the hash of the book they make, written out; checked those and the ones whose checksum is not; uncheckable the updates before the opening snapshot and those without a checksum. |
| Replay.LiveBooksAgree | src/l2tca/cli/inspect.py:35-49 | Whenever the tracker is live its sides are the verifier's, even after earlier mismatches. |
| Replay.FirstMismatch | src/l2tca/cli/inspect.py:44-49 | Up to and including the first frame found wrong both replays hold one book, and that frame takes the tracker out of live exactly when its checksum is not zero. |
| Replay.MismatchIsLossOfTrust | src/l2tca/book/sequence.py:187-212 | Without zero checksums, the verifier has counted no disagreement exactly as long as no frame has taken the tracker out of live. |
| Replay.ZeroChecksumIsTrusted | src/l2tca/book/sequence.py:195-198 | A frame with checksum zero that the verifier counts against the book leaves the tracker live. |
| Replay.ZeroChecksumSplitsThem | src/l2tca/cli/inspect.py:44-49 | At every depth and precision there is such a capture. |
| Replay.IterBookViews | src/l2tca/io/derive.py:66-93 | The views yielded, and whether the replay raised. |
| Replay.ReplayRaises | src/l2tca/io/derive.py:70-80 | A replay raises exactly when some message, at its turn, is a snapshot that is not well formed, or a checksummed update that the book of a live tracker refuses; a mismatch does not raise. |
| Replay.ViewsBeforeRefusal | src/l2tca/io/derive.py:70-93 | A replay that raises has yielded the views of the messages before the first refused one. |
| Replay.EmittedViewsAreGood | src/l2tca/io/derive.py:84-93 | Every view yielded is best first, has positive quantities and is uncrossed when two-sided. |
| Replay.ViewHoldsBest | src/l2tca/book/order_book.py:237-265 | A view of a sound book holds on each side exactly the entries with fewer than `n` ahead of them, best first, with the frame count, stamp and verdict it is given. |
| Replay.BookCountsFrames | src/l2tca/io/derive.py:84-93 | The numbers views carry count the accepted snapshots and the updates applied while live. |
| Replay.UncheckedFramesAreNotApplied | src/l2tca/io/derive.py:77-80 | The tracker behind the views is the one that saw only snapshots and checksummed updates. |
| Replay.ViewsAreTracked | src/l2tca/io/derive.py:66-93 | A replay that does not raise yields one view per book frame from the first accepted snapshot on, each of the book of a tracker fed only the snapshots and the checksummed updates so far, and says of it whether that tracker is live when the frame was checked. |
| Replay.ViewShowsUpdate | src/l2tca/io/derive.py:77-93 | In any replay the view of an update shows it applied exactly when it carries a checksum and the tracker is live; otherwise it shows the book before it again. |
| Captures.DeletedLevelStillShown | src/l2tca/io/derive.py:77-93 | A level deleted without a checksum is still in the view yielded for that frame, though applying the frame empties the side. |
| Replay.ViewShowsSnapshot | src/l2tca/io/derive.py:73-93 | In any replay a well-formed snapshot is shown as it is, whatever came before, and makes the tracker live; any other ends the replay. |
| Replay.ViewsShowVerifiedBook | src/l2tca/io/derive.py:66-93 | While every checksummed frame agreed, the last view shows the book the verifier holds after those frames. |
| Schedule.SimulateChildOrders | src/l2tca/tca/analysis.py:185-234 | Carry, cap and early stop give the same fills as walking, at every slice, for whatever the schedule is still owed. |
| Schedule.PlanIsEven | src/l2tca/tca/analysis.py:188-210 | The slices stand at evenly spaced instants from the start, as far apart as fit before the end, and each meets the other side of the view standing at its own. |
| Slices.FillsBySlice | src/l2tca/tca/analysis.py:188-229 | Every such instant at which the other side shows some quantity leaves a fill stamped with it and priced at a level of the view standing then, and there are no other fills. |
| Slices.WalkTakesInTurn | src/l2tca/tca/analysis.py:213-229 | A walk makes one fill for each level it reaches, in turn, of the whole level except for what is still needed at the last, and goes on until nothing is. |
| Slices.WalkPassesOver | src/l2tca/tca/analysis.py:213-229 | Levels that show no quantity are passed over. |
| Schedule.WorkSlices | src/l2tca/tca/analysis.py:199-232 | The loop over the slices, with its carry, cap and early stop, fills what walking for the amount owed would, and ends with the unfilled rest of the order as its carry. |
| Schedule.LoopKeepsSchedule | src/l2tca/tca/analysis.py:199-232 | After every number of slices the loop's filled plus carry is the schedule so far, and what remains is the order less what is filled. |
| Schedule.LoopGoesOn | src/l2tca/tca/analysis.py:200-203 | While slices remain the loop has not stopped and its cap does not bind. |
| Schedule.FilledPlusCarry | src/l2tca/tca/analysis.py:188-232 | After `k` slices of the simulator filled plus carry is `k` times the target over the number of slices. |
| Schedule.OwedAtSlice | src/l2tca/tca/analysis.py:200-203 | While slices remain the order is not done, and a share plus the carry never exceeds what remains. |
| Schedule.WalkTakes | src/l2tca/tca/analysis.py:213-229 | A walk takes what it is asked for, or everything in sight if that is less. |
| Schedule.FilledIsReached | src/l2tca/tca/analysis.py:199-232 | After every number of slices the fills stand where bringing the total up to the schedule, or as far as the book reaches, leaves it. |
| Schedule.SimulatedQuantity | src/l2tca/tca/analysis.py:188-232 | The quantity filled is at most the order and is the least over slices of the even schedule plus the depth shown since. |
| Schedule.ReachedIsTightest | src/l2tca/tca/analysis.py:188-232 | The same after every number of slices. |
| Schedule.SimulatorFillsMost | src/l2tca/tca/analysis.py:188-232 | No allocation within each slice's depth that never runs ahead of schedule fills more. |
| Schedule.FillStamps | src/l2tca/tca/analysis.py:188-189 | Fills are stamped in order, from the start and before the end. |
| Lookups.AsOfIsLastUpTo | src/l2tca/tca/analysis.py:242-251 | Over ascending views the bisection and the linear filter find the same view, for every instant. |
| Lookups.ArrivalIsMidAtDecision | src/l2tca/tca/analysis.py:79-88 | The arrival price is the mid every other benchmark would use at that instant, errors included. |
| Lookups.NoLookAhead | src/l2tca/tca/analysis.py:205-229 | Views stamped after an instant change no fill stamped at or before it. |
| Execution.IntervalVwap | src/l2tca/tca/analysis.py:116-150 | The loop returns the weighted mid of the buckets inside the window, or the error of the first failing step. |
| Costs.VwapIsAverage | src/l2tca/tca/analysis.py:128-150 | The benchmark lies between the mids it is made of. |
| Costs.VwapIs | src/l2tca/tca/analysis.py:116-150 | The benchmark times the volume of the buckets that count is that volume at the mids standing at them; there is one exactly when the window is not empty, some bucket counts, their volume is not zero and no such mid is missing. |
| Costs.AttributeSlippage | src/l2tca/tca/analysis.py:260-309 | The layers in basis points of the target notional, or the first error. |
| Costs.EachLayer | src/l2tca/tca/analysis.py:260-309 | Each layer of the answer under its own name, times the notional: the signed sum over fills of price beyond the mid then standing, the signed sum of the moves of that mid since arrival, the fees, and the signed cost of what was left undone at the closing mid. It fails exactly when a mid is missing or the notional is zero. |
| Costs.LayersThatVanish | src/l2tca/tca/analysis.py:278-301 | No timing when the mid is the arrival mid at every fill, and no opportunity when the order is filled. |
| BacktestErrors.AttributionFails | src/l2tca/tca/analysis.py:260-294 | Which error it fails with, in the order it looks. |
| Costs.LayersTelescope | src/l2tca/tca/analysis.py:278-289 | Spread and timing add up to the cost against arrival whatever the mids were. |
| Costs.LayersSumToShortfall | src/l2tca/tca/analysis.py:271-301 | The four layers sum to the signed cost of the whole order, unfilled part at the closing mid, plus fees. |
| Costs.TotalIsShortfallInBps | src/l2tca/tca/analysis.py:294-301 | The total in basis points is that sum over the target notional. |
| Costs.SwappingSidesNegates | src/l2tca/tca/analysis.py:263-292 | From the other side every layer but the fees changes sign. |
| WalkLaws.WalkIsCheapest | src/l2tca/tca/analysis.py:213-229 | Every other split of the same quantity within the levels costs a buyer at least as much and brings a seller at most as much. |
| WalkLaws.SpreadLayerFloor | src/l2tca/tca/analysis.py:278-285 | The spread layer is at least half the quoted spread on every unit filled, on either side. |
| WalkLaws.ReportedSpreadFloor | src/l2tca/tca/analysis.py:278-309 | So is the spread it reports, in basis points of the notional. |
| WindowedBacktest.CapturePaysSpread | src/l2tca/research/backtest.py:65-97 | On views replayed from any capture the spread layer meets that floor, and is positive once anything filled. |
| WindowedBacktest.CaptureReportsSpread | src/l2tca/tca/analysis.py:278-309 | On such views the reported spread of an order that filled, with a positive notional, is positive. |
| Backtest.RunWindow | src/l2tca/research/backtest.py:65-98 | The row of a window: no pricing without fills, a missing interval benchmark absorbed, other errors passed on. |
| Backtest.RowFigures | src/l2tca/research/backtest.py:65-98 | A row carries its start, target, filled quantity and number of fills; the average price times the quantity is the notional; each slippage times its benchmark and the quantity is the signed cost of the fills against it; the interval benchmark is that of all the trades, absent exactly when there is none. |
| Backtest.PrefilterChangesNothing | src/l2tca/research/backtest.py:85-87 | Handing the benchmark only the window's trades gives the answer or the error that handing it every trade would. |
| Backtest.SameRow | src/l2tca/research/backtest.py:65-98 | A row depends on its views only through lookups inside the window and the last view. |
| Backtest.LayersMatchSlippage | src/l2tca/research/backtest.py:76-97 | The slippage of the average price against arrival equals the spread and timing layers scaled by the filled share. |
| Windows.SpanAndVolume | src/l2tca/research/backtest.py:110-123 | First and last book stamp and every live trade, or an error without book frames. |
| Windows.LiveTradesAre | src/l2tca/research/backtest.py:110-123 | Every trade of every live message is kept, with its stamp, in order, and nothing of the backfills. |
| Windows.StampsAre | src/l2tca/research/backtest.py:110-123 | The stamp of every book frame is kept, in order, and no other. |
| Windows.WindowsFit | src/l2tca/research/backtest.py:148-157 | Every window lies inside the capture, the first at its start; they are evenly spaced, as far apart as fit, so starts ascend, strictly when the step is positive. |
| WindowedBacktest.LayoutIs | src/l2tca/research/backtest.py:145-157 | There is a layout exactly when a window is asked for and the book frames span more than one; it starts with the capture and is evenly spaced. |
| Windows.Collect | src/l2tca/research/backtest.py:159-174 | The maps hold, for every start, its covered views and the view before the first of them. |
| Windows.BufferIsWindow | src/l2tca/research/backtest.py:168-173 | A buffer is exactly its window's views unless windows share the start and see any. |
| WindowLaws.InsideLooksAlike | src/l2tca/research/backtest.py:176-182 | Carried view plus buffer answer every lookup inside the window like the full history, and end on the same view. |
| WindowLaws.StreamedIsHistorical | src/l2tca/research/backtest.py:159-188 | For any pricing that looks only inside, the stream yields what all views up to the window's end would for the windows that see a view, and drops the others. |
| WindowLaws.DroppedWindows | src/l2tca/research/backtest.py:176-181 | For any pricing that never skips a window with a view at its start, and when nothing escapes, each dropped window that has a view before its end would have added one row; without such windows nothing differs. |
| WindowedBacktest.RunWindows | src/l2tca/research/backtest.py:126-188 | The two passes give the streamed outcome; with ascending stamps, that is the outcome of pricing, on all views up to its end, every window that sees a view and no other. |
| WindowedBacktest.BacktestRows | src/l2tca/research/backtest.py:176-188 | A backtest that completes yields one row for each window that sees a view and is priced, in the order of the windows, and it is the pricing on all views up to its end. |
| WindowLaws.RowsUntilRaised | src/l2tca/research/backtest.py:176-188 | One that raises keeps the rows before the window that raised, and passes on its error. |
| WindowedBacktest.RowOfWindow | src/l2tca/research/backtest.py:182-184 | A row is that of an order of the configured side and size, decided at the start and worked for the duration. |
| WindowedBacktest.BacktestViews | src/l2tca/research/backtest.py:163-163 | It is worked on views of ten levels a side. |
| WindowedBacktest.StreamIsHistory | src/l2tca/research/backtest.py:126-188 | Between the outcomes: the stream is the full history over the windows that see a view, whether or not starts coincide. |
| MissedWindows.StreamDropsBlindWindows | src/l2tca/research/backtest.py:139-143 | Against pricing every window on all views up to its end: equal when every window sees a view or has none before its end; and when that pricing completes, one row short for each other window, so equal only then. |
| Captures.QuietWindowsDropped | src/l2tca/research/backtest.py:168-188 | A two-sided book that stands unchanged for twenty, in three windows of five: the later two are dropped. |
| WindowedBacktest.BuffersAreWindows | src/l2tca/research/backtest.py:156-173 | Windows fit, and buffers are exact if and only if the step is positive, or there is one window, or nothing was seen. |
| WindowedBacktest.EmittedInOrder | src/l2tca/research/backtest.py:163-174 | The replayed views ascend and lie within the capture when its stamps do. |
| Slices.FillsAreSupplied | src/l2tca/tca/analysis.py:199-232 | Every fill is positive and comes from a slice that met some quantity. |
| Slices.SuppliedSliceFills | src/l2tca/tca/analysis.py:199-232 | Every slice that meets some quantity fills. |
| BacktestErrors.RowEscapes | src/l2tca/research/backtest.py:65-98 | A window's pricing raises something other than a `ValueError` exactly when it has no slices, or it has a view at its start and meets some quantity, and a mid it needs is missing or a benchmark is zero. |
| BacktestErrors.RowSkipped | src/l2tca/research/backtest.py:183-188 | A window's pricing raises the `ValueError` that skips it exactly when it has no view at its start and yet meets some quantity. |
| BacktestErrors.BacktestEnds | src/l2tca/research/backtest.py:145-188 | A backtest raises exactly when the capture has no room for its windows, or some frame is refused at its turn, or one of the windows that see a view is such a window on all views up to its end. |
| Captures.OneSidedBookEndsBacktest | src/l2tca/research/backtest.py:183-188 | A capture whose book holds one ask and no bid ends the backtest. |
| BacktestErrors.QuotedBacktestCompletes | src/l2tca/research/backtest.py:176-188 | With room for its windows, no refused frame, two-sided views with positive prices, and trades of no negative size, it never does. |
| Backoff.BoundsClimb | src/l2tca/feed/backoff.py:15-25 | Bounds start at the initial delay, never shrink and never pass the maximum. |
| Backoff.NextBound | src/l2tca/feed/backoff.py:15-25 | Each bound is the one before times the multiplier, until the cap. |
| Backoff.DelayAllowed | src/l2tca/feed/backoff.py:58-64 | Whatever the draw, the delay lies between zero and the bound, and is the bound without jitter. |
| Backoff.DelayCovers | src/l2tca/feed/backoff.py:58-64 | With jitter every delay up to the bound comes out of some draw. |
| Backoff.Delays.Next | src/l2tca/feed/backoff.py:52-64 | The next delay is the one for the generator's own attempt count; it draws once when there is jitter and not otherwise. |
| Subscription.StandingIs | src/l2tca/feed/subscription.py:75-125 | Exactly the undecided channels are waited for, and the handshake is refused exactly when the first message to decide some channel is a refusal. |
| Subscription.LateRefusalUnnoticed | src/l2tca/feed/subscription.py:114-125 | After the book's snapshot a refusal of the book changes nothing, even while the trades are still waited for. |
| FeedLaws.SettlingCollects | src/l2tca/feed/subscription.py:99-127 | Waiting to be settled stamps and collects exactly the frames received meanwhile, in order; it succeeds when they leave nothing pending and is rejected when they refuse a channel. |
| FeedLaws.HandshakeOutcome | src/l2tca/feed/subscription.py:65-127 | Once its requests are out a handshake succeeds exactly when the frames decide every channel and refuse none, and is rejected exactly when for some channel the first frame to decide it is a refusal. |
| FeedLaws.BookIdIs | src/l2tca/feed/subscription.py:93-95 | The id the snapshot settles is that of the first request for the book, and no request's without one. |
| FeedLaws.HandshakeCollects | src/l2tca/feed/subscription.py:65-127 | A handshake stamps every frame it receives, in order, yields none, and succeeds with one request sent per channel, ids consecutive. |
| FeedLaws.LateRefusalAccepted | src/l2tca/feed/subscription.py:103-126 | A handshake for book and trades that receives the book's snapshot, the refusal of the book, and the acknowledgement of the trades succeeds. |
| FeedLaws.ReadingYields | src/l2tca/feed/client.py:146-162 | Every frame the read loop receives, answers to pings not being frames, is stamped, yielded in turn and counted. |
| FeedLaws.ReadingEnds | src/l2tca/feed/client.py:146-162 | How a reading ends, by the events in it: finished exactly when the client was closed with nothing outstanding and the caller still there; a lost connection exactly when something broke, or a ping went unsent or unanswered into a second silence; a fault, a cancellation and a leaving caller are raised. |
| FeedLaws.ReadingStops | src/l2tca/feed/client.py:146-162 | A closed client reads nothing, and the caller is handed nothing more by a reading once it has closed the client or left. |
| FeedLaws.SessionYields | src/l2tca/feed/client.py:91-115 | A session yields consecutive numbers: all it stamped if it came to reading, none if its handshake failed; its count of frames read is the frames its read loop received. |
| FeedLaws.SessionEnds | src/l2tca/feed/client.py:91-120 | How a session ends, by the events in it, in all its stages: before reading it is a lost connection exactly when the last thing awaited broke or timed out; a fault, a cancellation and a leaving caller are raised. |
| FeedLaws.SessionAsks | src/l2tca/feed/client.py:95-158 | A session asks under the next ids in turn, one for each channel and then one for each ping; only ids of requests that did not go out are skipped. |
| FeedLaws.LifeIsFair | src/l2tca/feed/client.py:85-135 | Over every life: request ids and yielded numbers strictly increase, each session starts where the one before left off, a retry follows exactly when one is earned, is numbered from the last session that read a frame and waits what the ladder makes of the next draw, and the life ends as its last session, the budget or the last wait says. |
| FeedLaws.RetriedWhen | src/l2tca/feed/client.py:112-135 | Over every life a session is followed by a retry exactly when its connection was lost, the client is still wanted, and the sessions since the last that read a frame are within `max_reconnects`; and then by another session, unless the wait is cut short or the client closed meanwhile. |
| FeedLaws.GivesUpWhen | src/l2tca/feed/client.py:126-130 | A life gives up exactly when the last connection was lost, the client is still wanted, and the budget is spent. |
| FeedLaws.LifeCloses | src/l2tca/feed/client.py:67-70 | A life ends with the client closed exactly when it was asked to be, while something was awaited or at some message. |
| FeedLaws.RejectedWhen | src/l2tca/feed/client.py:107-111 | A life ends rejected exactly when the frames of its last handshake refuse a channel. |
| FeedLaws.LapReads | src/l2tca/feed/client.py:102-125 | The count the ladder is reset by is, for every session of a life, the frames its read loop received. |
| FeedLaws.StretchOfRetries | src/l2tca/feed/client.py:123-135 | From one session that read a frame to the next, retries are numbered one by one, each waits within the bound for its number, and there are at most `max_reconnects`. |
| FeedClient.KrakenFeedClient.Handshake | src/l2tca/feed/subscription.py:65-127 | The requests and the loop over pending channels leave the client as the handshake on values says. |
| FeedClient.KrakenFeedClient.Settle | src/l2tca/feed/subscription.py:99-127 | The loop over the pending channels is the settling on values: same ending, same numbers, same state. |
| FeedClient.KrakenFeedClient.ReadLoop | src/l2tca/feed/client.py:146-162 | The loop with its ping flag ends as, and yields what, the reading on values says. |
| FeedClient.KrakenFeedClient.Connect | src/l2tca/feed/client.py:91-115 | One connection is the session on values. |
| FeedClient.KrakenFeedClient.Stream | src/l2tca/feed/client.py:85-135 | The loop with its attempt counter and its generator of delays is the life on values, session by session and retry by retry. |
| Writer.PartitionedWriter.WriteRows | src/l2tca/io/writer.py:76-91 | The rows accepted are a prefix of the batch and every partition still spells its accepted rows. Only full parts are written. It stops early only at a row without a time, or after one that fills a buffer holding a row that cannot be written; an open writer with writable buffers takes a batch of complete rows whole. |
| Writer.Table.CompleteKeeps | src/l2tca/io/writer.py:80-84 | Completing a row keeps every column it has, fills only the ones it lacks, and leaves its partition that of its own time. |
| Writer.PartitionedWriter.FlushPartition | src/l2tca/io/writer.py:158-179 | A buffer becomes one new part under the first free number not used before, or stays exactly when a row in it lacks a required column or holds a null there; no existing file changes. |
| Writer.PartitionedWriter.FreePart | src/l2tca/io/writer.py:167-171 | The search ends at the first free number. |
| Writer.PartitionedWriter.Flush | src/l2tca/io/writer.py:93-96 | It empties every buffer exactly when every buffered row can be written. |
| Writer.PartitionedWriter.Close | src/l2tca/io/writer.py:98-102 | It closes exactly when the flush succeeds, and then each partition's parts are its accepted rows. |
| Writer.PartAdded | src/l2tca/io/writer.py:167-179 | A part numbered past all earlier ones of this writer adds its rows at the end. |

## Left out

- CRC-32 is a parameter: any function from payloads to numbers.
- JSON parsing, the recorder, gzip and replay files, logging, the command line, plots and configuration.
- A negative book depth, which would empty a side and raise outside the undo; depths are natural numbers.
- Decimal context rounding, NaN, infinities and negative zero; conversions to float at the end of a row.
- `view`'s symbol, wall-clock and exchange stamps, and the frame limit of the replay; they are copied through.
- `mid` and `spread` of the book, and the benchmark's summary counters: single expressions.
- The verifier's report and the counting loop around it, which stops at the first frame the book refuses; the laws hold for replays that go on as well.
- The writer's schema-drift guard: matching schemas are assumed. Times are values a partition can be computed from.
- `rows_written`, directories and compression of the writer; the order in which `flush` visits partitions is arbitrary here.
- The clock stamps, statistics and control events of the feed client, and errors thrown into the stream by its caller; the deadline of a handshake is a silence. Delays are real numbers, so nothing is said about overflow of the multiplier's power.
- `evaluate.py`, `execution.py`, the signals, the benchmarks and the synthetic generator: short formulas or library joins.
