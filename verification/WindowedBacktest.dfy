/** The backtest over a whole capture: lay out the windows, stream the views, price each window. */
module WindowedBacktest {
  import opened Market
  import opened Checksum
  import opened Tracking
  import opened Replay
  import opened Execution
  import opened Lookups
  import opened Backtest
  import opened Windows
  import opened WindowLaws
  import opened Costs
  import opened WalkLaws

  /** What every window of a backtest shares. */
  datatype Setup = Setup(side: Side, qty: real, durationNs: int, slices: int) {
    function OrderAt(s: int): Order {
      Order(side, qty, s)
    }

    function EndOf(s: int): int {
      s + durationNs
    }
  }

  /** The row of the window that starts at `s`. */
  function WindowRow(w: Setup, volumes: seq<(int, real)>, s: int, views: seq<View>): Result<Row> {
    RowOf(w.OrderAt(s), views, volumes, s, w.EndOf(s), w.slices)
  }

  function PricerOf(w: Setup, volumes: seq<(int, real)>): Pricer {
    (s, views) => WindowRow(w, volumes, s, views)
  }

  lemma SameWindowRow(w: Setup, volumes: seq<(int, real)>, s: int, a: seq<View>, b: seq<View>)
    requires w.durationNs >= 0 && SameInside(a, b, s, s + w.durationNs)
    ensures WindowRow(w, volumes, s, a) == WindowRow(w, volumes, s, b)
  {
    SameRow(w.OrderAt(s), a, b, volumes, s, w.EndOf(s), w.slices);
  }

  lemma RowsLookInside(w: Setup, volumes: seq<(int, real)>)
    requires w.durationNs >= 0
    ensures LooksInside(PricerOf(w, volumes), w.durationNs)
  {
    forall s, a, b | SameInside(a, b, s, s + w.durationNs)
      ensures PricerOf(w, volumes)(s, a) == PricerOf(w, volumes)(s, b)
    {
      SameWindowRow(w, volumes, s, a, b);
    }
  }

  const VIEW_LEVELS := 10

  /** The windows of a capture that has `windows` of them to offer. */
  function Layout(stamps: seq<int>, durationNs: int, windows: int): Result<seq<int>> {
    if windows < 1 || stamps == [] then Err(ValueError)
    else
      var first, last := stamps[0], stamps[|stamps| - 1];
      if last - first <= durationNs then Err(ValueError)
      else Ok(Starts(first, StepOf(last - first, durationNs, windows), windows))
  }

  /** There is a layout exactly when at least one window is asked for and the book frames span
      more than one; the windows then start with the capture, evenly spaced, as far apart as fit
      before its end. */
  lemma LayoutIs(stamps: seq<int>, durationNs: int, windows: int)
    ensures Layout(stamps, durationNs, windows).Ok? <==>
            windows >= 1 && stamps != [] && stamps[|stamps| - 1] - stamps[0] > durationNs
    ensures Layout(stamps, durationNs, windows).Ok? ==>
              var starts, room := Layout(stamps, durationNs, windows).value, stamps[|stamps| - 1] - stamps[0] - durationNs;
              var gap := if windows > 1 then starts[1] - starts[0] else 0;
              && |starts| == windows && starts[0] == stamps[0]
              && (forall i :: 0 < i < windows ==> starts[i] == starts[i - 1] + gap)
              && (windows > 1 ==> (windows - 1) * gap <= room < (windows - 1) * (gap + 1))
  {
    if Layout(stamps, durationNs, windows).Ok? {
      WindowsFit(stamps[0], stamps[|stamps| - 1], durationNs, windows);
    }
  }

  /** What windows are priced on: what the stream holds for them; all views up to their end,
      for those that see a view; or all views up to their end, for every one. */
  datatype Source = Stream | SeenHistory | History

  const SETUP_FAILED: Outcome := Outcome([], Some(ValueError))

  /** The outcome over a replay of the views, when every window is priced on what `source` gives it. */
  ghost function OutcomesOn(e: Emission, w: Setup, volumes: seq<(int, real)>, starts: seq<int>, source: Source): Outcome {
    if e.raised then SETUP_FAILED
    else
      var price := PricerOf(w, volumes);
      match source
      case Stream => Yielded(price, FromStream(e.views, w.durationNs, starts), starts)
      case SeenHistory => Yielded(price, FromHistory(e.views, w.durationNs), Seeing(e.views, w.durationNs, starts))
      case History => Yielded(price, FromHistory(e.views, w.durationNs), starts)
  }

  /** The outcome of a backtest over a capture. */
  ghost function Outcomes(messages: seq<Message>, w: Setup, windows: int, depth: nat, scheme: Scheme, source: Source): Outcome {
    match Layout(BookStamps(messages), w.durationNs, windows)
    case Err(_) => SETUP_FAILED
    case Ok(starts) =>
      OutcomesOn(Emitted(Settings(depth, scheme), VIEW_LEVELS, messages), w, LiveTrades(messages), starts, source)
  }

  /** Ascending views, stamped no earlier than the first and no later than the last of `stamps`. */
  predicate InStep(views: seq<View>, stamps: seq<int>) {
    && InOrder(views)
    && forall i :: 0 <= i < |views| ==> stamps != [] && stamps[0] <= views[i].recvNs <= stamps[|stamps| - 1]
  }

  lemma InStepGrows(views: seq<View>, stamps: seq<int>, t: int)
    requires InStep(views, stamps) && Ascending(stamps + [t])
    ensures InStep(views, stamps + [t])
    ensures forall v: View :: v.recvNs == t ==> InStep(views + [v], stamps + [t])
  {
    var later := stamps + [t];
    if stamps != [] {
      assert later[0] == stamps[0] && later[|stamps| - 1] <= later[|stamps|];
    }
  }

  lemma ViewAdded(cfg: Settings, levels: int, e: Emission, msg: Message)
    ensures var e' := Emit(cfg, levels, e, msg);
            e'.views == e.views || (msg.payload.BookPayload? && exists v :: e'.views == e.views + [v] && v.recvNs == msg.recvNs)
  {
    EmitAddsView(cfg, levels, e, msg);
  }

  /** The views of a replay ascend, and lie within the capture, when the capture's stamps do. */
  lemma {:induction false} EmittedInOrder(cfg: Settings, levels: int, messages: seq<Message>)
    requires Ascending(BookStamps(messages))
    ensures InStep(Emitted(cfg, levels, messages).views, BookStamps(messages))
  {
    if messages != [] {
      var n := |messages| - 1;
      var before := BookStamps(messages[..n]);
      assert forall i :: 0 <= i < |before| ==> before[i] == BookStamps(messages)[i];
      EmittedInOrder(cfg, levels, messages[..n]);
      ViewAdded(cfg, levels, Emitted(cfg, levels, messages[..n]), messages[n]);
      if messages[n].payload.BookPayload? {
        InStepGrows(Emitted(cfg, levels, messages[..n]).views, before, messages[n].recvNs);
      }
    }
  }

  /** The views of a backtest are those of a replay that shows ten levels a side. */
  lemma BacktestViews(messages: seq<Message>, depth: nat, scheme: Scheme)
    requires !AnyRefused(Settings(depth, scheme), messages)
    ensures Emitted(Settings(depth, scheme), VIEW_LEVELS, messages).views == Shown(Settings(depth, scheme), 10, messages)
  {
    ReplayRaises(Settings(depth, scheme), VIEW_LEVELS, messages);
    ViewsAreTracked(Settings(depth, scheme), VIEW_LEVELS, messages);
  }

  /** Lays out the windows in one pass and prices them after another. */
  method RunWindows(messages: seq<Message>, w: Setup, windows: int, depth: nat, scheme: Scheme) returns (o: Outcome)
    ensures o == Outcomes(messages, w, windows, depth, scheme, Stream)
    ensures Ascending(BookStamps(messages)) && w.durationNs >= 0 ==> o == Outcomes(messages, w, windows, depth, scheme, SeenHistory)
  {
    if Ascending(BookStamps(messages)) && w.durationNs >= 0 {
      StreamIsHistory(messages, w, windows, depth, scheme);
    }
    var layout, volumes := LayOut(messages, w.durationNs, windows);
    if layout.Err? {
      return SETUP_FAILED;
    }
    o := StreamWindows(messages, w, volumes, layout.value, depth, scheme);
  }

  /** The cheap pass: where the windows start, and the trades. */
  method LayOut(messages: seq<Message>, durationNs: int, windows: int) returns (starts: Result<seq<int>>, volumes: seq<(int, real)>)
    ensures starts == Layout(BookStamps(messages), durationNs, windows)
    ensures starts.Ok? ==> volumes == LiveTrades(messages) && Ascending(starts.value)
  {
    if windows < 1 {
      return Err(ValueError), [];
    }
    var span := SpanAndVolume(messages);
    if span.Err? {
      return Err(ValueError), [];
    }
    var Span(first, last, trades) := span.value;
    if last - first <= durationNs {
      return Err(ValueError), [];
    }
    WindowsFit(first, last, durationNs, windows);
    return Ok(Starts(first, StepOf(last - first, durationNs, windows), windows)), trades;
  }

  /** Replays the views once, then prices what each start has collected. */
  method StreamWindows(messages: seq<Message>, w: Setup, volumes: seq<(int, real)>, starts: seq<int>, depth: nat, scheme: Scheme)
    returns (o: Outcome)
    requires Ascending(starts)
    ensures o == OutcomesOn(Emitted(Settings(depth, scheme), VIEW_LEVELS, messages), w, volumes, starts, Stream)
  {
    var views, replayed := IterBookViews(messages, depth, VIEW_LEVELS, scheme);
    if replayed.Err? {
      return SETUP_FAILED;
    }
    var buffers, carried := Collect(views, starts, w.durationNs);
    o := PriceWindows(w, volumes, views, starts, buffers, carried);
  }

  /** What the maps hold for a start is what the stream gives it. */
  lemma HeldForStart(views: seq<View>, starts: seq<int>, durationNs: int,
                     buffers: map<int, seq<View>>, carried: map<int, Option<View>>, i: nat)
    requires i < |starts| && Collected(views, starts, durationNs, buffers, carried)
    ensures starts[i] in buffers && starts[i] in carried
    ensures WindowViews(carried[starts[i]], buffers[starts[i]]) == FromStream(views, durationNs, starts)(starts[i])
  {
    var s := starts[i];
    assert s in starts;
    assert FromStream(views, durationNs, starts)(s) == Seen(views, s, durationNs, Count(starts, s));
    assert buffers[s] == Gathered(views, s, durationNs, Count(starts, s)) && carried[s] == Carried(views, s, durationNs);
  }

  lemma PricerIsRow(w: Setup, volumes: seq<(int, real)>, s: int, views: seq<View>, o: Outcome)
    requires o.raised.None? && views != []
    ensures Extended(PricerOf(w, volumes), o, s, views) == Recorded(o, WindowRow(w, volumes, s, views))
  {
  }

  method WorkWindow(w: Setup, volumes: seq<(int, real)>, s: int, seen: seq<View>) returns (row: Result<Row>)
    ensures row == WindowRow(w, volumes, s, seen)
  {
    row := RunWindow(w.OrderAt(s), seen, volumes, s, w.EndOf(s), w.slices);
  }

  /** One window of the second loop. */
  method PriceWindow(w: Setup, volumes: seq<(int, real)>, s: int, seen: seq<View>, o: Outcome) returns (o': Outcome)
    requires o.raised.None?
    ensures o' == Extended(PricerOf(w, volumes), o, s, seen)
  {
    if seen == [] {
      return o;
    }
    PricerIsRow(w, volumes, s, seen, o);
    var row := WorkWindow(w, volumes, s, seen);
    o' := Record(o, row);
  }

  method Record(o: Outcome, row: Result<Row>) returns (o': Outcome)
    ensures o' == Recorded(o, row)
  {
    match row
    case Ok(value) => o' := o.(rows := o.rows + [value]);
    case Err(e) => o' := if e == ValueError then o else o.(raised := Some(e));
  }

  /** The outcome after one start more. */
  lemma YieldedStep(price: Pricer, input: int -> seq<View>, starts: seq<int>, i: nat)
    requires i < |starts|
    ensures Yielded(price, input, starts[..i + 1]) == Extended(price, Yielded(price, input, starts[..i]), starts[i], input(starts[i]))
  {
    SliceSnoc(starts, 0, i + 1);
    YieldedSnoc(price, input, starts[..i], starts[i]);
  }

  /** What one start of the second loop adds. */
  method PriceStart(w: Setup, volumes: seq<(int, real)>, ghost views: seq<View>, starts: seq<int>,
                    buffers: map<int, seq<View>>, carried: map<int, Option<View>>, i: nat, o: Outcome)
    returns (o': Outcome)
    requires i < |starts| && Collected(views, starts, w.durationNs, buffers, carried) && o.raised.None?
    ensures o' == Extended(PricerOf(w, volumes), o, starts[i], FromStream(views, w.durationNs, starts)(starts[i]))
  {
    HeldForStart(views, starts, w.durationNs, buffers, carried, i);
    o' := PriceWindow(w, volumes, starts[i], WindowViews(carried[starts[i]], buffers[starts[i]]), o);
  }

  /** The second loop: one row per start whose maps hold a view. */
  method PriceWindows(w: Setup, volumes: seq<(int, real)>, ghost views: seq<View>, starts: seq<int>,
                      buffers: map<int, seq<View>>, carried: map<int, Option<View>>)
    returns (o: Outcome)
    requires Collected(views, starts, w.durationNs, buffers, carried)
    ensures o == Yielded(PricerOf(w, volumes), FromStream(views, w.durationNs, starts), starts)
  {
    ghost var price, input := PricerOf(w, volumes), FromStream(views, w.durationNs, starts);
    o := Outcome([], None);
    for i := 0 to |starts|
      invariant o.raised.None? && o == Yielded(price, input, starts[..i])
    {
      YieldedStep(price, input, starts, i);
      o := PriceStart(w, volumes, views, starts, buffers, carried, i, o);
      if o.raised.Some? {
        RaisedStays(price, input, starts, i + 1);
        return;
      }
    }
    assert starts[..|starts|] == starts;
  }

  lemma {:induction false} RaisedStays(price: Pricer, input: int -> seq<View>, starts: seq<int>, i: nat)
    requires i <= |starts| && Yielded(price, input, starts[..i]).raised.Some?
    ensures Yielded(price, input, starts) == Yielded(price, input, starts[..i])
  {
    for k := i to |starts|
      invariant Yielded(price, input, starts[..k]) == Yielded(price, input, starts[..i])
    {
      YieldedStep(price, input, starts, k);
    }
    assert starts[..|starts|] == starts;
  }

  /** A capture with ascending stamps yields the rows that pricing on all views up to its end
      would, for every window that sees a view and for no other, whatever the layout and
      whether or not starts coincide. */
  lemma StreamIsHistory(messages: seq<Message>, w: Setup, windows: int, depth: nat, scheme: Scheme)
    requires Ascending(BookStamps(messages)) && w.durationNs >= 0
    ensures Outcomes(messages, w, windows, depth, scheme, Stream) == Outcomes(messages, w, windows, depth, scheme, SeenHistory)
  {
    var layout := Layout(BookStamps(messages), w.durationNs, windows);
    var cfg := Settings(depth, scheme);
    if layout.Ok? && !Emitted(cfg, VIEW_LEVELS, messages).raised {
      EmittedInOrder(cfg, VIEW_LEVELS, messages);
      RowsLookInside(w, LiveTrades(messages));
      StreamedIsHistorical(PricerOf(w, LiveTrades(messages)), Emitted(cfg, VIEW_LEVELS, messages).views, w.durationNs, layout.value);
    }
  }

  /** What a window's row is about: an order of the configured side and size, decided at the
      window's start and worked until a duration later. */
  lemma RowOfWindow(w: Setup, trades: seq<(int, real)>, s: int, views: seq<View>, row: Row)
    requires PricerOf(w, trades)(s, views) == Ok(row)
    ensures row.startNs == s && row.targetQty == w.qty
    ensures w.OrderAt(s) == Order(w.side, w.qty, s) && w.EndOf(s) == s + w.durationNs
  {
    RowFigures(w.OrderAt(s), views, trades, s, w.EndOf(s), w.slices);
  }

  /** A backtest that completes yields one row for each window that gives one, in the order of the
      windows: the pricing of the window on all views up to its end, if it sees one. */
  lemma BacktestRows(messages: seq<Message>, w: Setup, windows: int, depth: nat, scheme: Scheme)
    requires Ascending(BookStamps(messages)) && w.durationNs >= 0
    requires Outcomes(messages, w, windows, depth, scheme, Stream).raised.None?
    ensures Layout(BookStamps(messages), w.durationNs, windows).Ok?
    ensures var views := Emitted(Settings(depth, scheme), VIEW_LEVELS, messages).views;
            var seeing := Seeing(views, w.durationNs, Layout(BookStamps(messages), w.durationNs, windows).value);
            RowsMatch(Outcomes(messages, w, windows, depth, scheme, Stream).rows,
                   PricerOf(w, LiveTrades(messages)), FromHistory(views, w.durationNs), seeing)
  {
    var views := Emitted(Settings(depth, scheme), VIEW_LEVELS, messages).views;
    StreamIsHistory(messages, w, windows, depth, scheme);
    RowsInOrder(PricerOf(w, LiveTrades(messages)), FromHistory(views, w.durationNs),
                Seeing(views, w.durationNs, Layout(BookStamps(messages), w.durationNs, windows).value));
  }

  /** Every window fits inside the capture, and its buffer is exactly the views stamped
      within it unless windows coincide: they do when the step is zero, and then each
      view is held once per window. */
  lemma BuffersAreWindows(stamps: seq<int>, views: seq<View>, durationNs: int, windows: int, s: int)
    requires Layout(stamps, durationNs, windows).Ok? && s in Layout(stamps, durationNs, windows).value
    ensures stamps[0] <= s && s + durationNs <= stamps[|stamps| - 1]
    ensures var starts := Layout(stamps, durationNs, windows).value;
            var step := StepOf(stamps[|stamps| - 1] - stamps[0], durationNs, windows);
            && Count(starts, s) == (if step >= 1 then 1 else windows)
            && (Gathered(views, s, durationNs, Count(starts, s)) == Within(views, s, durationNs)
                <==> step >= 1 || windows == 1 || Within(views, s, durationNs) == [])
  {
    var first, last := stamps[0], stamps[|stamps| - 1];
    var step := StepOf(last - first, durationNs, windows);
    var starts := Starts(first, step, windows);
    WindowsFit(first, last, durationNs, windows);
    if step >= 1 {
      CountDistinct(starts, s);
    } else {
      CountAll(starts, s);
    }
    BufferIsWindow(views, s, durationNs, Count(starts, s));
  }

  /** From a capture to its cost: whatever the feed sent, an execution simulated on the
      replayed views pays at least half the spread on every fill, and pays something if
      it filled at all. */
  lemma CapturePaysSpread(cfg: Settings, levels: int, messages: seq<Message>, order: Order,
                          startNs: int, endNs: int, slices: int, fills: seq<Fill>, s: Shortfall)
    ensures var views := Emitted(cfg, levels, messages).views;
            Simulated(order, views, startNs, endNs, slices) == Ok(fills) && ShortfallOf(order, fills, views) == Ok(s) ==>
              s.spread >= HalfSpreads(views, fills) && (fills != [] ==> s.spread > 0.0)
  {
    var views := Emitted(cfg, levels, messages).views;
    if Simulated(order, views, startNs, endNs, slices) == Ok(fills) && ShortfallOf(order, fills, views) == Ok(s) {
      EmittedViewsAreGood(cfg, levels, messages);
      SpreadLayerFloor(order, views, startNs, endNs, slices);
      HalfSpreadsCost(views, fills);
    }
  }

  /** And what is reported as its spread, in basis points of a positive notional, is positive. */
  lemma CaptureReportsSpread(cfg: Settings, levels: int, messages: seq<Message>, order: Order, startNs: int, endNs: int, slices: int)
    requires Simulated(order, Emitted(cfg, levels, messages).views, startNs, endNs, slices).Ok?
    requires var views := Emitted(cfg, levels, messages).views;
             Attributed(order, Simulated(order, views, startNs, endNs, slices).value, views).Ok?
    ensures var views := Emitted(cfg, levels, messages).views;
            var fills := Simulated(order, views, startNs, endNs, slices).value;
            fills != [] && TargetAt(order, MidAt(order.decisionNs, views).value) > 0.0 ==>
              Attributed(order, fills, views).value.spreadBps > 0.0
  {
    EmittedViewsAreGood(cfg, levels, messages);
    ReportedSpreadPositive(order, Emitted(cfg, levels, messages).views, startNs, endNs, slices);
  }
}
