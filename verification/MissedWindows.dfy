/** What the backtest leaves out: windows that see no view are dropped, even with a book at their start. */
module MissedWindows {
  import opened Checksum
  import opened Tracking
  import opened Replay
  import opened Execution
  import opened Lookups
  import opened Windows
  import opened WindowLaws
  import opened WindowedBacktest
  import opened BacktestErrors

  lemma RowsKnowStart(w: Setup, volumes: seq<(int, real)>)
    ensures KnowsStart(PricerOf(w, volumes))
  {
    forall s, views | InOrder(views) && AsOf(views, s).Some?
      ensures !Skipped(PricerOf(w, volumes)(s, views))
    {
      RowSkipped(w.OrderAt(s), views, volumes, s, w.EndOf(s), w.slices);
    }
  }

  /** The windows of a backtest that see no view although there is one before their end. */
  ghost function BlindWindows(messages: seq<Message>, w: Setup, windows: int, depth: nat, scheme: Scheme): nat {
    var layout, e := Layout(BookStamps(messages), w.durationNs, windows), Emitted(Settings(depth, scheme), VIEW_LEVELS, messages);
    if layout.Err? || e.raised then 0 else BlindCount(e.views, w.durationNs, layout.value)
  }

  /** Every window sees a view, or has none before its end. */
  ghost predicate AllServed(messages: seq<Message>, w: Setup, windows: int, depth: nat, scheme: Scheme) {
    var layout, e := Layout(BookStamps(messages), w.durationNs, windows), Emitted(Settings(depth, scheme), VIEW_LEVELS, messages);
    layout.Ok? && !e.raised ==> forall i :: 0 <= i < |layout.value| ==> !Blind(e.views, layout.value[i], w.durationNs)
  }

  lemma ServedMeansNoneBlind(messages: seq<Message>, w: Setup, windows: int, depth: nat, scheme: Scheme)
    ensures AllServed(messages, w, windows, depth, scheme) <==> BlindWindows(messages, w, windows, depth, scheme) == 0
  {
    var layout, e := Layout(BookStamps(messages), w.durationNs, windows), Emitted(Settings(depth, scheme), VIEW_LEVELS, messages);
    if layout.Ok? {
      CountsBlind(e.views, w.durationNs, layout.value);
    }
  }

  /** Against pricing every window on all views up to its end, which always gives a row when
      there is a view at the start, or raises: the stream yields one row less for every
      window that sees no view although there is one before it. So a backtest that completes
      on the full histories is the streamed one exactly when there is no such window. */
  lemma StreamDropsBlindWindows(messages: seq<Message>, w: Setup, windows: int, depth: nat, scheme: Scheme)
    requires Ascending(BookStamps(messages)) && w.durationNs >= 0
    ensures var stream, history := Outcomes(messages, w, windows, depth, scheme, Stream), Outcomes(messages, w, windows, depth, scheme, History);
            && (AllServed(messages, w, windows, depth, scheme) ==> stream == history)
            && (history.raised.None? ==>
                  && stream.raised.None?
                  && |history.rows| == |stream.rows| + BlindWindows(messages, w, windows, depth, scheme)
                  && (stream == history <==> AllServed(messages, w, windows, depth, scheme)))
  {
    var layout, e := Layout(BookStamps(messages), w.durationNs, windows), Emitted(Settings(depth, scheme), VIEW_LEVELS, messages);
    ServedMeansNoneBlind(messages, w, windows, depth, scheme);
    StreamIsHistory(messages, w, windows, depth, scheme);
    if layout.Ok? && !e.raised {
      EmittedInOrder(Settings(depth, scheme), VIEW_LEVELS, messages);
      RowsKnowStart(w, LiveTrades(messages));
      DroppedWindows(PricerOf(w, LiveTrades(messages)), e.views, w.durationNs, layout.value);
    }
  }

  /** On two-sided views with positive prices the full histories are priced to the end. */
  lemma QuotedHistoryCompletes(messages: seq<Message>, w: Setup, windows: int, depth: nat, scheme: Scheme)
    requires Ascending(BookStamps(messages)) && w.slices != 0
    requires Layout(BookStamps(messages), w.durationNs, windows).Ok? && !AnyRefused(Settings(depth, scheme), messages)
    requires forall v :: v in Emitted(Settings(depth, scheme), VIEW_LEVELS, messages).views ==> Quoted(v)
    requires forall b :: b in LiveTrades(messages) ==> b.1 >= 0.0
    ensures Outcomes(messages, w, windows, depth, scheme, History).raised.None?
  {
    var starts, views := Layout(BookStamps(messages), w.durationNs, windows).value, Emitted(Settings(depth, scheme), VIEW_LEVELS, messages).views;
    ReplayRaises(Settings(depth, scheme), VIEW_LEVELS, messages);
    EmittedInOrder(Settings(depth, scheme), VIEW_LEVELS, messages);
    HistoryRaises(w, views, LiveTrades(messages), starts);
    forall s
      ensures !HistoryEnds(w, views, LiveTrades(messages), s)
    {
      QuotedWindow(w, views, LiveTrades(messages), s);
    }
  }
}
