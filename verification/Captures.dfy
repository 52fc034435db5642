/** Small captures that show where the code falls short of what its comments promise. */
module Captures {
  import opened Market
  import opened BookModel
  import opened BookReads
  import opened OrderBooks
  import opened Checksum
  import opened Tracking
  import opened Verdicts
  import opened Replay
  import opened Execution
  import opened Schedule
  import opened Slices
  import opened Windows
  import opened WindowLaws
  import opened WindowedBacktest
  import opened BacktestErrors
  import opened MissedWindows

  /** A snapshot at zero, and an update that carries no checksum. */
  function TwoFrames(s: Snapshot, t: int, bids: seq<Level>): seq<Message> {
    [Message(0, BookPayload(SnapshotFrame(s))), Message(t, BookPayload(UpdateFrame(Update(bids, [], None))))]
  }

  lemma TwoFramesStamps(s: Snapshot, t: int, bids: seq<Level>)
    ensures BookStamps(TwoFrames(s, t, bids)) == [0, t] && LiveTrades(TwoFrames(s, t, bids)) == []
  {
    var m := TwoFrames(s, t, bids);
    assert m[..1] == [m[0]] && [m[0]][..0] == [];
    assert BookStamps([m[0]]) == [0] && LiveTrades([m[0]]) == [];
  }

  /** Both views show the snapshot. */
  lemma TwoFramesViews(cfg: Settings, levels: int, s: Snapshot, t: int, bids: seq<Level>)
    requires WellFormed(s)
    ensures var e, b := Emitted(cfg, levels, TwoFrames(s, t, bids)), BookModel.ApplySnapshot(EMPTY, s).value;
            !e.raised && e.views == [ViewOfBook(b, levels, 0, None), ViewOfBook(b, levels, t, None)]
  {
    var m := TwoFrames(s, t, bids);
    assert m[..1] == [m[0]] && [m[0]][..0] == [];
    assert Emitted(cfg, levels, [m[0]]) == Emit(cfg, levels, SILENT, m[0]);
    assert Emitted(cfg, levels, m) == Emit(cfg, levels, Emitted(cfg, levels, [m[0]]), m[1]);
  }

  /** A side of one level, at most. */
  function OneOrNone(l: Option<Level>): seq<Level> {
    if l.Some? then [l.value] else []
  }

  lemma SmallSide(side: Side, l: Option<Level>, n: int)
    requires n >= 1 && (l.Some? ==> l.value.qty > 0.0)
    ensures Top(side, BookModel.Fold(map[], OneOrNone(l)), n) == OneOrNone(l)
  {
    var levels := OneOrNone(l);
    var m := BookModel.Fold(map[], levels);
    if l.Some? {
      assert levels[..0] == [] && levels[0] == l.value;
      assert BookModel.Fold(map[], []) == map[];
      assert m == map[l.value.price := l.value];
      assert m.Keys == {l.value.price} && |m| == 1;
      BestFirstListsSide(side, m);
      assert l.value in BestFirst(side, m);
    }
  }

  /** A snapshot with at most one level a side. */
  function Small(bid: Option<Level>, ask: Option<Level>): Snapshot {
    Snapshot(OneOrNone(bid), OneOrNone(ask))
  }

  lemma SmallIsWellFormed(bid: Option<Level>, ask: Option<Level>)
    requires (bid.Some? ==> bid.value.qty > 0.0) && (ask.Some? ==> ask.value.qty > 0.0)
    requires bid.Some? && ask.Some? ==> bid.value.price < ask.value.price
    ensures WellFormed(Small(bid, ask))
  {
    assert OneOrNone(bid)[..0] == [] && OneOrNone(ask)[..0] == [];
    assert BookModel.Fold(map[], []) == map[];
  }

  /** The two views of such a capture. */
  function SmallView(bid: Option<Level>, ask: Option<Level>, recvNs: int): View {
    View(1, recvNs, OneOrNone(bid), OneOrNone(ask), None)
  }

  lemma SmallBookView(levels: int, bid: Option<Level>, ask: Option<Level>, recvNs: int)
    requires levels >= 1 && (bid.Some? ==> bid.value.qty > 0.0) && (ask.Some? ==> ask.value.qty > 0.0)
    requires WellFormed(Small(bid, ask))
    ensures ViewOfBook(BookModel.ApplySnapshot(EMPTY, Small(bid, ask)).value, levels, recvNs, None) == SmallView(bid, ask, recvNs)
  {
    SmallSide(Bid, bid, levels);
    SmallSide(Ask, ask, levels);
  }

  lemma SmallViews(cfg: Settings, levels: int, bid: Option<Level>, ask: Option<Level>, t: int, bids: seq<Level>)
    requires levels >= 1 && (bid.Some? ==> bid.value.qty > 0.0) && (ask.Some? ==> ask.value.qty > 0.0)
    requires bid.Some? && ask.Some? ==> bid.value.price < ask.value.price
    ensures var e := Emitted(cfg, levels, TwoFrames(Small(bid, ask), t, bids));
            !e.raised && e.views == [SmallView(bid, ask, 0), SmallView(bid, ask, t)]
  {
    SmallIsWellFormed(bid, ask);
    TwoFramesViews(cfg, levels, Small(bid, ask), t, bids);
    SmallBookView(levels, bid, ask, 0);
    SmallBookView(levels, bid, ask, t);
  }

  // ---- a view that does not show its frame ----

  /** A deletion without a checksum is not shown: the level is still in the view yielded for
      it, though applying the frame would leave the side empty. */
  lemma DeletedLevelStillShown(cfg: Settings, levels: int, t: int)
    requires levels >= 1
    ensures var held, deleted := Level(1.0, 1.0), Level(1.0, 0.0);
            var views := Emitted(cfg, levels, TwoFrames(Small(Some(held), None), t, [deleted])).views;
            var b := BookModel.ApplySnapshot(EMPTY, Small(Some(held), None)).value;
            && |views| == 2 && views[1].bids == [held]
            && BookModel.ApplyUpdate(b, cfg.depth, Update([deleted], [], None)).Ok?
            && BookModel.ApplyUpdate(b, cfg.depth, Update([deleted], [], None)).value.bids == map[]
  {
    var held, deleted := Level(1.0, 1.0), Level(1.0, 0.0);
    SmallViews(cfg, levels, Some(held), None, t, [deleted]);
    DeletionEmptiesSide(cfg.depth);
  }

  lemma DeletionEmptiesSide(depth: nat)
    ensures var b := BookModel.ApplySnapshot(EMPTY, Small(Some(Level(1.0, 1.0)), None)).value;
            var r := BookModel.ApplyUpdate(b, depth, Update([Level(1.0, 0.0)], [], None));
            r.Ok? && r.value.bids == map[]
  {
    var held, deleted := Level(1.0, 1.0), Level(1.0, 0.0);
    assert [held][..0] == [] && [deleted][..0] == [];
    assert BookModel.Fold(map[], []) == map[];
    assert BookModel.Fold(map[], [held]) == map[1.0 := held];
    assert BookModel.Fold(map[1.0 := held], [deleted]) == map[];
  }

  /** What a window that reaches the first of two views, but not the second, has of them. */
  lemma TwoViews(a: View, b: View, s: int, durationNs: int)
    requires a.recvNs <= s + durationNs < b.recvNs
    ensures Past([a, b], s, durationNs) == [a]
    ensures Within([a, b], s, durationNs) == if Covers(s, durationNs, a.recvNs) then [a] else []
  {
    assert [a, b][..1] == [a] && [a][..0] == [];
    assert UpTo([a], s + durationNs) == [] + [a];
    assert UpTo([a, b], s + durationNs) == UpTo([a], s + durationNs) + [];
    assert Within([a], s, durationNs) == [] + if Covers(s, durationNs, a.recvNs) then [a] else [];
    assert Within([a, b], s, durationNs) == Within([a], s, durationNs) + [];
  }

  // ---- a book without a mid ----

  /** Buying one unit in one slice, over windows of five. */
  const BUY: Setup := Setup(Bid, 1.0, 5, 1)

  /** A book that holds one ask and no bid ends the backtest: its only window fills, and has no mid. */
  lemma OneSidedBookEndsBacktest(depth: nat, scheme: Scheme)
    ensures Outcomes(TwoFrames(Small(None, Some(Level(2.0, 1.0))), 10, []), BUY, 1, depth, scheme, Stream).raised.Some?
  {
    var ask := Level(2.0, 1.0);
    var m := TwoFrames(Small(None, Some(ask)), 10, []);
    TwoFramesStamps(Small(None, Some(ask)), 10, []);
    SmallViews(Settings(depth, scheme), VIEW_LEVELS, None, Some(ask), 10, []);
    OneSidedWindow(BUY, SmallView(None, Some(ask), 0), SmallView(None, Some(ask), 10));
    assert Layout([0, 10], 5, 1) == Ok(Starts(0, 0, 1));
    BacktestEnds(m, BUY, 1, depth, scheme);
    assert WindowEnds(BUY, [SmallView(None, Some(ask), 0), SmallView(None, Some(ask), 10)], [], Starts(0, 0, 1)[0]);
  }

  lemma OneSidedWindow(w: Setup, a: View, b: View)
    requires w.side == Bid && w.qty > 0.0 && 0 < w.durationNs < 10 && w.slices == 1
    requires a.recvNs == 0 && b.recvNs == 10 && a.bids == [] && a.asks == [Level(2.0, 1.0)]
    ensures WindowEnds(w, [a, b], [], 0)
  {
    TwoViews(a, b, 0, w.durationNs);
    assert Covers(0, w.durationNs, a.recvNs);
    OneSidedEnds(w.OrderAt(0), a, w.EndOf(0), w.slices);
    PastEnds(w, [a, b], 0, [a]);
  }

  lemma PastEnds(w: Setup, views: seq<View>, s: int, past: seq<View>)
    requires Sees(views, s, w.durationNs) && Past(views, s, w.durationNs) == past
    requires EndsBacktest(w.OrderAt(s), past, [], s, w.EndOf(s), w.slices)
    ensures WindowEnds(w, views, [], s)
  {
  }

  lemma OneSidedEnds(order: Order, a: View, endNs: int, slices: int)
    requires slices == 1
    requires a.recvNs == 0 < endNs && a.bids == [] && a.asks == [Level(2.0, 1.0)]
    requires order.side == Bid && order.targetQty > 0.0
    ensures EndsBacktest(order, [a], [], 0, endNs, slices)
  {
    assert AsOf([a], 0) == Some(a);
    var j := Plan(order, [a], 0, endNs, slices);
    assert j.times[0] == 0 && j.shown[0] == ShownAt(Bid, [a], 0) == a.asks;
    assert Visible(a.asks) == 1.0 by {
      assert a.asks[1..] == [];
    }
    assert Supplied(j, 0);
  }

  // ---- windows that see no view ----

  lemma QuietMiddle(a: View, b: View)
    requires a.recvNs == 0 && b.recvNs == 20
    ensures Sees([a, b], 0, 5) && Blind([a, b], 7, 5) && Blind([a, b], 14, 5)
  {
    TwoViews(a, b, 0, 5);
    TwoViews(a, b, 7, 5);
    TwoViews(a, b, 14, 5);
  }

  lemma QuietCount(a: View, b: View)
    requires a.recvNs == 0 && b.recvNs == 20
    ensures BlindCount([a, b], 5, [0, 7, 14]) == 2
  {
    QuietMiddle(a, b);
    assert [0, 7, 14][..2] == [0, 7] && [0, 7][..1] == [0] && [0][..0] == [];
    assert BlindCount([a, b], 5, [0]) == 0 && BlindCount([a, b], 5, [0, 7]) == 1;
  }

  /** One bid and one ask, and nothing new for twenty. */
  function Quiet(): seq<Message> {
    TwoFrames(Small(Some(BID), Some(ASK)), 20, [])
  }

  lemma QuietReplay(depth: nat, scheme: Scheme)
    ensures BookStamps(Quiet()) == [0, 20] && LiveTrades(Quiet()) == []
    ensures var e := Emitted(Settings(depth, scheme), VIEW_LEVELS, Quiet());
            !e.raised && e.views == [SmallView(Some(BID), Some(ASK), 0), SmallView(Some(BID), Some(ASK), 20)]
  {
    TwoFramesStamps(Small(Some(BID), Some(ASK)), 20, []);
    SmallViews(Settings(depth, scheme), VIEW_LEVELS, Some(BID), Some(ASK), 20, []);
  }

  lemma QuietLayout()
    ensures Layout([0, 20], 5, 3) == Ok([0, 7, 14])
  {
    assert Starts(0, 7, 3) == [0, 7, 14];
  }

  /** A book that stands unchanged for twenty, in three windows of five: the later two are
      dropped, although there is a two-sided book at their start. */
  lemma QuietWindowsDropped(depth: nat, scheme: Scheme)
    ensures var stream, history := Outcomes(Quiet(), BUY, 3, depth, scheme, Stream), Outcomes(Quiet(), BUY, 3, depth, scheme, History);
            stream.raised.None? && history.raised.None? && |history.rows| == |stream.rows| + 2
  {
    QuietReplay(depth, scheme);
    ReplayRaises(Settings(depth, scheme), VIEW_LEVELS, Quiet());
    QuietLayout();
    QuietCount(SmallView(Some(BID), Some(ASK), 0), SmallView(Some(BID), Some(ASK), 20));
    QuotedHistoryCompletes(Quiet(), BUY, 3, depth, scheme);
    StreamDropsBlindWindows(Quiet(), BUY, 3, depth, scheme);
  }
}
