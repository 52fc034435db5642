/** The depth-limited book, changed in place and undone from a log when a frame is refused. */
module OrderBooks {
  import opened Market
  import opened SortedDictionary
  import opened BookModel
  import opened BookLaws
  import opened BookReads

  /** What one write replaced: the side it went to, the price, and what stood there. */
  datatype Undo = Undo(side: SortedDict, price: real, previous: Option<Level>)

  function Restore(m: Ladder, price: real, previous: Option<Level>): Ladder {
    match previous
    case None => m - {price}
    case Some(level) => m[price := level]
  }

  /** The contents `m` of side `d` after replaying `log` backwards. */
  ghost function Undone(log: seq<Undo>, d: SortedDict, m: Ladder): Ladder
    decreases |log|
  {
    if log == [] then m
    else
      var n := |log| - 1;
      Undone(log[..n], d, if log[n].side == d then Restore(m, log[n].price, log[n].previous) else m)
  }

  /** Putting back what a write replaced undoes it, whatever it wrote. */
  lemma RestoreUndoes(m: Ladder, m': Ladder, p: real)
    requires m' - {p} == m - {p}
    ensures Restore(m', p, if p in m then Some(m[p]) else None) == m
  {
    var back := Restore(m', p, if p in m then Some(m[p]) else None);
    assert back - {p} == m' - {p};
    assert forall q :: q in back <==> (q == p && p in m) || q in back - {p};
    assert forall q :: q in m <==> (q == p && p in m) || q in m - {p};
    forall q | q in m && q != p
      ensures q in back && back[q] == m[q]
    {
      assert q in m - {p} && (m - {p})[q] == m[q];
      assert (back - {p})[q] == back[q];
    }
    assert back == m;
  }

  /** Logging what a write is about to replace makes the log undo that write too. */
  lemma LogWrite(log: seq<Undo>, d: SortedDict, m: Ladder, m': Ladder, p: real, e: SortedDict, me: Ladder)
    requires d != e && m' - {p} == m - {p}
    ensures var log' := log + [Undo(d, p, if p in m then Some(m[p]) else None)];
            Undone(log', d, m') == Undone(log, d, m) && Undone(log', e, me) == Undone(log, e, me)
  {
    var log' := log + [Undo(d, p, if p in m then Some(m[p]) else None)];
    assert log'[..|log|] == log;
    RestoreUndoes(m, m', p);
  }

  predicate LogsOnly(log: seq<Undo>, d: SortedDict, e: SortedDict) {
    forall i :: 0 <= i < |log| ==> log[i].side == d || log[i].side == e
  }

  class OrderBook {
    const depth: nat
    var seqno: nat
    var bids: SortedDict
    var asks: SortedDict

    /** The two sides are separate, sorted dictionaries. Holds in the middle of a frame too. */
    ghost predicate Wired()
      reads this, bids, asks
    {
      bids != asks && bids.Valid() && asks.Valid()
    }

    ghost predicate Valid()
      reads this, bids, asks
    {
      Wired() && Sound(State())
    }

    ghost function State(): Book
      reads this, bids, asks
    {
      Book(bids.dict, asks.dict, seqno)
    }

    constructor (depth: nat)
      ensures Valid() && State() == EMPTY && this.depth == depth
      ensures fresh(bids) && fresh(asks)
    {
      this.depth := depth;
      seqno := 0;
      bids := new SortedDict();
      asks := new SortedDict();
    }

    // ---- writing ----

    static method LoadSide(levels: seq<Level>) returns (r: Result<SortedDict>)
      ensures r.Ok? <==> AllPositive(levels)
      ensures r.Ok? ==> fresh(r.value) && r.value.Valid() && r.value.dict == Fold(map[], levels)
      ensures r.Err? ==> r.error == ValueError
    {
      var side := new SortedDict();
      for i := 0 to |levels|
        invariant fresh(side) && side.Valid()
        invariant AllPositive(levels[..i])
        invariant side.dict == Fold(map[], levels[..i])
      {
        if levels[i].qty <= 0.0 {
          return Err(ValueError);
        }
        side.Set(levels[i].price, levels[i]);
        assert levels[..i + 1][..i] == levels[..i];
      }
      assert levels[..|levels|] == levels;
      r := Ok(side);
    }

    /** Loads a full book state; a malformed snapshot changes nothing. */
    method ApplySnapshot(snapshot: Snapshot) returns (r: Result<()>)
      requires Valid()
      modifies this
      ensures Valid()
      ensures match BookModel.ApplySnapshot(old(State()), snapshot)
              case Ok(after) => r.Ok? && State() == after && fresh(bids) && fresh(asks)
              case Err(e) => r == Err(e) && bids == old(bids) && asks == old(asks) && State() == old(State())
    {
      var newBids :- LoadSide(snapshot.bids);
      var newAsks :- LoadSide(snapshot.asks);
      var crossed := Overlap(newBids, newAsks);
      if crossed {
        return Err(ValueError);
      }
      SnapshotSound(State(), snapshot);
      bids := newBids;
      asks := newAsks;
      seqno := seqno + 1;
      r := Ok(());
    }

    /** Best bid at or above best ask, read off the ends of the two sides. */
    static method Overlap(bids: SortedDict, asks: SortedDict) returns (crossed: bool)
      requires bids.Valid() && asks.Valid()
      ensures crossed <==> Crossed(bids.dict, asks.dict)
    {
      if |bids.keys| == 0 || |asks.keys| == 0 {
        return false;
      }
      EndsAreTouches(bids.keys, bids.dict);
      EndsAreTouches(asks.keys, asks.dict);
      var b, a := bids.keys[|bids.keys| - 1], asks.keys[0];
      CrossedAtTouch(bids.dict, asks.dict, b, a);
      crossed := b >= a;
    }

    /** Writes one level, logging what it replaces. */
    static method WriteLevel(side: SortedDict, ghost other: SortedDict, level: Level, log: seq<Undo>)
      returns (log': seq<Undo>)
      requires side.Valid() && side != other && LogsOnly(log, side, other)
      modifies side
      ensures side.Valid() && side.dict == Put(old(side.dict), level)
      ensures Undone(log', side, side.dict) == Undone(log, side, old(side.dict))
      ensures Undone(log', other, other.dict) == Undone(log, other, other.dict)
      ensures LogsOnly(log', side, other)
    {
      log' := log + [Undo(side, level.price, side.Get(level.price))];
      ghost var before := side.dict;
      if level.qty == 0.0 {
        side.Pop(level.price);
      } else {
        side.Set(level.price, level);
      }
      LogWrite(log, side, before, side.dict, level.price, other, other.dict);
    }

    /** Writes a frame's levels to one side; a negative quantity stops it where it stands. */
    static method WriteLevels(side: SortedDict, ghost other: SortedDict, levels: seq<Level>, log: seq<Undo>)
      returns (ok: bool, log': seq<Undo>)
      requires side.Valid() && side != other && LogsOnly(log, side, other)
      modifies side
      ensures side.Valid()
      ensures Undone(log', side, side.dict) == Undone(log, side, old(side.dict))
      ensures Undone(log', other, other.dict) == Undone(log, other, other.dict)
      ensures LogsOnly(log', side, other)
      ensures ok <==> NoneNegative(levels)
      ensures ok ==> side.dict == Fold(old(side.dict), levels)
    {
      log' := log;
      for i := 0 to |levels|
        invariant side.Valid()
        invariant Undone(log', side, side.dict) == Undone(log, side, old(side.dict))
        invariant Undone(log', other, other.dict) == Undone(log, other, other.dict)
        invariant LogsOnly(log', side, other)
        invariant NoneNegative(levels[..i])
        invariant side.dict == Fold(old(side.dict), levels[..i])
      {
        if levels[i].qty < 0.0 {
          return false, log';
        }
        log' := WriteLevel(side, other, levels[i], log');
        FoldStep(old(side.dict), levels, i);
      }
      assert levels[..|levels|] == levels;
      ok := true;
    }

    /** Pops the worst level of a side, logging it. */
    static method DropWorst(which: Side, side: SortedDict, ghost other: SortedDict, log: seq<Undo>)
      returns (log': seq<Undo>)
      requires side.Valid() && side != other && LogsOnly(log, side, other) && side.keys != []
      modifies side
      ensures side.Valid() && LogsOnly(log', side, other)
      ensures exists w :: IsWorst(which, old(side.dict), w) && side.dict == old(side.dict) - {w}
      ensures Undone(log', side, side.dict) == Undone(log, side, old(side.dict))
      ensures Undone(log', other, other.dict) == Undone(log, other, other.dict)
    {
      EndsAreTouches(side.keys, side.dict);
      var worst := if which == Bid then side.keys[0] else side.keys[|side.keys| - 1];
      ghost var before := side.dict;
      assert IsWorst(which, before, worst);
      log' := log + [Undo(side, worst, Some(side.dict[worst]))];
      side.Pop(worst);
      LogWrite(log, side, before, side.dict, worst, other, other.dict);
    }

    /** Drops the worst levels of one side until it fits the window, logging each. */
    method Trim(which: Side, side: SortedDict, ghost other: SortedDict, log: seq<Undo>) returns (log': seq<Undo>)
      requires side.Valid() && side != other && LogsOnly(log, side, other)
      modifies side
      ensures side.Valid() && LogsOnly(log', side, other)
      ensures side.dict == Best(which, old(side.dict), depth)
      ensures Undone(log', side, side.dict) == Undone(log, side, old(side.dict))
      ensures Undone(log', other, other.dict) == Undone(log, other, other.dict)
    {
      log' := log;
      ListingLength(side.keys, side.dict);
      while |side.keys| > depth
        invariant side.Valid() && |side.keys| == |side.dict|
        invariant Best(which, side.dict, depth) == Best(which, old(side.dict), depth)
        invariant Undone(log', side, side.dict) == Undone(log, side, old(side.dict))
        invariant Undone(log', other, other.dict) == Undone(log, other, other.dict)
        invariant LogsOnly(log', side, other)
        decreases |side.dict|
      {
        ghost var before := side.dict;
        log' := DropWorst(which, side, other, log');
        ghost var w :| IsWorst(which, before, w) && side.dict == before - {w};
        TrimStep(which, before, depth, w);
        ListingLength(side.keys, side.dict);
      }
      BestOfShort(which, side.dict, depth);
    }

    /** Replays the log backwards. */
    method RollBack(log: seq<Undo>)
      requires Wired()
      requires LogsOnly(log, bids, asks)
      modifies bids, asks
      ensures Wired()
      ensures bids.dict == Undone(log, bids, old(bids.dict))
      ensures asks.dict == Undone(log, asks, old(asks.dict))
    {
      var i := |log|;
      assert log[..i] == log;
      while i > 0
        invariant 0 <= i <= |log|
        invariant Wired()
        invariant Undone(log[..i], bids, bids.dict) == Undone(log, bids, old(bids.dict))
        invariant Undone(log[..i], asks, asks.dict) == Undone(log, asks, old(asks.dict))
      {
        i := i - 1;
        assert log[..i + 1][..i] == log[..i];
        var u := log[i];
        match u.previous
        case None => u.side.Pop(u.price);
        case Some(level) => u.side.Set(u.price, level);
      }
    }

    /** Applies one frame of adds, replacements and deletes; a refused frame leaves no trace. */
    method ApplyUpdate(update: Update) returns (r: Result<()>)
      requires Valid()
      modifies this`seqno, bids, asks
      ensures Valid()
      ensures match BookModel.ApplyUpdate(old(State()), depth, update)
              case Ok(after) => r.Ok? && State() == after
              case Err(e) => r == Err(e) && State() == old(State())
    {
      ghost var before := State();
      var log: seq<Undo> := [];
      var ok;
      ok, log := WriteLevels(bids, asks, update.bids, log);
      if ok {
        ok, log := WriteLevels(asks, bids, update.asks, log);
      }
      if ok {
        log := Trim(Bid, bids, asks, log);
        log := Trim(Ask, asks, bids, log);
        var crossed := Overlap(bids, asks);
        ok := !crossed;
      }
      if !ok {
        RollBack(log);
        assert State() == before;
        return Err(ValueError);
      }
      UpdateSound(before, depth, update);
      seqno := seqno + 1;
      r := Ok(());
    }

    /** Drops both sides; the frame counter survives. */
    method Clear()
      requires Valid()
      modifies this
      ensures Valid() && State() == BookModel.Clear(old(State()))
      ensures fresh(bids) && fresh(asks)
    {
      asks := new SortedDict();
      bids := new SortedDict();
    }

    // ---- reading ----

    function BestBid(): (top: Option<Level>)
      requires Valid()
      reads this, bids, asks
      ensures top.None? <==> bids.dict == map[]
      ensures top.Some? ==> IsTouch(Bid, bids.dict, top.value.price) && bids.dict[top.value.price] == top.value
    {
      if bids.keys == [] then
        ListingLength(bids.keys, bids.dict);
        None
      else
        EndsAreTouches(bids.keys, bids.dict);
        Some(bids.dict[bids.keys[|bids.keys| - 1]])
    }

    function BestAsk(): (top: Option<Level>)
      requires Valid()
      reads this, bids, asks
      ensures top.None? <==> asks.dict == map[]
      ensures top.Some? ==> IsTouch(Ask, asks.dict, top.value.price) && asks.dict[top.value.price] == top.value
    {
      if asks.keys == [] then
        ListingLength(asks.keys, asks.dict);
        None
      else
        EndsAreTouches(asks.keys, asks.dict);
        Some(asks.dict[asks.keys[0]])
    }

    /** The last `n` values of a side, reversed. */
    static function Tail(d: SortedDict, n: nat): (levels: seq<Level>)
      requires d.Valid()
      reads d
      ensures levels == Top(Bid, d.dict, n)
    {
      ListedBids(d.keys, d.dict);
      var k, m := d.keys, d.dict;
      seq(Min(n, |k|), i requires 0 <= i < Min(n, |k|) => m[k[|k| - 1 - i]])
    }

    /** The first `n` values of a side. */
    static function Head(d: SortedDict, n: nat): (levels: seq<Level>)
      requires d.Valid()
      reads d
      ensures levels == Top(Ask, d.dict, n)
    {
      ListedAsks(d.keys, d.dict);
      var k, m := d.keys, d.dict;
      seq(Min(n, |k|), i requires 0 <= i < Min(n, |k|) => m[k[i]])
    }

    /** The top `n` levels of each side, best first: bids from the tail, asks from the head. */
    method DepthLevels(n: int) returns (topBids: seq<Level>, topAsks: seq<Level>)
      requires Valid()
      ensures topBids == Top(Bid, bids.dict, n)
      ensures topAsks == Top(Ask, asks.dict, n)
    {
      if n <= 0 {
        return [], [];
      }
      topBids, topAsks := Tail(bids, n), Head(asks, n);
    }

    method ViewOf(n: int, recvNs: int, checksumOk: Option<bool>) returns (view: View)
      requires Valid()
      ensures view == ViewOfBook(State(), n, recvNs, checksumOk)
    {
      var topBids, topAsks := DepthLevels(n);
      view := View(seqno, recvNs, topBids, topAsks, checksumOk);
    }

    static method SumBids(d: SortedDict, price: real) returns (total: real)
      requires d.Valid() && SideOk(d.dict)
      ensures total == QtyAtOrBetter(Bid, BestFirst(Bid, d.dict), price)
    {
      total := 0.0;
      ghost var levels := BestFirst(Bid, d.dict);
      ListedBids(d.keys, d.dict);
      for i := 0 to |d.keys|
        invariant total == QtyAtOrBetter(Bid, levels[|levels| - i..], price)
      {
        ghost var at := |levels| - 1 - i;
        assert levels[at..] == [levels[at]] + levels[at + 1..];
        if d.keys[i] >= price {
          total := total + d.dict[d.keys[i]].qty;
        }
      }
      assert levels[0..] == levels;
    }

    static method SumAsks(d: SortedDict, price: real) returns (total: real)
      requires d.Valid() && SideOk(d.dict)
      ensures total == QtyAtOrBetter(Ask, BestFirst(Ask, d.dict), price)
    {
      total := 0.0;
      ghost var levels := BestFirst(Ask, d.dict);
      ListedAsks(d.keys, d.dict);
      for i := 0 to |d.keys|
        invariant total == QtyAtOrBetter(Ask, levels[..i], price)
      {
        QtyAppend(Ask, levels[..i], levels[i], price);
        assert levels[..i + 1] == levels[..i] + [levels[i]];
        if d.keys[i] <= price {
          total := total + d.dict[d.keys[i]].qty;
        }
      }
      assert levels[..|levels|] == levels;
    }

    /** Resting quantity at or better than `price`: what a walk from the touch to that price meets. */
    method QuantityToPrice(side: Side, price: real) returns (total: real)
      requires Valid()
      ensures var levels := BestFirst(side, if side == Bid then bids.dict else asks.dict);
              total == TotalQty(levels[..Reach(side, levels, price)])
    {
      ghost var m := if side == Bid then bids.dict else asks.dict;
      BestFirstListsSide(side, m);
      ReachIsPrefix(side, BestFirst(side, m), price);
      if side == Bid {
        total := SumBids(bids, price);
      } else {
        total := SumAsks(asks, price);
      }
    }
  }

  ghost function ViewOfBook(b: Book, n: int, recvNs: int, checksumOk: Option<bool>): View {
    View(b.seqno, recvNs, Top(Bid, b.bids, n), Top(Ask, b.asks, n), checksumOk)
  }
}
