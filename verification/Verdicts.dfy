/** Which text a checksum is compared with, for books given level by level. */
module Verdicts {
  import opened Market
  import opened BookModel
  import opened BookLaws
  import opened BookReads
  import Digits
  import opened Checksum
  import opened Tracking
  import opened Replay

  /** A snapshot whose sides come best first, with positive quantities and no overlap. */
  predicate Tidy(s: Snapshot) {
    && BestFirstOrder(Bid, s.bids) && AllPositive(s.bids)
    && BestFirstOrder(Ask, s.asks) && AllPositive(s.asks)
    && forall i, j :: 0 <= i < |s.bids| && 0 <= j < |s.asks| ==> s.bids[i].price < s.asks[j].price
  }

  /** Its text: at most ten asks and then at most ten bids, as they came. */
  function AsGiven(scheme: Scheme, s: Snapshot): string {
    Spelled(s.asks, Min(10, |s.asks|), scheme.pricePlaces, scheme.qtyPlaces)
    + Spelled(s.bids, Min(10, |s.bids|), scheme.pricePlaces, scheme.qtyPlaces)
  }

  lemma TidySide(side: Side, levels: seq<Level>, pp: nat, qp: nat)
    requires BestFirstOrder(side, levels) && AllPositive(levels)
    ensures var top := Top(side, Fold(map[], levels), 10);
            Spelled(top, |top|, pp, qp) == Spelled(levels, Min(10, |levels|), pp, qp)
  {
    LoadedListing(side, levels);
    SpelledPrefix(Top(side, Fold(map[], levels), 10), levels, Min(10, |levels|), pp, qp);
  }

  /** The book such a snapshot makes. */
  function Loaded(s: Snapshot): Book {
    Book(Fold(map[], s.bids), Fold(map[], s.asks), 1)
  }

  lemma TidyLoads(s: Snapshot)
    requires Tidy(s)
    ensures WellFormed(s) && BookModel.ApplySnapshot(EMPTY, s).value == Loaded(s) && !Crossed(Loaded(s).bids, Loaded(s).asks)
  {
    SnapshotOutcome(EMPTY, s);
  }

  lemma TidyText(scheme: Scheme, s: Snapshot, b: Book)
    requires Tidy(s) && SameSides(b, Loaded(s))
    ensures TextOf(scheme, b) == AsGiven(scheme, s)
  {
    TidySide(Bid, s.bids, scheme.pricePlaces, scheme.qtyPlaces);
    TidySide(Ask, s.asks, scheme.pricePlaces, scheme.qtyPlaces);
  }

  /** A frame without levels leaves a book within the window as it is. */
  lemma EmptyFrame(b: Book, depth: nat, checksum: Option<nat>)
    requires !Crossed(b.bids, b.asks) && WithinDepth(b, depth)
    ensures BookModel.ApplyUpdate(b, depth, Update([], [], checksum)) == Ok(Book(b.bids, b.asks, b.seqno + 1))
  {
    BestOfShort(Bid, b.bids, depth);
    BestOfShort(Ask, b.asks, depth);
  }

  /** A snapshot, and a frame that changes nothing but carries `checksum`. */
  function Checked(s: Snapshot, checksum: nat): seq<Frame> {
    [SnapshotFrame(s), UpdateFrame(Update([], [], Some(checksum)))]
  }

  lemma TwoFramesFed(cfg: Settings, s: Snapshot, checksum: nat)
    ensures Tracked(cfg, Checked(s, checksum)) == TakeUpdate(cfg, TakeSnapshot(FRESH, s), Update([], [], Some(checksum))).0
    ensures Tallied(cfg, Checked(s, checksum)) == Fed(cfg, Fed(cfg, BLANK, SnapshotFrame(s)), UpdateFrame(Update([], [], Some(checksum))))
  {
    var frames := Checked(s, checksum);
    var first := [SnapshotFrame(s)];
    assert frames[..1] == first && first[..0] == [];
    assert Tracked(cfg, first) == TakeSnapshot(FRESH, s) && Tallied(cfg, first) == Fed(cfg, BLANK, SnapshotFrame(s));
  }

  /** What both replays do with a frame that gives `after`, on a book just loaded. */
  lemma LoadedThenChecked(cfg: Settings, b: Book, after: Book, checksum: nat)
    requires BookModel.ApplyUpdate(b, cfg.depth, Update([], [], Some(checksum))) == Ok(after)
    ensures var u, hash := Update([], [], Some(checksum)), cfg.scheme.crc(TextOf(cfg.scheme, after));
            && (TakeUpdate(cfg, Machine(Live, b, []), u).0.state == Live <==> checksum == 0 || checksum == hash)
            && var t := Fed(cfg, Tally(b, true, 0, 0, 0), UpdateFrame(u));
               t.agreed == t.checked <==> checksum == hash
  {
    FullDepthVerdictIsTenLevelVerdict(cfg, b, Update([], [], Some(checksum)), checksum);
    TopTenText(cfg.scheme, after, checksum);
  }

  /** For every hash: after such a snapshot the tracker stays live, and the verifier counts
      agreement, exactly when the checksum is the hash of the asks and then the bids, level by
      level; the tracker also when it is zero. */
  lemma HashOfLevels(cfg: Settings, s: Snapshot, checksum: nat)
    requires Tidy(s) && |s.bids| <= cfg.depth && |s.asks| <= cfg.depth
    ensures IsLive(cfg, Checked(s, checksum)) <==> checksum == 0 || checksum == cfg.scheme.crc(AsGiven(cfg.scheme, s))
    ensures InAgreement(cfg, Checked(s, checksum)) <==> checksum == cfg.scheme.crc(AsGiven(cfg.scheme, s))
  {
    var b := Loaded(s);
    var after := Book(b.bids, b.asks, 2);
    TidyLoads(s);
    LoadedListing(Bid, s.bids);
    LoadedListing(Ask, s.asks);
    EmptyFrame(b, cfg.depth, Some(checksum));
    TidyText(cfg.scheme, s, after);
    LoadedThenChecked(cfg, b, after, checksum);
    TwoFramesFed(cfg, s, checksum);
  }

  const BID: Level := Level(1.0, 1.0)
  const ASK: Level := Level(2.0, 1.0)

  lemma OneLevelSpelled(l: Level, pp: nat, qp: nat)
    ensures Spelled([l], 1, pp, qp) == Render(l.price, pp) + Render(l.qty, qp)
  {
    assert Spelled([l], 0, pp, qp) == "";
  }

  lemma EightZeros()
    ensures Zeros(8) == "00000000"
  {
    var two, four := Zeros(2), Zeros(4);
    assert two == "00";
    assert four == "0000";
    assert Zeros(6) == "000000";
  }

  lemma UnitText()
    ensures Render(1.0, 8) == "100000000"
  {
    RenderShifted(1, 8);
    EightZeros();
    assert Digits.Written(1) == "1";
  }

  lemma PriceTexts()
    ensures Render(1.0, 1) == "10" && Render(2.0, 1) == "20"
  {
    RenderTenths(10);
    RenderTenths(20);
    assert Digits.Written(10) == "10" && Digits.Written(20) == "20";
  }

  /** One level a side, written out. */
  lemma OneLevelEach(scheme: Scheme, bid: Level, ask: Level)
    ensures var pp, qp := scheme.pricePlaces, scheme.qtyPlaces;
            AsGiven(scheme, Snapshot([bid], [ask]))
            == (Render(ask.price, pp) + Render(ask.qty, qp)) + (Render(bid.price, pp) + Render(bid.qty, qp))
  {
    OneLevelSpelled(bid, scheme.pricePlaces, scheme.qtyPlaces);
    OneLevelSpelled(ask, scheme.pricePlaces, scheme.qtyPlaces);
  }

  lemma TextsTogether(p: string, q: string, r: string, s: string)
    requires p == "20" && q == s == "100000000" && r == "10"
    ensures (p + q) + (r + s) == "20100000000" + "10100000000"
  {
    assert p + q == "20100000000";
    assert r + s == "10100000000";
  }

  /** At one and eight decimals, one unit bid at 1.0 and one offered at 2.0: the text is the
      ask's 20 and 100000000, then the bid's 10 and 100000000. */
  lemma HashOfOneLevelEach(depth: nat, crc: string -> nat, checksum: nat)
    requires depth >= 1
    ensures IsLive(Settings(depth, Scheme(crc, 1, 8)), Checked(Snapshot([BID], [ASK]), checksum))
            <==> checksum == 0 || checksum == crc("20100000000" + "10100000000")
  {
    HashOfLevels(Settings(depth, Scheme(crc, 1, 8)), Snapshot([BID], [ASK]), checksum);
    OneLevelEach(Scheme(crc, 1, 8), BID, ASK);
    PriceTexts();
    UnitText();
    TextsTogether(Render(2.0, 1), Render(1.0, 8), Render(1.0, 1), Render(1.0, 8));
  }
}
