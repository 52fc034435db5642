/** Two independent replays of one capture: the verifying summary, and the producer of views. */
module Replay {
  import opened Market
  import opened BookModel
  import opened BookLaws
  import opened BookReads
  import opened OrderBooks
  import opened Checksum
  import opened Tracking

  // ---- the verifier ----

  datatype Tally = Tally(book: Book, ready: bool, checked: nat, agreed: nat, uncheckable: nat)

  const BLANK: Tally := Tally(EMPTY, false, 0, 0, 0)

  /** The ten-level comparison the verifier makes. A checksum of zero is compared like any other. */
  ghost predicate AgreesAtTop(cfg: Settings, b: Book, checksum: nat) {
    cfg.scheme.Verify(Top(Bid, b.bids, 10), Top(Ask, b.asks, 10), checksum)
  }

  /** The frame is one the book raises on. */
  ghost predicate Refused(cfg: Settings, t: Tally, f: Frame) {
    match f
    case SnapshotFrame(s) => BookModel.ApplySnapshot(t.book, s).Err?
    case UpdateFrame(u) => t.ready && BookModel.ApplyUpdate(t.book, cfg.depth, u).Err?
  }

  ghost function Fed(cfg: Settings, t: Tally, f: Frame): Tally {
    if Refused(cfg, t, f) then t
    else
      match f
      case SnapshotFrame(s) => t.(book := BookModel.ApplySnapshot(t.book, s).value, ready := true)
      case UpdateFrame(u) =>
        if !t.ready then t.(uncheckable := t.uncheckable + 1)
        else
          var b := BookModel.ApplyUpdate(t.book, cfg.depth, u).value;
          match u.checksum
          case None => t.(book := b, uncheckable := t.uncheckable + 1)
          case Some(c) =>
            t.(book := b, checked := t.checked + 1, agreed := t.agreed + if AgreesAtTop(cfg, b, c) then 1 else 0)
  }

  class Verifier {
    const scheme: Scheme
    const book: OrderBook
    var checked: nat
    var agreed: nat
    var uncheckable: nat
    var ready: bool

    ghost predicate Valid()
      reads this, book, book.bids, book.asks
    {
      book.Valid()
    }

    ghost function Now(): Tally
      reads this, book, book.bids, book.asks
    {
      Tally(book.State(), ready, checked, agreed, uncheckable)
    }

    constructor (depth: nat, scheme: Scheme)
      ensures Valid() && Now() == BLANK && book.depth == depth && this.scheme == scheme
      ensures fresh(book) && fresh(book.bids) && fresh(book.asks)
    {
      this.scheme := scheme;
      checked, agreed, uncheckable, ready := 0, 0, 0, false;
      book := new OrderBook(depth);
    }

    method Feed(frame: Frame) returns (r: Result<()>)
      requires Valid()
      modifies this, book, book.bids, book.asks
      ensures Valid() && Now() == Fed(Settings(book.depth, scheme), old(Now()), frame)
      ensures r.Err? <==> Refused(Settings(book.depth, scheme), old(Now()), frame)
    {
      match frame
      case SnapshotFrame(snapshot) =>
        r := book.ApplySnapshot(snapshot);
        if r.Ok? {
          ready := true;
        }
      case UpdateFrame(update) =>
        if !ready {
          uncheckable := uncheckable + 1;
          return Ok(());
        }
        r := FeedUpdate(update);
    }

    /** The part of `Feed` that an opening snapshot has made possible. */
    method FeedUpdate(update: Update) returns (r: Result<()>)
      requires Valid() && ready
      modifies this, book`seqno, book.bids, book.asks
      ensures Valid() && Now() == Fed(Settings(book.depth, scheme), old(Now()), UpdateFrame(update))
      ensures r.Err? <==> Refused(Settings(book.depth, scheme), old(Now()), UpdateFrame(update))
    {
      r := book.ApplyUpdate(update);
      if r.Err? {
        return;
      }
      if update.checksum.None? {
        uncheckable := uncheckable + 1;
        return;
      }
      var bids, asks := book.DepthLevels(10);
      checked := checked + 1;
      var matches := scheme.Verify(bids, asks, update.checksum.value);
      agreed := agreed + if matches then 1 else 0;
    }
  }

  // ---- both fed the same frames ----

  ghost function Tallied(cfg: Settings, frames: seq<Frame>): Tally {
    if frames == [] then BLANK
    else Fed(cfg, Tallied(cfg, frames[..|frames| - 1]), frames[|frames| - 1])
  }

  function CallFor(f: Frame): Call {
    match f
    case SnapshotFrame(s) => OnSnapshot(s)
    case UpdateFrame(u) => OnUpdate(u)
  }

  ghost function Tracked(cfg: Settings, frames: seq<Frame>): Machine {
    if frames == [] then FRESH
    else Tracking.Step(cfg, Tracked(cfg, frames[..|frames| - 1]), CallFor(frames[|frames| - 1]))
  }

  predicate SameSides(a: Book, b: Book) {
    a.bids == b.bids && a.asks == b.asks
  }

  /** A frame does to a side what it does to it in any other book with the same sides. */
  lemma SameSidesUpdate(a: Book, b: Book, depth: nat, u: Update)
    requires SameSides(a, b)
    ensures var ra, rb := BookModel.ApplyUpdate(a, depth, u), BookModel.ApplyUpdate(b, depth, u);
            (ra.Ok? <==> rb.Ok?) && (ra.Ok? ==> SameSides(ra.value, rb.value))
  {
  }

  lemma StepAgrees(cfg: Settings, m: Machine, t: Tally, f: Frame)
    requires m.state == Live ==> t.ready && SameSides(m.book, t.book)
    requires t.agreed <= t.checked
    ensures var m', t' := Tracking.Step(cfg, m, CallFor(f)), Fed(cfg, t, f);
            (m'.state == Live ==> t'.ready && SameSides(m'.book, t'.book)) && t'.agreed <= t'.checked
  {
    if f.UpdateFrame? && m.state == Live {
      SameSidesUpdate(m.book, t.book, cfg.depth, f.update);
    }
  }

  /** Whenever the tracker is live its sides are the verifier's, even if earlier frames
      drove the two apart: every accepted snapshot brings them together again. */
  lemma {:induction false} LiveBooksAgree(cfg: Settings, frames: seq<Frame>)
    ensures Tracked(cfg, frames).state == Live ==>
              Tallied(cfg, frames).ready && SameSides(Tracked(cfg, frames).book, Tallied(cfg, frames).book)
    ensures Tallied(cfg, frames).agreed <= Tallied(cfg, frames).checked
  {
    if frames != [] {
      var init := frames[..|frames| - 1];
      LiveBooksAgree(cfg, init);
      StepAgrees(cfg, Tracked(cfg, init), Tallied(cfg, init), frames[|frames| - 1]);
    }
  }

  /** No frame among `frames` has been found wrong. */
  ghost predicate InAgreement(cfg: Settings, frames: seq<Frame>) {
    Tallied(cfg, frames).agreed == Tallied(cfg, frames).checked
  }

  ghost predicate IsLive(cfg: Settings, frames: seq<Frame>) {
    Tracked(cfg, frames).state == Live
  }

  /** One frame into two replays that hold one book: they still do, and the frame is
      found wrong exactly when its checksum fails. */
  lemma StepTogether(cfg: Settings, m: Machine, t: Tally, f: Frame)
    requires m.book == t.book && (m.state == Live <==> t.ready)
    ensures var m', t' := Tracking.Step(cfg, m, CallFor(f)), Fed(cfg, t, f);
            && m'.book == t'.book
            && t'.checked - t'.agreed <= t.checked - t.agreed + 1
            && (t'.checked - t'.agreed != t.checked - t.agreed ==>
                  m.state == Live && f.UpdateFrame? && f.update.checksum.Some?
                  && t'.checked - t'.agreed > t.checked - t.agreed
                  && (m'.state == Live <==> f.update.checksum.value == 0))
            && (t'.checked - t'.agreed == t.checked - t.agreed ==> (m'.state == Live <==> t'.ready) && (m.state == Live ==> m'.state == Live))
  {
    if f.UpdateFrame? && f.update.checksum.Some? && BookModel.ApplyUpdate(m.book, cfg.depth, f.update).Ok? {
      FullDepthVerdictIsTenLevelVerdict(cfg, m.book, f.update, f.update.checksum.value);
    }
  }

  lemma {:induction false} AgreementHistory(cfg: Settings, frames: seq<Frame>)
    requires InAgreement(cfg, frames)
    ensures Tracked(cfg, frames).book == Tallied(cfg, frames).book
    ensures IsLive(cfg, frames) <==> Tallied(cfg, frames).ready
  {
    if frames != [] {
      var n := |frames| - 1;
      LiveBooksAgree(cfg, frames[..n]);
      AgreementHistory(cfg, frames[..n]);
      StepTogether(cfg, Tracked(cfg, frames[..n]), Tallied(cfg, frames[..n]), frames[n]);
    }
  }

  /** Up to and including the first frame found wrong the two replays hold one book. On
      that frame the tracker leaves live exactly when the checksum is not zero; on every
      frame before it, neither happens. */
  lemma FirstMismatch(cfg: Settings, frames: seq<Frame>, last: Frame)
    requires InAgreement(cfg, frames)
    ensures Tracked(cfg, frames + [last]).book == Tallied(cfg, frames + [last]).book
    ensures IsLive(cfg, frames) && !IsLive(cfg, frames + [last]) <==>
            !InAgreement(cfg, frames + [last]) && last.update.checksum.value != 0
    ensures !InAgreement(cfg, frames + [last]) ==> IsLive(cfg, frames) && last.UpdateFrame? && last.update.checksum.Some?
  {
    assert (frames + [last])[..|frames|] == frames;
    AgreementHistory(cfg, frames);
    StepTogether(cfg, Tracked(cfg, frames), Tallied(cfg, frames), last);
  }

  /** A frame with a checksum of zero that the verifier counts against the book: the
      tracker stays live. */
  lemma ZeroChecksumIsTrusted(cfg: Settings, s: Snapshot, u: Update, b: Book)
    requires u.checksum == Some(0)
    ensures BookModel.ApplySnapshot(EMPTY, s).Ok?
            && BookModel.ApplyUpdate(BookModel.ApplySnapshot(EMPTY, s).value, cfg.depth, u) == Ok(b)
            && !AgreesAtTop(cfg, b, 0) ==>
              var frames := [SnapshotFrame(s), UpdateFrame(u)];
              IsLive(cfg, frames) && !InAgreement(cfg, frames)
  {
    var first, second := SnapshotFrame(s), UpdateFrame(u);
    if BookModel.ApplySnapshot(EMPTY, s).Ok? {
      assert [first, second][..1] == [first] && [first][..0] == [];
      assert Tracked(cfg, [first]) == TakeSnapshot(FRESH, s) && Tallied(cfg, [first]).ready;
      assert InAgreement(cfg, [first]);
      assert [first] + [second] == [first, second];
      FirstMismatch(cfg, [first], second);
    }
  }

  /** It does happen, at any depth and precision: a hash that is never zero, one bid, and a
      frame that changes nothing. */
  lemma ZeroChecksumSplitsThem(depth: nat, pricePlaces: nat, qtyPlaces: nat)
    ensures var cfg := Settings(depth, Scheme(_ => 1, pricePlaces, qtyPlaces));
            var frames := [SnapshotFrame(Snapshot([Level(1.0, 1.0)], [])), UpdateFrame(Update([], [], Some(0)))];
            IsLive(cfg, frames) && !InAgreement(cfg, frames)
  {
    var cfg := Settings(depth, Scheme(_ => 1, pricePlaces, qtyPlaces));
    var s, u := Snapshot([Level(1.0, 1.0)], []), Update([], [], Some(0));
    var loaded := BookModel.ApplySnapshot(EMPTY, s);
    assert BookModel.Fold(map[], s.asks) == map[];
    assert loaded.Ok?;
    assert BookModel.Fold(loaded.value.asks, u.asks) == map[];
    var b := BookModel.ApplyUpdate(loaded.value, depth, u);
    assert b.Ok?;
    ZeroChecksumIsTrusted(cfg, s, u, b.value);
  }

  /** Some snapshot among `frames` was one that books accept. */
  ghost predicate Opened(frames: seq<Frame>) {
    exists i :: 0 <= i < |frames| && frames[i].SnapshotFrame? && WellFormed(frames[i].snapshot)
  }

  lemma {:induction false} ReadyWhenOpened(cfg: Settings, frames: seq<Frame>)
    ensures Tallied(cfg, frames).ready <==> Opened(frames)
  {
    if frames != [] {
      var n := |frames| - 1;
      ReadyWhenOpened(cfg, frames[..n]);
      ReadyAfter(cfg, Tallied(cfg, frames[..n]), frames[n]);
      assert frames == frames[..n] + [frames[n]];
      if i :| 0 <= i < n && frames[i].SnapshotFrame? && WellFormed(frames[i].snapshot) {
        assert frames[..n][i] == frames[i];
      }
    }
  }

  /** What becomes of a frame: an update before the opening snapshot, one the book refuses, one it
      takes that cannot be checked, and one it takes whose checksum is or is not the hash of the
      book it makes, written out. */
  datatype Fate = Early | Rejected | Unmarked | Confirmed | Contradicted | NoUpdate

  ghost function FateOf(cfg: Settings, frames: seq<Frame>, f: Frame): Fate {
    match f
    case SnapshotFrame(_) => NoUpdate
    case UpdateFrame(u) =>
      if !Opened(frames) then Early
      else
        match BookModel.ApplyUpdate(Tallied(cfg, frames).book, cfg.depth, u)
        case Err(_) => Rejected
        case Ok(b) =>
          if u.checksum.None? then Unmarked
          else if u.checksum.value == cfg.scheme.crc(TextOf(cfg.scheme, b)) then Confirmed else Contradicted
  }

  ghost function HowMany(cfg: Settings, frames: seq<Frame>, fate: Fate): nat {
    if frames == [] then 0
    else
      var n := |frames| - 1;
      HowMany(cfg, frames[..n], fate) + if FateOf(cfg, frames[..n], frames[n]) == fate then 1 else 0
  }

  lemma FedFate(cfg: Settings, frames: seq<Frame>, f: Frame)
    ensures var t, t', fate := Tallied(cfg, frames), Fed(cfg, Tallied(cfg, frames), f), FateOf(cfg, frames, f);
            && t'.agreed == t.agreed + (if fate == Confirmed then 1 else 0)
            && t'.checked == t.checked + (if fate == Confirmed || fate == Contradicted then 1 else 0)
            && t'.uncheckable == t.uncheckable + (if fate == Early || fate == Unmarked then 1 else 0)
  {
    ReadyWhenOpened(cfg, frames);
    var t := Tallied(cfg, frames);
    if f.UpdateFrame? && BookModel.ApplyUpdate(t.book, cfg.depth, f.update).Ok? && f.update.checksum.Some? {
      TopTenText(cfg.scheme, BookModel.ApplyUpdate(t.book, cfg.depth, f.update).value, f.update.checksum.value);
    }
  }

  /** The verifier's counters count those fates: agreed is the updates confirmed, checked those and
      the contradicted, uncheckable those that came early or carried no checksum. */
  lemma {:induction false} EveryUpdateCounted(cfg: Settings, frames: seq<Frame>)
    ensures Tallied(cfg, frames).agreed == HowMany(cfg, frames, Confirmed)
    ensures Tallied(cfg, frames).checked == HowMany(cfg, frames, Confirmed) + HowMany(cfg, frames, Contradicted)
    ensures Tallied(cfg, frames).uncheckable == HowMany(cfg, frames, Early) + HowMany(cfg, frames, Unmarked)
  {
    if frames != [] {
      EveryUpdateCounted(cfg, frames[..|frames| - 1]);
      FedFate(cfg, frames[..|frames| - 1], frames[|frames| - 1]);
    }
  }

  predicate NoZeroChecksum(frames: seq<Frame>) {
    forall i :: 0 <= i < |frames| && frames[i].UpdateFrame? ==> frames[i].update.checksum != Some(0)
  }

  /** Without zero checksums: the tracker has been live from the first accepted snapshot
      on precisely as long as the verifier counts no disagreement. */
  lemma {:induction false} MismatchIsLossOfTrust(cfg: Settings, frames: seq<Frame>, k: nat)
    requires NoZeroChecksum(frames) && k <= |frames|
    requires forall j :: 0 <= j < k ==> InAgreement(cfg, frames[..j])
    ensures Tracked(cfg, frames[..k]).book == Tallied(cfg, frames[..k]).book
    ensures InAgreement(cfg, frames[..k]) <==>
            forall j :: 0 < j <= k && IsLive(cfg, frames[..j - 1]) ==> IsLive(cfg, frames[..j])
  {
    forall j | 0 < j <= k
      ensures IsLive(cfg, frames[..j - 1]) && !IsLive(cfg, frames[..j]) <==> !InAgreement(cfg, frames[..j])
    {
      assert frames[..j] == frames[..j - 1] + [frames[j - 1]];
      assert InAgreement(cfg, frames[..j - 1]);
      FirstMismatch(cfg, frames[..j - 1], frames[j - 1]);
    }
    if k == 0 {
      assert frames[..0] == [];
    } else {
      assert frames[..k] == frames[..k - 1] + [frames[k - 1]];
      FirstMismatch(cfg, frames[..k - 1], frames[k - 1]);
    }
  }

  // ---- the producer of views ----

  datatype Payload = BookPayload(frame: Frame) | TradePayload(isSnapshot: bool, quantities: seq<real>) | OtherPayload

  datatype Message = Message(recvNs: int, payload: Payload)

  /** A generator stopped part-way: the tracker, what was yielded, and whether it raised. */
  datatype Emission = Emission(machine: Machine, ready: bool, views: seq<View>, raised: bool)

  const SILENT: Emission := Emission(FRESH, false, [], false)

  ghost function Emit(cfg: Settings, levels: int, e: Emission, msg: Message): Emission {
    if e.raised || !msg.payload.BookPayload? then e
    else
      match msg.payload.frame
      case SnapshotFrame(s) =>
        if BookModel.ApplySnapshot(e.machine.book, s).Err? then e.(raised := true)
        else
          var m := TakeSnapshot(e.machine, s);
          Emission(m, true, e.views + [ViewOfBook(m.book, levels, msg.recvNs, None)], false)
      case UpdateFrame(u) =>
        if !e.ready then e
        else if u.checksum.None? then e.(views := e.views + [ViewOfBook(e.machine.book, levels, msg.recvNs, None)])
        else
          var (m, answer) := TakeUpdate(cfg, e.machine, u);
          if answer.Err? then e.(raised := true)
          else Emission(m, true, e.views + [ViewOfBook(m.book, levels, msg.recvNs, Some(answer.value))], false)
  }

  ghost function Emitted(cfg: Settings, levels: int, messages: seq<Message>): Emission {
    if messages == [] then SILENT
    else Emit(cfg, levels, Emitted(cfg, levels, messages[..|messages| - 1]), messages[|messages| - 1])
  }

  lemma EmitStops(cfg: Settings, levels: int, messages: seq<Message>, i: nat)
    requires i < |messages|
    ensures Emitted(cfg, levels, messages[..i + 1]) == Emit(cfg, levels, Emitted(cfg, levels, messages[..i]), messages[i])
  {
    assert messages[..i + 1][..i] == messages[..i];
  }

  lemma {:induction false} RaisedStays(cfg: Settings, levels: int, messages: seq<Message>, i: nat)
    requires i <= |messages| && Emitted(cfg, levels, messages[..i]).raised
    ensures Emitted(cfg, levels, messages) == Emitted(cfg, levels, messages[..i])
  {
    if i == |messages| {
      assert messages[..i] == messages;
    } else {
      var init := messages[..|messages| - 1];
      assert init[..i] == messages[..i];
      RaisedStays(cfg, levels, init, i);
    }
  }

  /** Replays a capture, yielding a view per book frame from the first snapshot on. */
  method IterBookViews(messages: seq<Message>, depth: nat, levels: int, scheme: Scheme)
    returns (views: seq<View>, r: Result<()>)
    ensures var e := Emitted(Settings(depth, scheme), levels, messages);
            views == e.views && (r.Err? <==> e.raised) && (r.Err? ==> r.error == ValueError)
  {
    var tracker := new SequenceTracker(depth, scheme);
    ghost var cfg := tracker.Cfg();
    var ready := false;
    views := [];
    assert messages[..0] == [];
    for i := 0 to |messages|
      invariant tracker.Valid() && tracker.Cfg() == cfg && fresh(tracker) && fresh(tracker.book)
      invariant fresh(tracker.book.bids) && fresh(tracker.book.asks)
      invariant Emitted(cfg, levels, messages[..i]) == Emission(tracker.Now(), ready, views, false)
    {
      EmitStops(cfg, levels, messages, i);
      var msg := messages[i];
      if msg.payload.BookPayload? {
        var raised, view;
        raised, ready, view := OnFrame(tracker, msg.payload.frame, ready, levels, msg.recvNs, views);
        if raised {
          RaisedStays(cfg, levels, messages, i + 1);
          return views, Err(ValueError);
        }
        views := views + view;
      }
    }
    assert messages[..|messages|] == messages;
    r := Ok(());
  }

  /** One book frame: at most one view, or the error the book raised. */
  method OnFrame(tracker: SequenceTracker, frame: Frame, ready: bool, levels: int, recvNs: int, ghost sofar: seq<View>)
    returns (raised: bool, ready': bool, view: seq<View>)
    requires tracker.Valid()
    modifies tracker, tracker.book, tracker.book.bids, tracker.book.asks
    ensures tracker.Valid()
    ensures (tracker.book.bids == old(tracker.book.bids) && tracker.book.asks == old(tracker.book.asks))
            || (fresh(tracker.book.bids) && fresh(tracker.book.asks))
    ensures Emit(tracker.Cfg(), levels, Emission(old(tracker.Now()), ready, sofar, false), Message(recvNs, BookPayload(frame)))
            == Emission(tracker.Now(), ready', sofar + view, raised)
    ensures raised ==> view == []
  {
    view := [];
    match frame
    case SnapshotFrame(snapshot) =>
      var applied := tracker.OnSnapshot(snapshot);
      if applied.Err? {
        assert sofar + [] == sofar;
        return true, ready, [];
      }
      var v := tracker.book.ViewOf(levels, recvNs, None);
      return false, true, [v];
    case UpdateFrame(update) =>
      assert sofar + [] == sofar;
      if !ready {
        return false, false, [];
      }
      if update.checksum.None? {
        var v := tracker.book.ViewOf(levels, recvNs, None);
        return false, true, [v];
      }
      var answer := tracker.OnUpdate(update);
      if answer.Err? {
        return true, true, [];
      }
      var v := tracker.book.ViewOf(levels, recvNs, Some(answer.value));
      return false, true, [v];
  }

  // ---- what the views are worth ----

  /** Best first on both sides, positive quantities, and apart when both sides are there. */
  predicate GoodView(v: View) {
    && BestFirstOrder(Bid, v.bids) && BestFirstOrder(Ask, v.asks)
    && AllPositive(v.bids) && AllPositive(v.asks)
    && (v.bids != [] && v.asks != [] ==> v.bids[0].price < v.asks[0].price)
  }

  lemma SoundBookGoodView(b: Book, n: int, recvNs: int, ok: Option<bool>)
    requires Sound(b)
    ensures GoodView(ViewOfBook(b, n, recvNs, ok))
  {
    SideOfSoundBook(Bid, b.bids, n);
    SideOfSoundBook(Ask, b.asks, n);
    var v := ViewOfBook(b, n, recvNs, ok);
    if v.bids != [] && v.asks != [] {
      assert v.bids[0].price in b.bids && v.asks[0].price in b.asks;
    }
  }

  /** What a view of a sound book holds: on each side exactly the entries with fewer than `n` ahead
      of them, the count of frames the book has taken, and the stamp and verdict it is given. */
  lemma ViewHoldsBest(b: Book, n: nat, recvNs: int, ok: Option<bool>)
    requires Sound(b)
    ensures var v := ViewOfBook(b, n, recvNs, ok);
            && (forall l :: l in v.bids <==> l.price in b.bids && b.bids[l.price] == l && |Ahead(Bid, b.bids, l.price)| < n)
            && (forall l :: l in v.asks <==> l.price in b.asks && b.asks[l.price] == l && |Ahead(Ask, b.asks, l.price)| < n)
            && BestFirstOrder(Bid, v.bids) && BestFirstOrder(Ask, v.asks)
            && v.seqno == b.seqno && v.recvNs == recvNs && v.checksumOk == ok
  {
    TopHoldsBest(Bid, b.bids, n);
    TopHoldsBest(Ask, b.asks, n);
  }

  /** The frames among `frames` that changed the tracker's book. */
  ghost function FramesTaken(cfg: Settings, frames: seq<Frame>): nat {
    if frames == [] then 0
    else
      var init, last := frames[..|frames| - 1], frames[|frames| - 1];
      FramesTaken(cfg, init)
      + match last
        case SnapshotFrame(s) => if WellFormed(s) then 1 else 0
        case UpdateFrame(u) =>
          if IsLive(cfg, init) && BookModel.ApplyUpdate(Tracked(cfg, init).book, cfg.depth, u).Ok? then 1 else 0
  }

  /** So the numbers that views carry count the frames taken so far. */
  lemma {:induction false} BookCountsFrames(cfg: Settings, frames: seq<Frame>)
    ensures Tracked(cfg, frames).book.seqno == FramesTaken(cfg, frames)
  {
    if frames != [] {
      BookCountsFrames(cfg, frames[..|frames| - 1]);
    }
  }

  lemma SideOfSoundBook(side: Side, m: map<real, Level>, n: int)
    requires SideOk(m)
    ensures var levels := Top(side, m, n);
            BestFirstOrder(side, levels) && AllPositive(levels) && forall i :: 0 <= i < |levels| ==> levels[i].price in m
  {
    BestFirstListsSide(side, m);
    var all := BestFirst(side, m);
    forall i | 0 <= i < |all|
      ensures all[i].price in m && all[i].qty > 0.0
    {
      assert all[i] in all;
    }
  }

  /** Every view a replay yields is a good one. */
  lemma {:induction false} EmittedViewsAreGood(cfg: Settings, levels: int, messages: seq<Message>)
    ensures forall v :: v in Emitted(cfg, levels, messages).views ==> GoodView(v)
    ensures Sound(Emitted(cfg, levels, messages).machine.book)
  {
    if messages != [] {
      var n := |messages| - 1;
      EmittedViewsAreGood(cfg, levels, messages[..n]);
      EmitKeepsGood(cfg, levels, Emitted(cfg, levels, messages[..n]), messages[n]);
    }
  }

  lemma EmitKeepsSound(cfg: Settings, levels: int, e: Emission, msg: Message)
    requires Sound(e.machine.book)
    ensures Sound(Emit(cfg, levels, e, msg).machine.book)
  {
    var b := e.machine.book;
    if msg.payload.BookPayload? {
      match msg.payload.frame
      case SnapshotFrame(s) => if BookModel.ApplySnapshot(b, s).Ok? { SnapshotSound(b, s); }
      case UpdateFrame(u) => if BookModel.ApplyUpdate(b, cfg.depth, u).Ok? { UpdateSound(b, cfg.depth, u); }
    }
  }

  /** A message adds no view, or one of the book the tracker then holds. */
  lemma EmitAddsView(cfg: Settings, levels: int, e: Emission, msg: Message)
    ensures var e' := Emit(cfg, levels, e, msg);
            e'.views == e.views
            || exists ok :: e'.views == e.views + [ViewOfBook(e'.machine.book, levels, msg.recvNs, ok)]
  {
    var e' := Emit(cfg, levels, e, msg);
    if e'.views != e.views {
      var v := e'.views[|e.views|];
      assert e'.views == e.views + [ViewOfBook(e'.machine.book, levels, msg.recvNs, v.checksumOk)];
    }
  }

  lemma EmitKeepsGood(cfg: Settings, levels: int, e: Emission, msg: Message)
    requires Sound(e.machine.book) && forall v :: v in e.views ==> GoodView(v)
    ensures forall v :: v in Emit(cfg, levels, e, msg).views ==> GoodView(v)
    ensures Sound(Emit(cfg, levels, e, msg).machine.book)
  {
    EmitKeepsSound(cfg, levels, e, msg);
    EmitAddsView(cfg, levels, e, msg);
    var e' := Emit(cfg, levels, e, msg);
    if e'.views != e.views {
      var ok :| e'.views == e.views + [ViewOfBook(e'.machine.book, levels, msg.recvNs, ok)];
      SoundBookGoodView(e'.machine.book, levels, msg.recvNs, ok);
    }
  }

  /** The payloads that reach the tracker: snapshots, and updates that carry a checksum. */
  predicate Reaches(p: Payload) {
    p.BookPayload? && (p.frame.UpdateFrame? ==> p.frame.update.checksum.Some?)
  }

  function Checkable(messages: seq<Message>): seq<Frame> {
    if messages == [] then []
    else
      var before, p := Checkable(messages[..|messages| - 1]), messages[|messages| - 1].payload;
      if Reaches(p) then before + [p.frame] else before
  }

  /** One message of a replay is one call of the tracker, or none. */
  lemma EmitIsCall(cfg: Settings, levels: int, e: Emission, msg: Message)
    requires (e.machine.state == Live ==> e.ready) && !Emit(cfg, levels, e, msg).raised
    ensures var e' := Emit(cfg, levels, e, msg);
            && e'.machine == (if Reaches(msg.payload) then Tracking.Step(cfg, e.machine, CallFor(msg.payload.frame)) else e.machine)
            && (e'.ready <==> e.ready || (Reaches(msg.payload) && msg.payload.frame.SnapshotFrame? && WellFormed(msg.payload.frame.snapshot)))
  {
  }

  lemma ReadyAfter(cfg: Settings, t: Tally, f: Frame)
    ensures Fed(cfg, t, f).ready <==> t.ready || (f.SnapshotFrame? && WellFormed(f.snapshot))
  {
  }

  lemma TrackedStep(cfg: Settings, frames: seq<Frame>, f: Frame)
    ensures Tracked(cfg, frames + [f]) == Tracking.Step(cfg, Tracked(cfg, frames), CallFor(f))
    ensures Tallied(cfg, frames + [f]) == Fed(cfg, Tallied(cfg, frames), f)
  {
    assert (frames + [f])[..|frames|] == frames;
  }

  /** The views come from a tracker that never saw the frames without a checksum: a
      view is yielded for such a frame, but of the book as it stood before it. */
  lemma {:induction false} UncheckedFramesAreNotApplied(cfg: Settings, levels: int, messages: seq<Message>)
    requires !Emitted(cfg, levels, messages).raised
    ensures Emitted(cfg, levels, messages).machine == Tracked(cfg, Checkable(messages))
    ensures Emitted(cfg, levels, messages).ready == Tallied(cfg, Checkable(messages)).ready
  {
    if messages != [] {
      var n := |messages| - 1;
      var init, msg := messages[..n], messages[n];
      UncheckedFramesAreNotApplied(cfg, levels, init);
      LiveBooksAgree(cfg, Checkable(init));
      EmitIsCall(cfg, levels, Emitted(cfg, levels, init), msg);
      if Reaches(msg.payload) {
        TrackedStep(cfg, Checkable(init), msg.payload.frame);
        ReadyAfter(cfg, Tallied(cfg, Checkable(init)), msg.payload.frame);
      }
    }
  }

  /** The message at `i` is one the replay raises on: a snapshot that no book accepts, or an
      update with a checksum that the book of a live tracker, fed the snapshots and the
      checksummed updates before it, refuses. */
  ghost predicate RefusedAt(cfg: Settings, messages: seq<Message>, i: nat)
    requires i < |messages|
  {
    var p, frames := messages[i].payload, Checkable(messages[..i]);
    p.BookPayload? &&
    match p.frame
    case SnapshotFrame(s) => !WellFormed(s)
    case UpdateFrame(u) =>
      u.checksum.Some? && IsLive(cfg, frames) && BookModel.ApplyUpdate(Tracked(cfg, frames).book, cfg.depth, u).Err?
  }

  ghost predicate AnyRefused(cfg: Settings, messages: seq<Message>) {
    exists i :: 0 <= i < |messages| && RefusedAt(cfg, messages, i)
  }

  /** One message more: whether it is the one that is refused. */
  lemma EmitRaises(cfg: Settings, levels: int, e: Emission, msg: Message)
    requires !e.raised && (e.machine.state == Live ==> e.ready)
    ensures Emit(cfg, levels, e, msg).raised <==>
            && msg.payload.BookPayload?
            && match msg.payload.frame
               case SnapshotFrame(s) => !WellFormed(s)
               case UpdateFrame(u) =>
                 u.checksum.Some? && e.machine.state == Live && BookModel.ApplyUpdate(e.machine.book, cfg.depth, u).Err?
  {
  }

  lemma RefusedEarlier(cfg: Settings, messages: seq<Message>)
    requires messages != []
    ensures var n := |messages| - 1;
            AnyRefused(cfg, messages) <==> AnyRefused(cfg, messages[..n]) || RefusedAt(cfg, messages, n)
  {
    var n := |messages| - 1;
    forall i | 0 <= i < n
      ensures RefusedAt(cfg, messages, i) <==> RefusedAt(cfg, messages[..n], i)
    {
      assert messages[..n][..i] == messages[..i];
    }
  }

  /** A replay raises exactly when some message is refused at its turn. */
  lemma {:induction false} ReplayRaises(cfg: Settings, levels: int, messages: seq<Message>)
    ensures Emitted(cfg, levels, messages).raised <==> AnyRefused(cfg, messages)
  {
    if messages != [] {
      var n := |messages| - 1;
      ReplayRaises(cfg, levels, messages[..n]);
      RefusedEarlier(cfg, messages);
      if !Emitted(cfg, levels, messages[..n]).raised {
        UncheckedFramesAreNotApplied(cfg, levels, messages[..n]);
        LiveBooksAgree(cfg, Checkable(messages[..n]));
        EmitRaises(cfg, levels, Emitted(cfg, levels, messages[..n]), messages[n]);
      }
    }
  }

  /** What a view says about the book: nothing unless the frame carried a checksum, and then
      whether the tracker is live. */
  ghost function Verdict(cfg: Settings, f: Frame, frames: seq<Frame>): Option<bool> {
    if f.UpdateFrame? && f.update.checksum.Some? then Some(IsLive(cfg, frames)) else None
  }

  /** The views a capture ought to yield, without a replay of its own: one per book frame once
      a snapshot has been accepted, each of the book a tracker holds that was fed the
      snapshots and the checksummed updates so far, and nothing else. */
  ghost function Shown(cfg: Settings, levels: int, messages: seq<Message>): seq<View> {
    if messages == [] then []
    else
      var msg, frames := messages[|messages| - 1], Checkable(messages);
      Shown(cfg, levels, messages[..|messages| - 1])
      + if msg.payload.BookPayload? && Tallied(cfg, frames).ready
        then [ViewOfBook(Tracked(cfg, frames).book, levels, msg.recvNs, Verdict(cfg, msg.payload.frame, frames))] else []
  }

  /** One message from a replay in step with the tracker: what it yields. */
  lemma EmitYields(cfg: Settings, levels: int, e: Emission, msg: Message)
    requires !Emit(cfg, levels, e, msg).raised && msg.payload.BookPayload?
    ensures var e' := Emit(cfg, levels, e, msg);
            var checked := msg.payload.frame.UpdateFrame? && msg.payload.frame.update.checksum.Some?;
            e'.views == e.views + if e'.ready
                                  then [ViewOfBook(e'.machine.book, levels, msg.recvNs, if checked then Some(e'.machine.state == Live) else None)]
                                  else []
  {
    if !msg.payload.frame.SnapshotFrame? && !e.ready {
      assert e.views + [] == e.views;
    }
  }

  /** A replay that does not raise yields exactly those views. */
  lemma {:induction false} ViewsAreTracked(cfg: Settings, levels: int, messages: seq<Message>)
    requires !Emitted(cfg, levels, messages).raised
    ensures Emitted(cfg, levels, messages).views == Shown(cfg, levels, messages)
  {
    if messages != [] {
      var n := |messages| - 1;
      var init, msg := messages[..n], messages[n];
      ViewsAreTracked(cfg, levels, init);
      UncheckedFramesAreNotApplied(cfg, levels, messages);
      if msg.payload.BookPayload? {
        EmitYields(cfg, levels, Emitted(cfg, levels, init), msg);
      } else {
        assert Shown(cfg, levels, init) + [] == Shown(cfg, levels, init);
      }
    }
  }

  /** A replay that raises has yielded the views of the messages before the first refused one. */
  lemma {:induction false} ViewsBeforeRefusal(cfg: Settings, levels: int, messages: seq<Message>) returns (at: nat)
    requires AnyRefused(cfg, messages)
    ensures at < |messages| && RefusedAt(cfg, messages, at) && !AnyRefused(cfg, messages[..at])
    ensures Emitted(cfg, levels, messages).views == Shown(cfg, levels, messages[..at])
  {
    var n := |messages| - 1;
    RefusedEarlier(cfg, messages);
    ReplayRaises(cfg, levels, messages[..n]);
    if AnyRefused(cfg, messages[..n]) {
      at := ViewsBeforeRefusal(cfg, levels, messages[..n]);
      assert messages[..n][..at] == messages[..at];
    } else {
      at := n;
      ReplayRaises(cfg, levels, messages);
      ViewsAreTracked(cfg, levels, messages[..n]);
      RefusedAddsNothing(cfg, levels, Emitted(cfg, levels, messages[..n]), messages[n]);
    }
  }

  lemma RefusedAddsNothing(cfg: Settings, levels: int, e: Emission, msg: Message)
    requires Emit(cfg, levels, e, msg).raised
    ensures Emit(cfg, levels, e, msg).views == e.views
  {
  }

  /** In any replay that does not raise, the view yielded for an update shows that update
      applied exactly when it carries a checksum and the tracker, fed the checkable frames
      so far, is live; otherwise it shows the book of the view before it again. */
  lemma ViewShowsUpdate(cfg: Settings, levels: int, messages: seq<Message>, recvNs: int, u: Update)
    requires Tallied(cfg, Checkable(messages)).ready
    requires !Emitted(cfg, levels, messages + [Message(recvNs, BookPayload(UpdateFrame(u)))]).raised
    ensures var frames, all := Checkable(messages), Checkable(messages + [Message(recvNs, BookPayload(UpdateFrame(u)))]);
            var before, after := Tracked(cfg, frames).book, Tracked(cfg, all).book;
            && Emitted(cfg, levels, messages + [Message(recvNs, BookPayload(UpdateFrame(u)))]).views
               == Emitted(cfg, levels, messages).views + [ViewOfBook(after, levels, recvNs, Verdict(cfg, UpdateFrame(u), all))]
            && (if u.checksum.Some? && IsLive(cfg, frames)
                then Ok(after) == BookModel.ApplyUpdate(before, cfg.depth, u)
                else after == before)
  {
    var msg := Message(recvNs, BookPayload(UpdateFrame(u)));
    var frames := Checkable(messages);
    assert (messages + [msg])[..|messages|] == messages;
    UncheckedFramesAreNotApplied(cfg, levels, messages);
    UncheckedFramesAreNotApplied(cfg, levels, messages + [msg]);
    EmitYields(cfg, levels, Emitted(cfg, levels, messages), msg);
    if Reaches(msg.payload) {
      TrackedStep(cfg, frames, msg.payload.frame);
    }
  }

  lemma EmitSnapshot(cfg: Settings, levels: int, e: Emission, recvNs: int, s: Snapshot)
    requires !e.raised
    ensures var e' := Emit(cfg, levels, e, Message(recvNs, BookPayload(SnapshotFrame(s))));
            && (e'.raised <==> !WellFormed(s))
            && (WellFormed(s) ==>
                  && e'.machine.state == Live
                  && e'.machine.book.bids == BookModel.Fold(map[], s.bids)
                  && e'.machine.book.asks == BookModel.Fold(map[], s.asks)
                  && e'.views == e.views + [ViewOfBook(e'.machine.book, levels, recvNs, None)])
  {
  }

  /** The view yielded for a snapshot shows that snapshot, whatever was replayed before it. */
  lemma ViewShowsSnapshot(cfg: Settings, levels: int, messages: seq<Message>, recvNs: int, s: Snapshot)
    requires !Emitted(cfg, levels, messages).raised
    ensures var e := Emitted(cfg, levels, messages + [Message(recvNs, BookPayload(SnapshotFrame(s)))]);
            && (e.raised <==> !WellFormed(s))
            && (WellFormed(s) ==>
                  var all := Checkable(messages + [Message(recvNs, BookPayload(SnapshotFrame(s)))]);
                  && IsLive(cfg, all)
                  && Tracked(cfg, all).book.bids == BookModel.Fold(map[], s.bids)
                  && Tracked(cfg, all).book.asks == BookModel.Fold(map[], s.asks)
                  && e.views == Emitted(cfg, levels, messages).views + [ViewOfBook(Tracked(cfg, all).book, levels, recvNs, None)])
  {
    var msg := Message(recvNs, BookPayload(SnapshotFrame(s)));
    assert (messages + [msg])[..|messages|] == messages;
    EmitSnapshot(cfg, levels, Emitted(cfg, levels, messages), recvNs, s);
    if WellFormed(s) {
      UncheckedFramesAreNotApplied(cfg, levels, messages + [msg]);
    }
  }

  /** The views end on the verifier's book as long as every checksummed frame agreed: fed
      the checksummed frames alone, the verifier holds the book the last view shows. */
  lemma ViewsShowVerifiedBook(cfg: Settings, levels: int, messages: seq<Message>)
    requires !Emitted(cfg, levels, messages).raised && InAgreement(cfg, Checkable(messages))
    requires messages != [] && messages[|messages| - 1].payload.BookPayload? && Emitted(cfg, levels, messages).ready
    ensures var e := Emitted(cfg, levels, messages);
            var v := e.views[|e.views| - 1];
            v == ViewOfBook(Tallied(cfg, Checkable(messages)).book, levels, messages[|messages| - 1].recvNs, v.checksumOk)
  {
    UncheckedFramesAreNotApplied(cfg, levels, messages);
    AgreementHistory(cfg, Checkable(messages));
  }
}
