/** Deciding when a book may be trusted: the tracker, its state machine, and what "live" means. */
module Tracking {
  import opened Market
  import opened BookModel
  import opened BookLaws
  import opened OrderBooks
  import opened Checksum

  datatype State = Disconnected | AwaitSnapshot | Live | Resyncing

  datatype Settings = Settings(depth: nat, scheme: Scheme)

  datatype Machine = Machine(state: State, book: Book, held: seq<Update>) {
    /** A fresh snapshot should be asked for. */
    predicate NeedsResync() {
      state == Disconnected
    }
  }

  const FRESH: Machine := Machine(Disconnected, EMPTY, [])

  // ---- the machine on values ----

  /** The full-depth comparison the tracker makes with a frame's checksum. */
  ghost predicate Matches(cfg: Settings, b: Book, checksum: nat) {
    cfg.scheme.Verify(Top(Bid, b.bids, cfg.depth), Top(Ask, b.asks, cfg.depth), checksum)
  }

  /** A missing checksum, and a checksum of zero, are both taken on trust. */
  ghost predicate Believed(cfg: Settings, b: Book, u: Update) {
    u.checksum.None? || u.checksum.value == 0 || Matches(cfg, b, u.checksum.value)
  }

  ghost function TakeSnapshot(m: Machine, s: Snapshot): Machine {
    match BookModel.ApplySnapshot(m.book, s)
    case Ok(b) => Machine(Live, b, [])
    case Err(_) => m
  }

  /** A mismatch leaves the frame applied; a refused frame leaves everything as it was. */
  ghost function TakeUpdate(cfg: Settings, m: Machine, u: Update): (Machine, Result<bool>) {
    if m.state != Live then (m, Ok(false))
    else
      match BookModel.ApplyUpdate(m.book, cfg.depth, u)
      case Err(e) => (m, Err(e))
      case Ok(b) =>
        if Believed(cfg, b, u) then (m.(book := b), Ok(true))
        else (m.(book := b, state := Disconnected), Ok(false))
  }

  // ---- the tracker ----

  class SequenceTracker {
    const scheme: Scheme
    const book: OrderBook
    var state: State
    var held: seq<Update>

    ghost predicate Valid()
      reads this, book, book.bids, book.asks
    {
      book.Valid()
    }

    ghost function Now(): Machine
      reads this, book, book.bids, book.asks
    {
      Machine(state, book.State(), held)
    }

    ghost function Cfg(): Settings {
      Settings(book.depth, scheme)
    }

    constructor (depth: nat, scheme: Scheme)
      ensures Valid() && Now() == FRESH && Cfg() == Settings(depth, scheme)
      ensures fresh(book) && fresh(book.bids) && fresh(book.asks)
    {
      this.scheme := scheme;
      state := Disconnected;
      held := [];
      book := new OrderBook(depth);
    }

    /** A snapshot is authoritative in every state. */
    method OnSnapshot(snapshot: Snapshot) returns (r: Result<()>)
      requires Valid()
      modifies this, book
      ensures Valid() && Now() == TakeSnapshot(old(Now()), snapshot)
      ensures r.Ok? <==> BookModel.ApplySnapshot(old(book.State()), snapshot).Ok?
      ensures (book.bids == old(book.bids) && book.asks == old(book.asks)) || (fresh(book.bids) && fresh(book.asks))
    {
      var applied := book.ApplySnapshot(snapshot);
      if applied.Err? {
        return applied;
      }
      state := Live;
      held := [];
      r := Ok(());
    }

    method OnUpdate(update: Update) returns (r: Result<bool>)
      requires Valid()
      modifies this`state, book`seqno, book.bids, book.asks
      ensures Valid() && (Now(), r) == TakeUpdate(Cfg(), old(Now()), update)
    {
      if state != Live {
        return Ok(false);
      }
      var applied := book.ApplyUpdate(update);
      if applied.Err? {
        return Err(applied.error);
      }
      if update.checksum.None? || update.checksum.value == 0 {
        return Ok(true);
      }
      var bids, asks := book.DepthLevels(book.depth);
      var matches := scheme.Verify(bids, asks, update.checksum.value);
      state := if matches then Live else Disconnected;
      r := Ok(matches);
    }

    method OnDisconnect()
      requires Valid()
      modifies this`state
      ensures Valid() && Now() == old(Now()).(state := Disconnected)
    {
      state := Disconnected;
    }

    predicate NeedsResync()
      requires Valid()
      reads this, book, book.bids, book.asks
      ensures NeedsResync() <==> Now().NeedsResync()
    {
      state == Disconnected
    }

    /** Holds an update back; whatever the state was, it is resyncing now. */
    method Buffer(update: Update)
      requires Valid()
      modifies this
      ensures Valid() && Now() == Machine(Resyncing, old(book.State()), old(held) + [update])
    {
      state := Resyncing;
      held := held + [update];
    }

    method Drain() returns (updates: seq<Update>)
      requires Valid()
      modifies this`held
      ensures Valid() && updates == old(held) && Now() == old(Now()).(held := [])
    {
      updates := held;
      held := [];
    }
  }

  // ---- runs ----

  datatype Call = OnSnapshot(snapshot: Snapshot) | OnUpdate(update: Update) | OnDisconnect | Buffer(update: Update) | Drain

  ghost function Step(cfg: Settings, m: Machine, c: Call): Machine {
    match c
    case OnSnapshot(s) => TakeSnapshot(m, s)
    case OnUpdate(u) => TakeUpdate(cfg, m, u).0
    case OnDisconnect => m.(state := Disconnected)
    case Buffer(u) => m.(state := Resyncing, held := m.held + [u])
    case Drain => m.(held := [])
  }

  ghost function Run(cfg: Settings, m: Machine, calls: seq<Call>): Machine {
    if calls == [] then m
    else Step(cfg, Run(cfg, m, calls[..|calls| - 1]), calls[|calls| - 1])
  }

  /** The book that a snapshot's book becomes under the updates among `calls` that it
      accepts. Nothing here looks at the tracker's state. */
  ghost function Replayed(cfg: Settings, b: Book, calls: seq<Call>): Book {
    if calls == [] then b
    else
      var before, last := Replayed(cfg, b, calls[..|calls| - 1]), calls[|calls| - 1];
      if last.OnUpdate? && BookModel.ApplyUpdate(before, cfg.depth, last.update).Ok?
      then BookModel.ApplyUpdate(before, cfg.depth, last.update).value
      else before
  }

  /** `calls` can follow an accepted snapshot without costing the book its trust: no
      disconnect, nothing held back, no further accepted snapshot, and every update
      either refused or believed on the book it produced. */
  ghost predicate Unbroken(cfg: Settings, b: Book, calls: seq<Call>) {
    calls == [] ||
    var init, last := calls[..|calls| - 1], calls[|calls| - 1];
    var before := Replayed(cfg, b, init);
    Unbroken(cfg, b, init) &&
    match last
    case OnSnapshot(s) => BookModel.ApplySnapshot(before, s).Err?
    case OnUpdate(u) =>
      var after := BookModel.ApplyUpdate(before, cfg.depth, u);
      after.Err? || Believed(cfg, after.value, u)
    case OnDisconnect => false
    case Buffer(_) => false
    case Drain => true
  }

  ghost function SnapshotBook(cfg: Settings, calls: seq<Call>, i: nat): Result<Book>
    requires i < |calls| && calls[i].OnSnapshot?
  {
    BookModel.ApplySnapshot(Run(cfg, FRESH, calls[..i]).book, calls[i].snapshot)
  }

  /** The call at `i` is an accepted snapshot and nothing after it broke the trust in it. */
  ghost predicate OpensLiveSpan(cfg: Settings, calls: seq<Call>, i: nat) {
    && i < |calls| && calls[i].OnSnapshot?
    && SnapshotBook(cfg, calls, i).Ok?
    && Unbroken(cfg, SnapshotBook(cfg, calls, i).value, calls[i + 1..])
  }

  lemma OpensLater(cfg: Settings, calls: seq<Call>, i: nat)
    requires 0 < |calls| && i < |calls| - 1
    ensures var init := calls[..|calls| - 1];
            && calls[..i] == init[..i]
            && calls[i + 1..][..|calls| - i - 2] == init[i + 1..]
            && calls[i + 1..][|calls| - i - 2] == calls[|calls| - 1]
  {
  }

  /** One more call of an unbroken span, made to a live tracker that holds the replayed book. */
  lemma SpanStep(cfg: Settings, b: Book, span: seq<Call>, m: Machine)
    requires span != [] && Unbroken(cfg, b, span)
    requires m.state == Live && m.book == Replayed(cfg, b, span[..|span| - 1])
    ensures Step(cfg, m, span[|span| - 1]).state == Live && Step(cfg, m, span[|span| - 1]).book == Replayed(cfg, b, span)
  {
  }

  lemma {:induction false} LiveSpanIsLive(cfg: Settings, calls: seq<Call>, i: nat)
    requires OpensLiveSpan(cfg, calls, i)
    ensures Run(cfg, FRESH, calls).state == Live
    ensures Run(cfg, FRESH, calls).book == Replayed(cfg, SnapshotBook(cfg, calls, i).value, calls[i + 1..])
  {
    var n := |calls| - 1;
    if i == n {
      assert calls[i + 1..] == [];
    } else {
      OpensLater(cfg, calls, i);
      LiveSpanIsLive(cfg, calls[..n], i);
      SpanStep(cfg, SnapshotBook(cfg, calls, i).value, calls[i + 1..], Run(cfg, FRESH, calls[..n]));
    }
  }

  lemma {:induction false} LiveHasSpan(cfg: Settings, calls: seq<Call>) returns (i: nat)
    requires Run(cfg, FRESH, calls).state == Live
    ensures OpensLiveSpan(cfg, calls, i)
  {
    var n := |calls| - 1;
    var init, last := calls[..n], calls[n];
    var m := Run(cfg, FRESH, init);
    if last.OnSnapshot? && BookModel.ApplySnapshot(m.book, last.snapshot).Ok? {
      i := n;
      assert calls[i + 1..] == [];
    } else {
      i := LiveHasSpan(cfg, init);
      LiveSpanIsLive(cfg, init, i);
      OpensLater(cfg, calls, i);
    }
  }

  /** Over every run: the tracker is live exactly when some accepted snapshot has been
      followed by an unbroken span, and then the book is that snapshot's book with
      exactly the updates accepted since. */
  lemma LiveMeansAccountedFor(cfg: Settings, calls: seq<Call>)
    ensures Run(cfg, FRESH, calls).state == Live <==> exists i :: OpensLiveSpan(cfg, calls, i)
    ensures forall i :: OpensLiveSpan(cfg, calls, i) ==>
              Run(cfg, FRESH, calls).book == Replayed(cfg, SnapshotBook(cfg, calls, i).value, calls[i + 1..])
  {
    forall i | OpensLiveSpan(cfg, calls, i)
      ensures Run(cfg, FRESH, calls).state == Live
      ensures Run(cfg, FRESH, calls).book == Replayed(cfg, SnapshotBook(cfg, calls, i).value, calls[i + 1..])
    {
      LiveSpanIsLive(cfg, calls, i);
    }
    if Run(cfg, FRESH, calls).state == Live {
      var i := LiveHasSpan(cfg, calls);
    }
  }

  /** A snapshot that any book would accept. Acceptance does not depend on what the book holds. */
  ghost predicate WellFormed(s: Snapshot) {
    BookModel.ApplySnapshot(EMPTY, s).Ok?
  }

  /** Outside live nothing but an accepted snapshot changes the book or restores trust,
      however many calls are made. */
  lemma {:induction false} UntrustedBookIsFrozen(cfg: Settings, m: Machine, calls: seq<Call>)
    requires m.state != Live
    requires forall i :: 0 <= i < |calls| && calls[i].OnSnapshot? ==> !WellFormed(calls[i].snapshot)
    ensures Run(cfg, m, calls).book == m.book && Run(cfg, m, calls).state != Live
  {
    if calls != [] {
      UntrustedBookIsFrozen(cfg, m, calls[..|calls| - 1]);
    }
  }

  ghost predicate ReleasesHold(c: Call) {
    c.OnDisconnect? || (c.OnSnapshot? && WellFormed(c.snapshot))
  }

  /** Something was held back at `i`, and no disconnect or accepted snapshot has come since. */
  ghost predicate HoldsOnSince(calls: seq<Call>, i: nat) {
    && i < |calls| && calls[i].Buffer?
    && forall j :: i < j < |calls| ==> !ReleasesHold(calls[j])
  }

  ghost predicate HoldsOn(calls: seq<Call>) {
    exists i :: HoldsOnSince(calls, i)
  }

  lemma HoldsOnStep(calls: seq<Call>)
    requires calls != []
    ensures var init, last := calls[..|calls| - 1], calls[|calls| - 1];
            HoldsOn(calls) <==> last.Buffer? || (HoldsOn(init) && !ReleasesHold(last))
  {
    var n := |calls| - 1;
    var init := calls[..n];
    if calls[n].Buffer? {
      assert HoldsOnSince(calls, n);
    }
    if i: nat :| i < n && HoldsOnSince(calls, i) {
      assert HoldsOnSince(init, i);
    }
    if !ReleasesHold(calls[n]) {
      if i :| HoldsOnSince(init, i) {
        assert HoldsOnSince(calls, i);
      }
    }
  }

  lemma {:induction false} ResyncingWhileHolding(cfg: Settings, calls: seq<Call>)
    ensures Run(cfg, FRESH, calls).state == Resyncing <==> HoldsOn(calls)
  {
    if calls != [] {
      HoldsOnStep(calls);
      ResyncingWhileHolding(cfg, calls[..|calls| - 1]);
    }
  }

  /** The tracker asks for a snapshot exactly when it is neither live nor holding updates
      back: holding one back, from whatever state, stops it from asking until the next
      disconnect or snapshot. */
  lemma ResyncAskedWhen(cfg: Settings, calls: seq<Call>)
    ensures Run(cfg, FRESH, calls).NeedsResync() <==> (forall i :: !OpensLiveSpan(cfg, calls, i)) && !HoldsOn(calls)
    ensures !(Run(cfg, FRESH, calls).state == Live && HoldsOn(calls))
  {
    LiveMeansAccountedFor(cfg, calls);
    RunKeepsMachine(cfg, calls);
    ResyncingWhileHolding(cfg, calls);
  }

  /** The calls that cost a live tracker its trust: a disconnect, an update held back, and an
      update that is applied but carries a non-zero checksum that is wrong for its book. */
  ghost predicate EndsTrust(cfg: Settings, b: Book, c: Call) {
    match c
    case OnUpdate(u) =>
      var after := BookModel.ApplyUpdate(b, cfg.depth, u);
      after.Ok? && u.checksum.Some? && u.checksum.value != 0 && !Matches(cfg, after.value, u.checksum.value)
    case OnDisconnect => true
    case Buffer(_) => true
    case OnSnapshot(_) => false
    case Drain => false
  }

  /** One call to a live machine: whether it ends trust, and the book it leaves if so. */
  lemma StepEndsTrust(cfg: Settings, m: Machine, c: Call)
    requires m.state == Live
    ensures Step(cfg, m, c).state != Live <==> EndsTrust(cfg, m.book, c)
    ensures EndsTrust(cfg, m.book, c) && c.OnUpdate? ==> Ok(Step(cfg, m, c).book) == BookModel.ApplyUpdate(m.book, cfg.depth, c.update)
  {
  }

  /** The run is live once its first `k` calls have been made. */
  ghost predicate LiveAfter(cfg: Settings, calls: seq<Call>, k: nat)
    requires k <= |calls|
  {
    Run(cfg, FRESH, calls[..k]).state == Live
  }

  /** The call after the first `k` is one of those that cost a live tracker its trust. */
  ghost predicate EndsTrustAt(cfg: Settings, calls: seq<Call>, k: nat)
    requires k < |calls|
  {
    EndsTrust(cfg, Run(cfg, FRESH, calls[..k]).book, calls[k])
  }

  /** Each of those calls does end trust, and when it is an update the book keeps it. */
  lemma TrustEnds(cfg: Settings, calls: seq<Call>, k: nat)
    requires k < |calls| && LiveAfter(cfg, calls, k)
    ensures !LiveAfter(cfg, calls, k + 1) <==> EndsTrustAt(cfg, calls, k)
    ensures !LiveAfter(cfg, calls, k + 1) && calls[k].OnUpdate? ==>
              Ok(Run(cfg, FRESH, calls[..k + 1]).book)
              == BookModel.ApplyUpdate(Run(cfg, FRESH, calls[..k]).book, cfg.depth, calls[k].update)
  {
    assert calls[..k + 1][..k] == calls[..k];
    StepEndsTrust(cfg, Run(cfg, FRESH, calls[..k]), calls[k]);
  }

  /** And over every run nothing else does: between a moment it is live and a later one it
      is not, there is a first call after which it is not, and that call is one of those. */
  lemma LosingTrust(cfg: Settings, calls: seq<Call>, from: nat, to: nat) returns (at: nat)
    requires from <= to <= |calls| && LiveAfter(cfg, calls, from) && !LiveAfter(cfg, calls, to)
    ensures from <= at < to
    ensures forall k :: from <= k <= at ==> LiveAfter(cfg, calls, k)
    ensures !LiveAfter(cfg, calls, at + 1) && EndsTrustAt(cfg, calls, at)
  {
    var live := WhenLive(cfg, calls);
    at := FirstLoss(live, from, to);
    assert live[at] && !live[at + 1];
    TrustEnds(cfg, calls, at);
  }

  /** After how many of the calls the run is live. */
  ghost function WhenLive(cfg: Settings, calls: seq<Call>): (live: seq<bool>)
    ensures |live| == |calls| + 1 && forall k :: 0 <= k <= |calls| ==> live[k] == LiveAfter(cfg, calls, k)
  {
    seq(|calls| + 1, k requires 0 <= k <= |calls| => LiveAfter(cfg, calls, k))
  }

  lemma {:induction false} FirstLoss(live: seq<bool>, from: nat, to: nat) returns (at: nat)
    requires from <= to < |live| && live[from] && !live[to]
    ensures from <= at < to
    ensures (forall k :: from <= k <= at ==> live[k]) && !live[at + 1]
    decreases |live| - from
  {
    at := from;
    if live[from + 1] {
      at := FirstLoss(live, from + 1, to);
    }
  }

  /** Every reachable book is sound, and the awaiting state is never entered. */
  lemma {:induction false} RunKeepsMachine(cfg: Settings, calls: seq<Call>)
    ensures Sound(Run(cfg, FRESH, calls).book)
    ensures Run(cfg, FRESH, calls).state != AwaitSnapshot
  {
    if calls != [] {
      var n := |calls| - 1;
      var m := Run(cfg, FRESH, calls[..n]);
      RunKeepsMachine(cfg, calls[..n]);
      match calls[n]
      case OnSnapshot(s) => if BookModel.ApplySnapshot(m.book, s).Ok? { SnapshotSound(m.book, s); }
      case OnUpdate(u) => if BookModel.ApplyUpdate(m.book, cfg.depth, u).Ok? { UpdateSound(m.book, cfg.depth, u); }
      case _ =>
    }
  }

  /** What was held since the last drain or accepted snapshot, in arrival order. */
  ghost function HeldBack(calls: seq<Call>): seq<Update> {
    if calls == [] then []
    else
      var init, last := calls[..|calls| - 1], calls[|calls| - 1];
      match last
      case Buffer(u) => HeldBack(init) + [u]
      case Drain => []
      case OnSnapshot(s) => if WellFormed(s) then [] else HeldBack(init)
      case _ => HeldBack(init)
  }

  lemma {:induction false} DrainReturnsHeldBack(cfg: Settings, calls: seq<Call>)
    ensures Run(cfg, FRESH, calls).held == HeldBack(calls)
  {
    if calls != [] {
      DrainReturnsHeldBack(cfg, calls[..|calls| - 1]);
    }
  }

  // ---- the ten levels ----

  /** A side trimmed to the window: the full depth and ten levels start with the same ten. */
  lemma SameFirstTen(side: Side, m: map<real, Level>, depth: nat)
    requires |m| <= depth
    ensures FirstTen(Top(side, m, depth)) == FirstTen(Top(side, m, 10))
  {
    var all := BestFirst(side, m);
    assert Top(side, m, depth) == all;
    assert Top(side, m, 10) == all[..Min(10, |m|)];
    assert FirstTen(all) == all[..Min(10, |all|)];
  }

  /** A book written out: its ten best asks, best first, and then its ten best bids. */
  ghost function TextOf(scheme: Scheme, b: Book): string {
    var asks, bids := Top(Ask, b.asks, 10), Top(Bid, b.bids, 10);
    Spelled(asks, |asks|, scheme.pricePlaces, scheme.qtyPlaces) + Spelled(bids, |bids|, scheme.pricePlaces, scheme.qtyPlaces)
  }

  lemma TopTenText(scheme: Scheme, b: Book, checksum: nat)
    ensures scheme.Verify(Top(Bid, b.bids, 10), Top(Ask, b.asks, 10), checksum) <==> scheme.crc(TextOf(scheme, b)) == checksum
  {
    PayloadSpells(Top(Bid, b.bids, 10), Top(Ask, b.asks, 10), scheme.pricePlaces, scheme.qtyPlaces);
  }

  /** What is compared, over every run: an update that a live tracker applies leaves it live
      exactly when it carries no checksum, a zero, or the hash of the book it made, written out. */
  lemma VerdictIsHash(cfg: Settings, calls: seq<Call>, u: Update)
    requires Run(cfg, FRESH, calls).state == Live
    ensures var after := BookModel.ApplyUpdate(Run(cfg, FRESH, calls).book, cfg.depth, u);
            Run(cfg, FRESH, calls + [OnUpdate(u)]).state == Live <==>
            || after.Err?
            || u.checksum.None?
            || u.checksum.value == 0
            || u.checksum.value == cfg.scheme.crc(TextOf(cfg.scheme, after.value))
  {
    var m := Run(cfg, FRESH, calls);
    assert (calls + [OnUpdate(u)])[..|calls|] == calls;
    if BookModel.ApplyUpdate(m.book, cfg.depth, u).Ok? && u.checksum.Some? {
      FullDepthVerdictIsTenLevelVerdict(cfg, m.book, u, u.checksum.value);
      TopTenText(cfg.scheme, BookModel.ApplyUpdate(m.book, cfg.depth, u).value, u.checksum.value);
    }
  }

  /** After an accepted update, verifying over the full depth is verifying over ten levels. */
  lemma FullDepthVerdictIsTenLevelVerdict(cfg: Settings, b: Book, u: Update, checksum: nat)
    requires BookModel.ApplyUpdate(b, cfg.depth, u).Ok?
    ensures var after := BookModel.ApplyUpdate(b, cfg.depth, u).value;
            Matches(cfg, after, checksum)
            <==> cfg.scheme.Verify(Top(Bid, after.bids, 10), Top(Ask, after.asks, 10), checksum)
  {
    var after := BookModel.ApplyUpdate(b, cfg.depth, u).value;
    UpdateOutcome(b, cfg.depth, u);
    SameFirstTen(Bid, after.bids, cfg.depth);
    SameFirstTen(Ask, after.asks, cfg.depth);
  }
}
