/** What a reader of the order book may rely on, over single frames and over whole runs. */
module BookLaws {
  import opened Market
  import opened SortedDictionary
  import opened BookModel

  // ---- folding a frame into a side ----

  predicate Mentions(levels: seq<Level>, p: real) {
    exists i :: 0 <= i < |levels| && levels[i].price == p
  }

  predicate LastMention(levels: seq<Level>, p: real, i: nat) {
    i < |levels| && levels[i].price == p && forall j :: i < j < |levels| ==> levels[j].price != p
  }

  /** The last mention of a price decides it, and a price the frame does not mention is untouched. */
  lemma {:induction false} FoldAt(m: Ladder, levels: seq<Level>, p: real)
    ensures !Mentions(levels, p) ==>
              (p in Fold(m, levels) <==> p in m) && (p in m ==> Fold(m, levels)[p] == m[p])
    ensures forall i: nat :: LastMention(levels, p, i) ==>
              (p in Fold(m, levels) <==> levels[i].qty != 0.0)
              && (levels[i].qty != 0.0 ==> Fold(m, levels)[p] == levels[i])
  {
    if levels != [] {
      var n := |levels| - 1;
      var init := levels[..n];
      FoldAt(m, init, p);
      if !Mentions(levels, p) {
        assert levels[n].price != p;
        assert forall i :: 0 <= i < n ==> init[i] == levels[i];
      }
      forall i: nat | LastMention(levels, p, i)
        ensures (p in Fold(m, levels) <==> levels[i].qty != 0.0)
                && (levels[i].qty != 0.0 ==> Fold(m, levels)[p] == levels[i])
      {
        if i < n {
          assert LastMention(init, p, i);
          assert levels[n].price != p;
        }
      }
    }
  }

  lemma {:induction false} FoldKeepsSide(m: Ladder, levels: seq<Level>)
    requires SideOk(m) && NoneNegative(levels)
    ensures SideOk(Fold(m, levels))
  {
    if levels != [] {
      FoldKeepsSide(m, levels[..|levels| - 1]);
    }
  }

  // ---- trimming a side ----

  /** No price of `m` is worse than `w`. */
  ghost predicate IsWorst(side: Side, m: Ladder, w: real) {
    w in m && forall q :: q in m && q != w ==> Better(side, q, w)
  }

  lemma WorstExists(side: Side, m: Ladder)
    requires m != map[]
    ensures exists w :: IsWorst(side, m, w)
  {
    TouchExists(Opposite(side), m);
    var w :| IsTouch(Opposite(side), m, w);
    assert IsWorst(side, m, w);
  }

  lemma BestOfShort(side: Side, m: Ladder, depth: nat)
    requires |m| <= depth
    ensures Best(side, m, depth) == m
  {
    forall p | p in m
      ensures |Ahead(side, m, p)| < depth
    {
      assert p !in Ahead(side, m, p);
      SubsetSize(Ahead(side, m, p), m.Keys);
    }
  }

  /** One turn of the trim loop: dropping the worst level of an overfull side
      leaves its `depth` best entries alone. */
  lemma TrimStep(side: Side, m: Ladder, depth: nat, w: real)
    requires |m| > depth && IsWorst(side, m, w)
    ensures Best(side, m - {w}, depth) == Best(side, m, depth)
    ensures |m - {w}| == |m| - 1
  {
    var rest := m - {w};
    assert rest.Keys == m.Keys - {w};
    assert Ahead(side, m, w) == rest.Keys;
    forall p | p in rest
      ensures Ahead(side, rest, p) == Ahead(side, m, p)
    {
    }
    assert w !in Best(side, m, depth);
  }

  /** `kept` consists of `depth` entries of `m` (all of them when there are fewer),
      each ahead of every entry left out. */
  ghost predicate IsBestPart(side: Side, m: Ladder, depth: nat, kept: Ladder) {
    && (forall p :: p in kept ==> p in m && kept[p] == m[p])
    && |kept| == Min(depth, |m|)
    && forall p, q :: p in kept && q in m && q !in kept ==> Better(side, p, q)
  }

  lemma {:induction false} BestIsBestPart(side: Side, m: Ladder, depth: nat)
    ensures IsBestPart(side, m, depth, Best(side, m, depth))
    decreases |m|
  {
    if |m| <= depth {
      BestOfShort(side, m, depth);
    } else {
      WorstExists(side, m);
      var w :| IsWorst(side, m, w);
      TrimStep(side, m, depth, w);
      BestIsBestPart(side, m - {w}, depth);
      assert forall q :: q in m ==> q == w || q in m - {w};
    }
  }

  lemma BestPartUnique(side: Side, m: Ladder, depth: nat, k1: Ladder, k2: Ladder)
    requires IsBestPart(side, m, depth, k1) && IsBestPart(side, m, depth, k2)
    ensures k1 == k2
  {
    if k1.Keys <= k2.Keys {
      SubsetSize(k1.Keys, k2.Keys);
    } else if k2.Keys <= k1.Keys {
      SubsetSize(k2.Keys, k1.Keys);
    } else {
      var p := Outside(k1.Keys, k2.Keys);
      var q := Outside(k2.Keys, k1.Keys);
      assert false;
    }
    assert k1.Keys == k2.Keys;
    assert forall p :: p in k1 ==> k1[p] == k2[p];
  }

  /** Trimming never moves the touch, provided the window has room for one level. */
  lemma TrimKeepsTouch(side: Side, m: Ladder, depth: nat, p: real)
    requires depth >= 1
    ensures IsTouch(side, Best(side, m, depth), p) <==> IsTouch(side, m, p)
  {
    if m != map[] {
      TouchExists(side, m);
      var t :| IsTouch(side, m, t);
      assert Ahead(side, m, t) == {};
      assert IsTouch(side, Best(side, m, depth), t);
      if IsTouch(side, m, p) {
        TouchUnique(side, m, p, t);
      }
      if IsTouch(side, Best(side, m, depth), p) {
        TouchUnique(side, Best(side, m, depth), p, t);
      }
    }
  }

  lemma CrossedAtTouch(bids: Ladder, asks: Ladder, b: real, a: real)
    requires IsTouch(Bid, bids, b) && IsTouch(Ask, asks, a)
    ensures Crossed(bids, asks) <==> b >= a
  {
  }

  /** The crossed check may be made after trimming exactly because the window is not empty. */
  lemma TrimKeepsCrossed(bids: Ladder, asks: Ladder, depth: nat)
    requires depth >= 1
    ensures Crossed(Best(Bid, bids, depth), Best(Ask, asks, depth)) <==> Crossed(bids, asks)
  {
    if bids != map[] && asks != map[] {
      TouchExists(Bid, bids);
      TouchExists(Ask, asks);
      var b :| IsTouch(Bid, bids, b);
      var a :| IsTouch(Ask, asks, a);
      TrimKeepsTouch(Bid, bids, depth, b);
      TrimKeepsTouch(Ask, asks, depth, a);
      CrossedAtTouch(bids, asks, b, a);
      CrossedAtTouch(Best(Bid, bids, depth), Best(Ask, asks, depth), b, a);
    }
  }

  // ---- single frames ----

  /** An update is accepted exactly when it names no negative quantity and leaves
      the sides apart (an empty window cannot tell); then each side is the best part of what the frame makes of it. */
  lemma UpdateOutcome(b: Book, depth: nat, u: Update)
    ensures ApplyUpdate(b, depth, u).Ok? <==>
            && NoneNegative(u.bids) && NoneNegative(u.asks)
            && (depth == 0 || !Crossed(Fold(b.bids, u.bids), Fold(b.asks, u.asks)))
    ensures ApplyUpdate(b, depth, u).Ok? ==>
              var b' := ApplyUpdate(b, depth, u).value;
              && IsBestPart(Bid, Fold(b.bids, u.bids), depth, b'.bids)
              && IsBestPart(Ask, Fold(b.asks, u.asks), depth, b'.asks)
              && WithinDepth(b', depth)
              && b'.seqno == b.seqno + 1
  {
    if depth >= 1 {
      TrimKeepsCrossed(Fold(b.bids, u.bids), Fold(b.asks, u.asks), depth);
    }
    BestIsBestPart(Bid, Fold(b.bids, u.bids), depth);
    BestIsBestPart(Ask, Fold(b.asks, u.asks), depth);
  }

  /** With an empty window the crossed check sees nothing: a frame that crosses
      the book is accepted. */
  lemma EmptyWindowAcceptsCrossed()
    ensures var u := Update([Level(2.0, 1.0)], [Level(1.0, 1.0)], None);
            && Crossed(Fold(EMPTY.bids, u.bids), Fold(EMPTY.asks, u.asks))
            && ApplyUpdate(EMPTY, 0, u).Ok?
  {
    var u := Update([Level(2.0, 1.0)], [Level(1.0, 1.0)], None);
    assert u.bids[..0] == [] && u.asks[..0] == [];
    assert 2.0 in Fold(EMPTY.bids, u.bids) && 1.0 in Fold(EMPTY.asks, u.asks);
  }

  lemma {:induction false} LoadedPrices(levels: seq<Level>, p: real)
    requires AllPositive(levels)
    ensures p in Fold(map[], levels) <==> Mentions(levels, p)
  {
    if levels != [] {
      var n := |levels| - 1;
      LoadedPrices(levels[..n], p);
      if levels[n].price == p {
        assert Mentions(levels, p);
      } else if i :| 0 <= i < n && levels[i].price == p {
        assert levels[..n][i].price == p;
      }
    }
  }

  /** A snapshot is accepted, whatever the book held, exactly when every quantity is positive and
      every bid is below every ask; then each side holds the prices it names, each with its last
      mention, and one more frame has been counted. */
  lemma SnapshotOutcome(b: Book, s: Snapshot)
    ensures ApplySnapshot(b, s).Ok? <==>
            && AllPositive(s.bids) && AllPositive(s.asks)
            && forall i, j :: 0 <= i < |s.bids| && 0 <= j < |s.asks| ==> s.bids[i].price < s.asks[j].price
    ensures ApplySnapshot(b, s).Ok? ==>
              var b' := ApplySnapshot(b, s).value;
              && b'.seqno == b.seqno + 1
              && (forall p :: p in b'.bids <==> Mentions(s.bids, p))
              && (forall p :: p in b'.asks <==> Mentions(s.asks, p))
              && (forall i: nat :: i < |s.bids| && LastMention(s.bids, s.bids[i].price, i) ==> b'.bids[s.bids[i].price] == s.bids[i])
              && (forall i: nat :: i < |s.asks| && LastMention(s.asks, s.asks[i].price, i) ==> b'.asks[s.asks[i].price] == s.asks[i])
  {
    if AllPositive(s.bids) && AllPositive(s.asks) {
      forall p
        ensures p in Fold(map[], s.bids) <==> Mentions(s.bids, p)
        ensures p in Fold(map[], s.asks) <==> Mentions(s.asks, p)
      {
        LoadedPrices(s.bids, p);
        LoadedPrices(s.asks, p);
      }
      LoadedCrossed(s);
      forall i: nat | i < |s.bids| && LastMention(s.bids, s.bids[i].price, i)
        ensures Fold(map[], s.bids)[s.bids[i].price] == s.bids[i]
      {
        FoldAt(map[], s.bids, s.bids[i].price);
      }
      forall i: nat | i < |s.asks| && LastMention(s.asks, s.asks[i].price, i)
        ensures Fold(map[], s.asks)[s.asks[i].price] == s.asks[i]
      {
        FoldAt(map[], s.asks, s.asks[i].price);
      }
    }
  }

  lemma LoadedCrossed(s: Snapshot)
    requires forall p :: p in Fold(map[], s.bids) <==> Mentions(s.bids, p)
    requires forall p :: p in Fold(map[], s.asks) <==> Mentions(s.asks, p)
    ensures Crossed(Fold(map[], s.bids), Fold(map[], s.asks)) <==>
            exists i, j :: 0 <= i < |s.bids| && 0 <= j < |s.asks| && s.bids[i].price >= s.asks[j].price
  {
    if i, j :| 0 <= i < |s.bids| && 0 <= j < |s.asks| && s.bids[i].price >= s.asks[j].price {
      assert Mentions(s.bids, s.bids[i].price) && Mentions(s.asks, s.asks[j].price);
    }
  }

  lemma SnapshotSound(b: Book, s: Snapshot)
    requires ApplySnapshot(b, s).Ok?
    ensures Sound(ApplySnapshot(b, s).value)
  {
    FoldKeepsSide(map[], s.bids);
    FoldKeepsSide(map[], s.asks);
  }

  lemma UpdateSound(b: Book, depth: nat, u: Update)
    requires Sound(b) && ApplyUpdate(b, depth, u).Ok?
    ensures Sound(ApplyUpdate(b, depth, u).value)
  {
    FoldKeepsSide(b.bids, u.bids);
    FoldKeepsSide(b.asks, u.asks);
  }

  // ---- runs ----

  datatype Command = Load(snapshot: Snapshot) | Change(update: Update) | Wipe

  ghost function Attempt(b: Book, depth: nat, c: Command): Result<Book> {
    match c
    case Load(s) => ApplySnapshot(b, s)
    case Change(u) => ApplyUpdate(b, depth, u)
    case Wipe => Ok(Clear(b))
  }

  /** A refused command raises and leaves the book alone. */
  ghost function Step(b: Book, depth: nat, c: Command): Book {
    match Attempt(b, depth, c)
    case Ok(b') => b'
    case Err(_) => b
  }

  ghost function Run(depth: nat, commands: seq<Command>): Book {
    if commands == [] then EMPTY
    else Step(Run(depth, commands[..|commands| - 1]), depth, commands[|commands| - 1])
  }

  /** The accepted frames of a run; clearing is not a frame. */
  ghost function Accepted(depth: nat, commands: seq<Command>): nat {
    if commands == [] then 0
    else
      var n := |commands| - 1;
      Accepted(depth, commands[..n])
      + if commands[n] != Wipe && Attempt(Run(depth, commands[..n]), depth, commands[n]).Ok? then 1 else 0
  }

  /** The last command that took effect was an update or a clear, not a snapshot. */
  ghost predicate Trimmed(depth: nat, commands: seq<Command>)
  {
    commands != [] &&
    var n := |commands| - 1;
    var outcome := Attempt(Run(depth, commands[..n]), depth, commands[n]);
    match commands[n]
    case Load(_) => outcome.Err? && Trimmed(depth, commands[..n])
    case Change(_) => outcome.Ok? || Trimmed(depth, commands[..n])
    case Wipe => true
  }

  /** Every book that any run can reach has matching keys, positive quantities and
      uncrossed sides, and has counted the accepted frames. Only a snapshot can take
      it over `depth`, and the next accepted update brings it back. */
  lemma {:induction false} RunKeepsBook(depth: nat, commands: seq<Command>)
    ensures Sound(Run(depth, commands))
    ensures Run(depth, commands).seqno == Accepted(depth, commands)
    ensures Trimmed(depth, commands) ==> WithinDepth(Run(depth, commands), depth)
    ensures commands != [] && commands[|commands| - 1] == Wipe ==> Run(depth, commands).bids == map[] && Run(depth, commands).asks == map[]
  {
    if commands != [] {
      var n := |commands| - 1;
      var b := Run(depth, commands[..n]);
      RunKeepsBook(depth, commands[..n]);
      match commands[n]
      case Load(s) =>
        if ApplySnapshot(b, s).Ok? { SnapshotSound(b, s); }
      case Change(u) =>
        if ApplyUpdate(b, depth, u).Ok? {
          UpdateSound(b, depth, u);
          UpdateOutcome(b, depth, u);
        }
      case Wipe =>
    }
  }
}
