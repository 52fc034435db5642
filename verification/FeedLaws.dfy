/** What holds of every life of the client. */
module FeedLaws {
  import opened Market
  import opened Backoff
  import opened Subscription
  import opened FeedModel

  predicate Increasing(s: seq<nat>) {
    forall i, j :: 0 <= i < j < |s| ==> s[i] < s[j]
  }

  lemma IncreasingGrows(s: seq<nat>, n: nat)
    requires Increasing(s) && forall i :: 0 <= i < |s| ==> s[i] < n
    ensures Increasing(s + [n])
  {
  }

  lemma ConsecutiveCons(before: seq<nat>, first: nat, n: nat)
    ensures (before + [first]) + Consecutive(first + 1, n) == before + Consecutive(first, n + 1)
  {
  }

  lemma ConsecutiveJoin(before: seq<nat>, first: nat, m: nat, n: nat)
    ensures (before + Consecutive(first, m)) + Consecutive(first + m, n) == before + Consecutive(first, m + n)
  {
  }

  /** The events that happened between two states of one life. */
  function Between(s: State, s': State): seq<Event>
    requires |s'.rest| <= |s.rest|
  {
    s.rest[..|s.rest| - |s'.rest|]
  }

  lemma BetweenStep(s: State, t: State, s': State)
    requires s.rest != [] && t.rest == s.rest[1..] && |s'.rest| <= |t.rest|
    ensures Between(s, s') == [s.rest[0]] + Between(t, s')
  {
  }

  // ---- frames and the numbers they get ----

  /** The frames among some events, in order. */
  function Frames(events: seq<Event>): seq<Parsed> {
    if events == [] then []
    else (if events[0].outcome.Reply? then [events[0].outcome.frame] else []) + Frames(events[1..])
  }

  /** Waiting for a handshake to settle stamps and collects exactly the frames received
      meanwhile; it succeeds when they leave nothing pending, and is rejected when they refuse. */
  lemma {:induction false} SettlingCollects(s: State, bookId: nat, standing: Standing, numbers: seq<nat>)
    requires standing.Waiting?
    ensures var r := Settling(s, bookId, standing, numbers);
            var frames := Frames(Between(s, r.now));
            && r.numbers == numbers + Consecutive(s.seqNo, |frames|)
            && r.now.seqNo == s.seqNo + |frames|
            && (r.end.Finished? <==> SettleAll(standing, bookId, frames) == Waiting({}))
            && (r.end.Rejected? <==> SettleAll(standing, bookId, frames).Refused?)
            && !r.end.GaveUp? && r.now.sent == s.sent && r.now.reqId == s.reqId && r.now.yielded == s.yielded
    decreases |s.rest|
  {
    var a := Await(s);
    if standing.pending != {} {
      if a.outcome.Reply? {
        var now, more := a.now.(seqNo := s.seqNo + 1), numbers + [s.seqNo];
        var next := Settle(standing, bookId, a.outcome.frame);
        BetweenStep(s, now, Settling(s, bookId, standing, numbers).now);
        if next.Waiting? {
          SettlingCollects(now, bookId, next, more);
          ConsecutiveCons(numbers, s.seqNo, |Frames(Between(now, Settling(now, bookId, next, more).now))|);
        }
      }
    }
  }

  /** The frames a read loop receives: each silence is followed by the fate of a ping, which is no frame. */
  function FramesRead(events: seq<Event>): seq<Parsed> {
    if events == [] then []
    else if events[0].outcome.Reply? then [events[0].outcome.frame] + FramesRead(events[1..])
    else if events[0].outcome.Silence? && |events| > 1 then FramesRead(events[2..])
    else []
  }

  /** Between the start of a reading and its end every frame received was stamped, yielded
      in turn, and counted. */
  predicate Yields(s: State, count: nat, r: Reads)
    requires |r.now.rest| <= |s.rest|
  {
    var n := |FramesRead(Between(s, r.now))|;
    && r.count == count + n
    && r.now.seqNo == s.seqNo + n
    && r.now.yielded == s.yielded + Consecutive(s.seqNo, n)
  }

  lemma FrameThenRest(s: State, t: State, count: nat, r: Reads)
    requires s.rest != [] && s.rest[0].outcome.Reply? && t.rest == s.rest[1..] && |r.now.rest| <= |t.rest|
    requires t.seqNo == s.seqNo + 1 && t.yielded == s.yielded + [s.seqNo] && Yields(t, count + 1, r)
    ensures Yields(s, count, r)
  {
    BetweenStep(s, t, r.now);
    assert Between(s, r.now)[1..] == Between(t, r.now);
    ConsecutiveCons(s.yielded, s.seqNo, |FramesRead(Between(t, r.now))|);
  }

  lemma PingThenRest(s: State, t: State, count: nat, r: Reads)
    requires |s.rest| >= 2 && s.rest[0].outcome.Silence? && t.rest == s.rest[2..] && |r.now.rest| <= |t.rest|
    requires t.seqNo == s.seqNo && t.yielded == s.yielded && Yields(t, count, r)
    ensures Yields(s, count, r)
  {
    assert Between(s, r.now)[2..] == Between(t, r.now);
  }

  lemma NothingRead(s: State, count: nat, r: Reads)
    requires |r.now.rest| <= |s.rest| && r.count == count && r.now.seqNo == s.seqNo && r.now.yielded == s.yielded
    requires FramesRead(Between(s, r.now)) == []
    ensures Yields(s, count, r)
  {
    assert s.yielded + Consecutive(s.seqNo, 0) == s.yielded;
  }

  lemma {:induction false} ReadingYields(w: World, s: State, pinged: bool, count: nat)
    ensures Yields(s, count, Reading(w, s, pinged, count))
    decreases |s.rest|
  {
    var a, r := Await(s), Reading(w, s, pinged, count);
    if s.closed || s.rest == [] {
      NothingRead(s, count, r);
    } else if a.outcome.Silence? && !pinged {
      var p := Ping(a.now);
      if p.outcome.Reply? {
        ReadingYields(w, p.now, true, count);
        PingThenRest(s, p.now, count, r);
      } else {
        NothingRead(s, count, r);
      }
    } else if a.outcome.Reply? {
      var now := Hand(w, a.now.(seqNo := s.seqNo + 1), s.seqNo);
      if Abandons(w, s) {
        NothingRead(now, count + 1, r);
      } else {
        ReadingYields(w, now, false, count + 1);
      }
      FrameThenRest(s, now, count, r);
    } else {
      NothingRead(s, count, r);
    }
  }

  // ---- what ends a stage ----

  /** Nothing has been awaited yet, or the last thing that was came back. */
  predicate CameBack(events: seq<Event>) {
    events == [] || events[|events| - 1].outcome.Reply?
  }

  /** The last thing awaited failed in a way that means "reconnect". */
  predicate Broke(events: seq<Event>) {
    events != [] && events[|events| - 1].outcome.Failure?
  }

  predicate TimedOut(events: seq<Event>) {
    events != [] && events[|events| - 1].outcome.Silence?
  }

  /** The last thing awaited failed for good, or the client was cancelled. */
  predicate BrokeOff(events: seq<Event>) {
    events != [] && (events[|events| - 1].outcome.Fault? || events[|events| - 1].outcome.Cancelled?)
  }

  /** Since `s` the caller has been handed a message and has not come back for another. */
  predicate Abandoned(w: World, s: State, now: State) {
    |now.yielded| > |s.yielded| && w.caller(|now.yielded| - 1) == Abandon
  }

  /** The loop fell silent for good: a ping sent on a first silence got no answer in time, or
      went out and met a second silence before any frame. */
  predicate FellSilent(events: seq<Event>) {
    var n := |events|;
    && n >= 2
    && events[n - 1].outcome.Silence?
    && (events[n - 2].outcome.Silence? || (n >= 3 && events[n - 3].outcome.Silence? && events[n - 2].outcome.Reply?))
  }

  /** How a reading ends, by what happened in it: it is over when the client was closed and nothing
      failed; it is a lost connection exactly when something broke or it fell silent; a fault, a
      cancellation and a caller who leaves are raised, and nothing else is unless events run out. */
  predicate EndsReading(end: Ending, events: seq<Event>, now: State, abandoned: bool) {
    && (end.Finished? || end.Transient? || end.Raised?)
    && (end.Finished? <==> now.closed && CameBack(events) && !abandoned)
    && (end.Transient? <==> Broke(events) || FellSilent(events))
    && (BrokeOff(events) || abandoned ==> end.Raised?)
    && (end.Raised? ==> BrokeOff(events) || abandoned || now.rest == [])
  }

  lemma EarlierLonger(earlier: seq<Event>, s: State, t: State, s': State, k: nat)
    requires k <= |s.rest| && t.rest == s.rest[k..] && |s'.rest| <= |t.rest|
    ensures earlier + Between(s, s') == (earlier + s.rest[..k]) + Between(t, s')
  {
  }

  /** The last ping went out, and nothing has been received since. */
  predicate PingOut(events: seq<Event>) {
    var n := |events|;
    n >= 2 && events[n - 2].outcome.Silence? && events[n - 1].outcome.Reply?
  }

  /** What happened before a turn of the read loop: nothing is left unanswered, and `pinged`
      says whether a ping is out. */
  predicate SoFar(earlier: seq<Event>, pinged: bool) {
    CameBack(earlier) && (pinged <==> PingOut(earlier))
  }

  lemma StopsReading(w: World, s: State, pinged: bool, count: nat, earlier: seq<Event>)
    requires SoFar(earlier, pinged)
    requires s.rest != [] && !s.closed && !s.rest[0].outcome.Reply? && (s.rest[0].outcome.Silence? ==> pinged)
    ensures var r := Reading(w, s, pinged, count);
            EndsReading(r.end, earlier + Between(s, r.now), r.now, Abandoned(w, s, r.now))
  {
    assert Between(s, Reading(w, s, pinged, count).now) == [s.rest[0]];
  }

  lemma StopsPinging(w: World, s: State, count: nat, earlier: seq<Event>)
    requires SoFar(earlier, false)
    requires s.rest != [] && !s.closed && s.rest[0].outcome.Silence? && !Ping(Await(s).now).outcome.Reply?
    ensures var r := Reading(w, s, false, count);
            EndsReading(r.end, earlier + Between(s, r.now), r.now, Abandoned(w, s, r.now))
  {
    var r := Reading(w, s, false, count);
    if |s.rest| > 1 {
      assert Between(s, r.now) == [s.rest[0], s.rest[1]];
    } else {
      assert Between(s, r.now) == [s.rest[0]];
    }
  }

  /** Nothing to wait for: the loop is over, or there is nothing left to happen. */
  lemma StopsAtOnce(w: World, s: State, pinged: bool, count: nat, earlier: seq<Event>)
    requires SoFar(earlier, pinged) && (s.closed || s.rest == [])
    ensures var r := Reading(w, s, pinged, count);
            EndsReading(r.end, earlier + Between(s, r.now), r.now, Abandoned(w, s, r.now))
  {
    assert earlier + Between(s, s) == earlier;
  }

  lemma CallerLeaves(w: World, s: State, pinged: bool, count: nat, earlier: seq<Event>)
    requires s.rest != [] && !s.closed && s.rest[0].outcome.Reply? && Abandons(w, s)
    ensures var r := Reading(w, s, pinged, count);
            EndsReading(r.end, earlier + Between(s, r.now), r.now, Abandoned(w, s, r.now))
  {
    assert Between(s, Reading(w, s, pinged, count).now) == [s.rest[0]];
  }

  /** A turn after which the caller, if handed a message, came back: the reading ends as it does from there. */
  lemma EndsLater(w: World, s: State, t: State, r: Reads, earlier: seq<Event>, k: nat)
    requires k <= |s.rest| && t.rest == s.rest[k..] && |r.now.rest| <= |t.rest| && |r.now.yielded| >= |t.yielded|
    requires |t.yielded| == |s.yielded| || (|t.yielded| == |s.yielded| + 1 && !Abandons(w, s))
    requires EndsReading(r.end, (earlier + s.rest[..k]) + Between(t, r.now), r.now, Abandoned(w, t, r.now))
    ensures EndsReading(r.end, earlier + Between(s, r.now), r.now, Abandoned(w, s, r.now))
  {
    EarlierLonger(earlier, s, t, r.now, k);
  }

  /** Silence alone ends a reading only across a ping; `earlier` is what happened before `s`. */
  lemma {:induction false} ReadingEnds(w: World, s: State, pinged: bool, count: nat, earlier: seq<Event>)
    requires SoFar(earlier, pinged)
    ensures var r := Reading(w, s, pinged, count);
            EndsReading(r.end, earlier + Between(s, r.now), r.now, Abandoned(w, s, r.now))
    decreases |s.rest|
  {
    var a, r := Await(s), Reading(w, s, pinged, count);
    if s.closed || s.rest == [] {
      StopsAtOnce(w, s, pinged, count, earlier);
    } else if a.outcome.Reply? {
      var now := Hand(w, a.now.(seqNo := s.seqNo + 1), s.seqNo);
      if Abandons(w, s) {
        CallerLeaves(w, s, pinged, count, earlier);
      } else {
        ReadingEnds(w, now, false, count + 1, earlier + s.rest[..1]);
        ReadingYields(w, now, false, count + 1);
        assert r == Reading(w, now, false, count + 1);
        EndsLater(w, s, now, r, earlier, 1);
      }
    } else if !a.outcome.Silence? || pinged {
      StopsReading(w, s, pinged, count, earlier);
    } else if Ping(a.now).outcome.Reply? {
      ReadingEnds(w, Ping(a.now).now, true, count, earlier + s.rest[..2]);
      ReadingYields(w, Ping(a.now).now, true, count);
      assert r == Reading(w, Ping(a.now).now, true, count);
      EndsLater(w, s, Ping(a.now).now, r, earlier, 2);
    } else {
      StopsPinging(w, s, count, earlier);
    }
  }

  /** How connecting, asking for the channels or waiting for their answers fails: it is a lost
      connection exactly when the last thing awaited broke or timed out, and otherwise a
      rejection, or raised, for the reasons a reading raises. */
  predicate EndsEarly(end: Ending, events: seq<Event>, now: State, abandoned: bool) {
    && (end.Rejected? || end.Transient? || end.Raised?)
    && (end.Transient? <==> Broke(events) || TimedOut(events))
    && (BrokeOff(events) || abandoned ==> end.Raised?)
    && (end.Raised? ==> BrokeOff(events) || abandoned || now.rest == [])
  }

  /** Either a stage went through, and nothing is left unanswered, or it failed. */
  predicate ThroughOrEarly(end: Ending, events: seq<Event>, now: State) {
    if end.Finished? then CameBack(events) else EndsEarly(end, events, now, false)
  }

  lemma {:induction false} SendingEnds(cfg: Config, s: State, first: nat, i: nat, earlier: seq<Event>)
    requires i <= |cfg.channels| && CameBack(earlier)
    ensures var r := SendFrom(cfg, s, first, i);
            ThroughOrEarly(r.end, earlier + Between(s, r.now), r.now)
    decreases |cfg.channels| - i
  {
    var r := SendFrom(cfg, s, first, i);
    if i == |cfg.channels| || s.rest == [] {
      assert earlier + Between(s, s) == earlier;
    } else {
      var a := Send(s, first + i);
      if a.outcome.Reply? {
        SendingEnds(cfg, a.now, first, i + 1, earlier + s.rest[..1]);
        EarlierLonger(earlier, s, a.now, r.now, 1);
      } else {
        assert Between(s, r.now) == [s.rest[0]];
      }
    }
  }

  lemma {:induction false} SettlingEnds(s: State, bookId: nat, standing: Standing, numbers: seq<nat>, earlier: seq<Event>)
    requires standing.Waiting? && CameBack(earlier)
    ensures var r := Settling(s, bookId, standing, numbers);
            ThroughOrEarly(r.end, earlier + Between(s, r.now), r.now)
    decreases |s.rest|
  {
    var a, r := Await(s), Settling(s, bookId, standing, numbers);
    if standing.pending == {} || s.rest == [] {
      assert earlier + Between(s, s) == earlier;
    } else if a.outcome.Reply? {
      var now := a.now.(seqNo := s.seqNo + 1);
      var next := Settle(standing, bookId, a.outcome.frame);
      if next.Waiting? {
        SettlingEnds(now, bookId, next, numbers + [s.seqNo], earlier + s.rest[..1]);
        EarlierLonger(earlier, s, now, r.now, 1);
      } else {
        assert Between(s, r.now) == [s.rest[0]];
      }
    } else {
      assert Between(s, r.now) == [s.rest[0]];
    }
  }

  lemma BetweenJoin(s: State, t: State, s': State, earlier: seq<Event>)
    requires |s'.rest| <= |t.rest| <= |s.rest| && t.rest == s.rest[|s.rest| - |t.rest|..]
    ensures (earlier + Between(s, t)) + Between(t, s') == earlier + Between(s, s')
  {
  }

  lemma HandshakeEnds(cfg: Config, s: State, first: nat, earlier: seq<Event>)
    requires CameBack(earlier)
    ensures var r := Handshake(cfg, s, first);
            ThroughOrEarly(r.end, earlier + Between(s, r.now), r.now)
  {
    var asked := SendFrom(cfg, s, first, 0);
    SendingEnds(cfg, s, first, 0, earlier);
    if asked.end.Finished? {
      SendingLeaves(cfg, s, first, 0);
      SettlingEnds(asked.now, BookId(cfg, first), Waiting(RequestIds(cfg, first)), [], earlier + Between(s, asked.now));
      BetweenJoin(s, asked.now, Handshake(cfg, s, first).now, earlier);
    }
  }

  /** Sending takes events from the front. */
  lemma {:induction false} SendingLeaves(cfg: Config, s: State, first: nat, i: nat)
    requires i <= |cfg.channels|
    ensures var r := SendFrom(cfg, s, first, i);
            r.now.rest == s.rest[|s.rest| - |r.now.rest|..]
    decreases |cfg.channels| - i
  {
    var a := Send(s, first + i);
    if i < |cfg.channels| && a.outcome.Reply? {
      SendingLeaves(cfg, a.now, first, i + 1);
    }
  }

  // ---- numbers and ids in order ----

  /** The ids sent since `s` are the next ones in turn; at most `spare` further ones were used up
      by requests that did not go out. */
  predicate AskedInTurn(s: State, now: State, k: nat, spare: nat) {
    now.sent == s.sent + Consecutive(s.reqId + 1, k) && s.reqId + k <= now.reqId <= s.reqId + k + spare
  }

  lemma AskedMore(s: State, t: State, now: State, j: nat, k: nat, spare: nat)
    requires t.sent == s.sent + Consecutive(s.reqId + 1, j) && t.reqId == s.reqId + j && AskedInTurn(t, now, k, spare)
    ensures AskedInTurn(s, now, j + k, spare)
  {
    ConsecutiveJoin(s.sent, s.reqId + 1, j, k);
  }

  lemma AskedNothing(s: State, now: State, spare: nat)
    requires now.sent == s.sent && s.reqId <= now.reqId <= s.reqId + spare
    ensures AskedInTurn(s, now, 0, spare)
  {
    assert s.sent + Consecutive(s.reqId + 1, 0) == s.sent;
  }

  /** A ping that went out took the next id; a ping that did not may have used one up. */
  lemma PingAsks(s: State)
    ensures var p := Ping(s);
            if p.outcome.Reply? then p.now.sent == s.sent + Consecutive(s.reqId + 1, 1) && p.now.reqId == s.reqId + 1
            else p.now.sent == s.sent && p.now.reqId == s.reqId + 1
  {
  }

  /** A reading sends its pings under the next ids in turn, and uses up none besides, except for
      a last ping that does not go out. */
  lemma {:induction false} ReadingAsks(w: World, s: State, pinged: bool, count: nat) returns (k: nat)
    ensures AskedInTurn(s, Reading(w, s, pinged, count).now, k, 1)
    decreases |s.rest|
  {
    var a, r := Await(s), Reading(w, s, pinged, count);
    k := 0;
    if s.closed {
      AskedNothing(s, r.now, 1);
    } else if a.outcome.Silence? && !pinged {
      var p := Ping(a.now);
      PingAsks(a.now);
      if p.outcome.Reply? {
        k := ReadingAsks(w, p.now, true, count);
        AskedMore(s, p.now, r.now, 1, k, 1);
        k := 1 + k;
      } else {
        AskedNothing(s, r.now, 1);
      }
    } else if a.outcome.Reply? && !Abandons(w, s) {
      var now := Hand(w, a.now.(seqNo := s.seqNo + 1), s.seqNo);
      k := ReadingAsks(w, now, false, count + 1);
    } else {
      AskedNothing(s, r.now, 1);
    }
  }

  lemma {:induction false} SendingAsks(cfg: Config, s: State, first: nat, i: nat) returns (k: nat)
    requires i <= |cfg.channels|
    ensures var r := SendFrom(cfg, s, first, i);
            && k <= |cfg.channels| - i && r.now.sent == s.sent + Consecutive(first + i, k) && r.now.reqId == s.reqId
            && (r.end.Finished? ==> k == |cfg.channels| - i)
    decreases |cfg.channels| - i
  {
    var a := Send(s, first + i);
    k := 0;
    assert s.sent + Consecutive(first + i, 0) == s.sent;
    if i < |cfg.channels| && a.outcome.Reply? {
      k := SendingAsks(cfg, a.now, first, i + 1);
      ConsecutiveCons(s.sent, first + i, k);
      k := k + 1;
    }
  }

  predicate SentInOrder(s: State) {
    Increasing(s.sent) && forall i :: 0 <= i < |s.sent| ==> s.sent[i] <= s.reqId
  }

  predicate YieldedInOrder(s: State) {
    Increasing(s.yielded) && forall i :: 0 <= i < |s.yielded| ==> s.yielded[i] < s.seqNo
  }

  predicate InOrder(s: State) {
    SentInOrder(s) && YieldedInOrder(s)
  }

  lemma {:induction false} RequestsInOrder(cfg: Config, s: State, first: nat, i: nat)
    requires i <= |cfg.channels| && first + |cfg.channels| <= s.reqId + 1
    requires Increasing(s.sent) && forall k :: 0 <= k < |s.sent| ==> s.sent[k] < first + i
    ensures var r := SendFrom(cfg, s, first, i);
            && SentInOrder(r.now)
            && r.now.reqId == s.reqId && r.now.seqNo == s.seqNo && r.now.yielded == s.yielded
            && !r.end.Rejected? && !r.end.GaveUp?
    ensures var r := SendFrom(cfg, s, first, i);
            r.end.Finished? ==> r.now.sent == s.sent + Consecutive(first + i, |cfg.channels| - i)
    decreases |cfg.channels| - i
  {
    var a := Send(s, first + i);
    if i < |cfg.channels| && a.outcome.Reply? {
      IncreasingGrows(s.sent, first + i);
      RequestsInOrder(cfg, a.now, first, i + 1);
      ConsecutiveCons(s.sent, first + i, |cfg.channels| - i - 1);
    } else {
      assert s.sent + Consecutive(first + i, 0) == s.sent;
    }
  }

  lemma ReadOnceInOrder(w: World, s: State, pinged: bool, count: nat)
    requires InOrder(s)
    ensures InOrder(ReadOnce(w, s, pinged, count).now)
  {
    IncreasingGrows(s.sent, s.reqId + 1);
    IncreasingGrows(s.yielded, s.seqNo);
  }

  lemma {:induction false} ReadingInOrder(w: World, s: State, pinged: bool, count: nat)
    requires InOrder(s)
    ensures InOrder(Reading(w, s, pinged, count).now)
    decreases |s.rest|
  {
    if !s.closed {
      var t := ReadOnce(w, s, pinged, count);
      ReadOnceInOrder(w, s, pinged, count);
      if t.end.None? {
        ReadingInOrder(w, t.now, t.pinged, t.count);
      }
    }
  }

  /** What a handshake collected is handed over in order: all of it, unless the caller abandons the stream. */
  lemma {:induction false} HandAllYields(w: World, s: State, first: nat, n: nat) returns (m: nat)
    ensures var r := HandAll(w, s, Consecutive(first, n));
            && m <= n && (r.end.Finished? ==> m == n) && (r.end.Finished? || r.end.Raised?)
            && r.now.yielded == s.yielded + Consecutive(first, m)
            && r.now.sent == s.sent && r.now.reqId == s.reqId && r.now.seqNo == s.seqNo
    decreases n
  {
    var numbers := Consecutive(first, n);
    assert s.yielded + Consecutive(first, 0) == s.yielded;
    m := 0;
    if n > 0 {
      ConsecutiveCons(s.yielded, first, 0);
      m := 1;
      if !Abandons(w, s) {
        var next := Hand(w, s, first);
        assert numbers[1..] == Consecutive(first + 1, n - 1);
        m := HandAllYields(w, next, first + 1, n - 1);
        ConsecutiveCons(s.yielded, first, m);
        m := m + 1;
      }
    }
  }

  lemma {:induction false} ConsecutiveInOrder(before: seq<nat>, first: nat, n: nat)
    requires Increasing(before) && forall i :: 0 <= i < |before| ==> before[i] < first
    ensures Increasing(before + Consecutive(first, n))
    ensures forall i :: 0 <= i < |before + Consecutive(first, n)| ==> (before + Consecutive(first, n))[i] < first + n
  {
  }

  // ---- the handshake ----

  /** The frames a handshake received while it waited. */
  function FramesOf(cfg: Config, s: State, first: nat): seq<Parsed> {
    var asked, r := SendFrom(cfg, s, first, 0), Handshake(cfg, s, first);
    if asked.end.Finished? then Frames(Between(asked.now, r.now)) else []
  }

  /** The id whose channel the snapshot settles is that of the first request for the book; without
      one it is no request's. */
  lemma {:induction false} BookAtIs(channels: seq<Channel>)
    ensures BookAt(channels) <= |channels|
    ensures BookAt(channels) < |channels| <==> BookChannel in channels
    ensures BookAt(channels) < |channels| ==> channels[BookAt(channels)] == BookChannel
    ensures forall i :: 0 <= i < BookAt(channels) ==> channels[i] != BookChannel
  {
    if channels != [] && channels[0] != BookChannel {
      BookAtIs(channels[1..]);
      assert channels == [channels[0]] + channels[1..];
    }
  }

  lemma BookIdIs(cfg: Config, first: nat)
    ensures BookId(cfg, first) in RequestIds(cfg, first) <==> BookChannel in cfg.channels
    ensures BookChannel in cfg.channels ==>
              var i := BookId(cfg, first) - first;
              0 <= i < |cfg.channels| && cfg.channels[i] == BookChannel && forall k :: 0 <= k < i ==> cfg.channels[k] != BookChannel
  {
    BookAtIs(cfg.channels);
    var ids, at := Consecutive(first, |cfg.channels|), BookAt(cfg.channels);
    if at < |ids| {
      assert ids[at] == BookId(cfg, first);
    }
  }

  /** For some channel the first frame to decide it is a refusal. */
  predicate SomeRefused(cfg: Config, first: nat, frames: seq<Parsed>) {
    exists id :: id in RequestIds(cfg, first) && RefusedFirst(frames, BookId(cfg, first), id)
  }

  /** Every channel has been decided, and none refused. */
  predicate AllTaken(cfg: Config, first: nat, frames: seq<Parsed>) {
    forall id :: id in RequestIds(cfg, first) ==>
                   !RefusedFirst(frames, BookId(cfg, first), id) && !Undecided(frames, BookId(cfg, first), id)
  }

  /** A handshake whose requests all went out succeeds exactly when the frames received
      settle every channel and refuse none, and is rejected exactly when they refuse one. */
  lemma HandshakeOutcome(cfg: Config, s: State, first: nat)
    requires SentInOrder(s) && first + |cfg.channels| == s.reqId + 1
    requires forall k :: 0 <= k < |s.sent| ==> s.sent[k] < first
    ensures var asked, r, frames := SendFrom(cfg, s, first, 0), Handshake(cfg, s, first), FramesOf(cfg, s, first);
            && (r.end.Rejected? <==> asked.end.Finished? && SomeRefused(cfg, first, frames))
            && (r.end.Finished? <==> asked.end.Finished? && AllTaken(cfg, first, frames))
            && !r.end.GaveUp?
  {
    RequestsInOrder(cfg, s, first, 0);
    var asked, ids, bookId := SendFrom(cfg, s, first, 0), RequestIds(cfg, first), BookId(cfg, first);
    if asked.end.Finished? {
      SettlingCollects(asked.now, bookId, Waiting(ids), []);
      AllSettled(ids, bookId, FramesOf(cfg, s, first));
    }
  }

  /** Every frame a handshake receives is stamped and collected, in order, and nothing is
      yielded; when it succeeds it has sent one request per channel, with consecutive ids. */
  lemma HandshakeCollects(cfg: Config, s: State, first: nat)
    requires SentInOrder(s) && first + |cfg.channels| == s.reqId + 1
    requires forall k :: 0 <= k < |s.sent| ==> s.sent[k] < first
    ensures var r, frames := Handshake(cfg, s, first), FramesOf(cfg, s, first);
            && r.numbers == Consecutive(s.seqNo, |frames|) && r.now.seqNo == s.seqNo + |frames|
            && r.now.yielded == s.yielded && r.now.reqId == s.reqId && SentInOrder(r.now)
            && (r.end.Finished? ==> r.now.sent == s.sent + Consecutive(first, |cfg.channels|))
  {
    RequestsInOrder(cfg, s, first, 0);
    var asked, ids, bookId := SendFrom(cfg, s, first, 0), RequestIds(cfg, first), BookId(cfg, first);
    if asked.end.Finished? {
      SettlingCollects(asked.now, bookId, Waiting(ids), []);
      assert [] + Consecutive(s.seqNo, |FramesOf(cfg, s, first)|) == Consecutive(s.seqNo, |FramesOf(cfg, s, first)|);
    }
  }

  /** A frame received, and nothing else happening. */
  function Got(p: Parsed): Event {
    Event(Reply(p), false)
  }

  /** What one frame does to a handshake that waits. */
  lemma SettlingStep(s: State, bookId: nat, standing: Standing, numbers: seq<nat>, p: Parsed, rest: seq<Event>)
    requires standing.Waiting? && standing.pending != {} && s.rest == [Got(p)] + rest
    requires Settle(standing, bookId, p).Waiting?
    ensures Settling(s, bookId, standing, numbers)
            == Settling(s.(rest := rest, seqNo := s.seqNo + 1), bookId, Settle(standing, bookId, p), numbers + [s.seqNo])
  {
    assert s.rest[1..] == rest;
  }

  lemma SendingStep(cfg: Config, s: State, first: nat, i: nat, p: Parsed, rest: seq<Event>)
    requires i < |cfg.channels| && s.rest == [Got(p)] + rest
    ensures SendFrom(cfg, s, first, i) == SendFrom(cfg, s.(rest := rest, sent := s.sent + [first + i]), first, i + 1)
  {
    assert s.rest[1..] == rest;
  }

  /** A handshake for book and trades whose requests go out, and which then receives the
      book's snapshot, the refusal of the book, and the acknowledgement of the trades: it
      receives the refusal, as its second frame, and succeeds. */
  lemma LateRefusalAccepted(cfg: Config, s: State, first: nat)
    requires cfg.channels == [BookChannel, TradeChannel]
    requires s.rest == [Got(OtherMessage), Got(OtherMessage), Got(SnapshotMessage), Got(Ack(Some(first), false)), Got(Ack(Some(first + 1), true))]
    ensures var r := Handshake(cfg, s, first);
            r.end.Finished? && r.now.rest == [] && r.numbers == [s.seqNo, s.seqNo + 1, s.seqNo + 2]
  {
    var refused, taken := Ack(Some(first), false), Ack(Some(first + 1), true);
    var replies := [Got(SnapshotMessage), Got(refused), Got(taken)];
    assert s.rest == [Got(OtherMessage)] + ([Got(OtherMessage)] + replies);
    SendingStep(cfg, s, first, 0, OtherMessage, [Got(OtherMessage)] + replies);
    var s1 := s.(rest := [Got(OtherMessage)] + replies, sent := s.sent + [first + 0]);
    SendingStep(cfg, s1, first, 1, OtherMessage, replies);
    LateRefusalReceived(s1.(rest := replies, sent := s1.sent + [first + 1]), first);
    var ids := Consecutive(first, 2);
    assert first == ids[0] && first + 1 == ids[1] && RequestIds(cfg, first) == {first, first + 1};
    assert BookId(cfg, first) == first;
  }

  lemma LateRefusalReceived(s: State, bookId: nat)
    requires s.rest == [Got(SnapshotMessage), Got(Ack(Some(bookId), false)), Got(Ack(Some(bookId + 1), true))]
    ensures var r := Settling(s, bookId, Waiting({bookId, bookId + 1}), []);
            r.end.Finished? && r.now.rest == [] && r.numbers == [s.seqNo, s.seqNo + 1, s.seqNo + 2]
  {
    var refused, taken := Ack(Some(bookId), false), Ack(Some(bookId + 1), true);
    var both, one, n := Waiting({bookId, bookId + 1}), Waiting({bookId + 1}), s.seqNo;
    assert Settle(both, bookId, SnapshotMessage) == one && Settle(one, bookId, refused) == one;
    assert Settle(one, bookId, taken) == Waiting({});
    assert s.rest == [Got(SnapshotMessage)] + [Got(refused), Got(taken)];
    assert [Got(refused), Got(taken)] == [Got(refused)] + [Got(taken)] && [Got(taken)] == [Got(taken)] + [];
    SettlingStep(s, bookId, both, [], SnapshotMessage, [Got(refused), Got(taken)]);
    var s1 := s.(rest := [Got(refused), Got(taken)], seqNo := n + 1);
    SettlingStep(s1, bookId, one, [] + [n], refused, [Got(taken)]);
    var s2 := s1.(rest := [Got(taken)], seqNo := n + 2);
    SettlingStep(s2, bookId, one, [] + [n] + [n + 1], taken, []);
  }

  lemma AllSettled(ids: set<nat>, bookId: nat, frames: seq<Parsed>)
    ensures SettleAll(Waiting(ids), bookId, frames).Refused? <==> exists id :: id in ids && RefusedFirst(frames, bookId, id)
    ensures SettleAll(Waiting(ids), bookId, frames) == Waiting({}) <==>
            forall id :: id in ids ==> !RefusedFirst(frames, bookId, id) && !Undecided(frames, bookId, id)
  {
    StandingIs(ids, bookId, frames);
    var st := SettleAll(Waiting(ids), bookId, frames);
    if st.Waiting? && st.pending != {} {
      var id := Pick(st.pending);
      assert id in ids && Undecided(frames, bookId, id);
    }
  }

  // ---- a session ----

  /** What a session that started at `s` yielded: `m` consecutive numbers, which are all it
      stamped if it came to reading and none if its handshake failed. Its count of frames
      read is the frames its read loop received. */
  predicate Accounted(s: State, r: Session, m: nat) {
    && |r.now.rest| <= |s.rest|
    && s.seqNo + m <= r.now.seqNo
    && r.now.yielded == s.yielded + Consecutive(s.seqNo, m)
    && (r.start.None? ==> r.read == 0 && (r.end.Transient? || r.end.Rejected? ==> m == 0))
    && (r.start.Some? ==>
          && |r.now.rest| <= |r.start.value.rest|
          && r.now.seqNo == s.seqNo + m
          && r.read == |FramesRead(Between(r.start.value, r.now))|)
  }

  lemma SessionReads(w: World, s: State, t: State, n: nat) returns (m: nat)
    requires |t.rest| <= |s.rest| && t.seqNo == s.seqNo + n && t.yielded == s.yielded + Consecutive(s.seqNo, n)
    ensures Accounted(s, ReadSession(w, t), m)
  {
    var r := ReadSession(w, t);
    ReadingYields(w, t, false, 0);
    m := n + r.read;
    ConsecutiveJoin(s.yielded, s.seqNo, n, r.read);
  }

  /** Where the handshake of a session starts, once the connection is there. */
  function Connected(w: World, s: State): State {
    Await(s).now.(reqId := s.reqId + |w.cfg.channels|)
  }

  /** One session keeps ids and numbers in order and accounts for what it stamped. */
  lemma SessionYields(w: World, s: State) returns (m: nat)
    requires InOrder(s)
    ensures Accounted(s, SessionFrom(w, s), m) && InOrder(SessionFrom(w, s).now)
  {
    m := 0;
    assert s.yielded + Consecutive(s.seqNo, 0) == s.yielded;
    if Await(s).outcome.Reply? {
      var t, first := Connected(w, s), s.reqId + 1;
      HandshakeCollects(w.cfg, t, first);
      var shaken := Handshake(w.cfg, t, first);
      if shaken.end.Finished? {
        var n := |FramesOf(w.cfg, t, first)|;
        m := HandAllYields(w, shaken.now, s.seqNo, n);
        ConsecutiveInOrder(s.yielded, s.seqNo, m);
        var handed := HandAll(w, shaken.now, shaken.numbers);
        if !handed.end.Raised? {
          ReadingInOrder(w, handed.now, false, 0);
          m := SessionReads(w, s, handed.now, n);
        }
      }
    }
  }

  /** The connection came up, the requests went out, and the frames that came then refuse a channel. */
  predicate Refuses(w: World, s: State) {
    && Await(s).outcome.Reply?
    && SendFrom(w.cfg, Connected(w, s), s.reqId + 1, 0).end.Finished?
    && SomeRefused(w.cfg, s.reqId + 1, FramesOf(w.cfg, Connected(w, s), s.reqId + 1))
  }

  lemma SessionRejected(w: World, s: State)
    requires InOrder(s)
    ensures SessionFrom(w, s).end.Rejected? <==> Refuses(w, s)
    ensures !SessionFrom(w, s).end.GaveUp?
    ensures SessionFrom(w, s).end.Finished? ==> SessionFrom(w, s).now.closed
  {
    if Await(s).outcome.Reply? {
      var t, first := Connected(w, s), s.reqId + 1;
      HandshakeOutcome(w.cfg, t, first);
      HandshakeCollects(w.cfg, t, first);
      var shaken := Handshake(w.cfg, t, first);
      if shaken.end.Finished? {
        var n := |FramesOf(w.cfg, t, first)|;
        var m := HandAllYields(w, shaken.now, s.seqNo, n);
        var handed := HandAll(w, shaken.now, shaken.numbers);
        if !handed.end.Raised? {
          ReadingEnds(w, handed.now, false, 0, []);
          FinishedIsClosed(w, handed.now, false, 0);
        }
      }
    }
  }

  /** How a session ends, by what happened in it and, once it was reading, by what happened in
      its reading. */
  predicate EndsSession(w: World, s: State, r: Session)
    requires |r.now.rest| <= |s.rest| && (r.start.Some? ==> |r.now.rest| <= |r.start.value.rest|)
  {
    match r.start
    case None => EndsEarly(r.end, Between(s, r.now), r.now, Abandoned(w, s, r.now))
    case Some(start) => EndsReading(r.end, Between(start, r.now), r.now, Abandoned(w, s, r.now))
  }

  /** The caller who is handed what a handshake collected leaves exactly when that ends the session. */
  lemma {:induction false} HandAllEnds(w: World, s: State, numbers: seq<nat>)
    ensures var r := HandAll(w, s, numbers);
            (r.end.Raised? <==> Abandoned(w, s, r.now)) && (r.end.Finished? || r.end.Raised?) && |r.now.yielded| >= |s.yielded|
    decreases |numbers|
  {
    if numbers != [] && !Abandons(w, s) {
      HandAllEnds(w, Hand(w, s, numbers[0]), numbers[1..]);
    }
  }

  lemma ReadSessionEnds(w: World, s: State, t: State)
    requires |t.rest| <= |s.rest| && |t.yielded| >= |s.yielded| && !Abandoned(w, s, t)
    ensures EndsSession(w, s, ReadSession(w, t))
  {
    var r := ReadSession(w, t);
    ReadingYields(w, t, false, 0);
    ReadingEnds(w, t, false, 0, []);
    assert [] + Between(t, r.now) == Between(t, r.now);
  }

  /** The stages of a session: it fails to connect, or in the handshake, or the caller leaves at
      what that collected, or it reads. */
  lemma SessionStages(w: World, s: State) returns (r: Session)
    ensures r == SessionFrom(w, s)
    ensures var a := Await(s);
            var shaken := Handshake(w.cfg, Connected(w, s), s.reqId + 1);
            var handed := HandAll(w, shaken.now, shaken.numbers);
            r == if !a.outcome.Reply? then Session(EndingOf(a.outcome), None, 0, a.now)
                 else if !shaken.end.Finished? then Session(shaken.end, None, 0, shaken.now)
                 else if handed.end.Raised? then Session(Raised, None, 0, handed.now)
                 else ReadSession(w, handed.now)
  {
    r := SessionFrom(w, s);
  }

  /** A session asks under the next ids in turn, one for each channel and then one for each ping;
      the ids of the channels it did not come to ask for are used up, as is that of a last ping
      that did not go out. */
  lemma SessionAsks(w: World, s: State) returns (k: nat)
    ensures var r := SessionFrom(w, s);
            && AskedInTurn(s, r.now, k, if r.start.Some? then 1 else |w.cfg.channels|)
            && (r.start.Some? ==> k >= |w.cfg.channels|)
  {
    var n := |w.cfg.channels|;
    var r := SessionStages(w, s);
    k := 0;
    if !Await(s).outcome.Reply? {
      AskedNothing(s, r.now, n);
    } else {
      k := HandshakeAsks(w, s);
      var shaken := Handshake(w.cfg, Connected(w, s), s.reqId + 1);
      HandAllKeeps(w, shaken.now, shaken.numbers);
      if r.start.Some? {
        var pings := ReadingAsks(w, r.start.value, false, 0);
        AskedMore(s, r.start.value, r.now, n, pings, 1);
        k := n + pings;
      } else {
        AskedSome(s, r.now, k, n);
      }
    }
    SameSession(s, r, SessionFrom(w, s), k, n);
  }

  lemma AskedSome(s: State, now: State, k: nat, n: nat)
    requires now.sent == s.sent + Consecutive(s.reqId + 1, k) && now.reqId == s.reqId + n && k <= n
    ensures AskedInTurn(s, now, k, n)
  {
  }

  lemma HandshakeAsks(w: World, s: State) returns (k: nat)
    requires Await(s).outcome.Reply?
    ensures var shaken, n := Handshake(w.cfg, Connected(w, s), s.reqId + 1), |w.cfg.channels|;
            && shaken.now.sent == s.sent + Consecutive(s.reqId + 1, k) && shaken.now.reqId == s.reqId + n
            && k <= n && (shaken.end.Finished? ==> k == n)
  {
    k := SendingAsks(w.cfg, Connected(w, s), s.reqId + 1, 0);
    HandshakeKeeps(w.cfg, Connected(w, s), s.reqId + 1);
  }

  lemma SameSession(s: State, r: Session, r': Session, k: nat, n: nat)
    requires r == r' && AskedInTurn(s, r.now, k, if r.start.Some? then 1 else n) && (r.start.Some? ==> k >= n)
    ensures AskedInTurn(s, r'.now, k, if r'.start.Some? then 1 else n) && (r'.start.Some? ==> k >= n)
  {
  }

  lemma HandshakeKeeps(cfg: Config, s: State, first: nat)
    ensures var asked, r := SendFrom(cfg, s, first, 0), Handshake(cfg, s, first);
            && r.now.sent == asked.now.sent && r.now.reqId == asked.now.reqId
            && (r.end.Finished? ==> asked.end.Finished?)
  {
    var asked := SendFrom(cfg, s, first, 0);
    if asked.end.Finished? {
      SettlingCollects(asked.now, BookId(cfg, first), Waiting(RequestIds(cfg, first)), []);
    }
  }

  lemma {:induction false} HandAllKeeps(w: World, s: State, numbers: seq<nat>)
    ensures HandAll(w, s, numbers).now.sent == s.sent && HandAll(w, s, numbers).now.reqId == s.reqId
    decreases |numbers|
  {
    if numbers != [] && !Abandons(w, s) {
      HandAllKeeps(w, Hand(w, s, numbers[0]), numbers[1..]);
    }
  }

  lemma ConnectingEnds(w: World, s: State, r: Session)
    requires !Await(s).outcome.Reply? && r == Session(EndingOf(Await(s).outcome), None, 0, Await(s).now)
    ensures EndsSession(w, s, r)
  {
    if s.rest != [] {
      assert Between(s, r.now) == [s.rest[0]];
    }
  }

  lemma ShakingEnds(w: World, s: State, r: Session)
    requires r.start.None? && |r.now.rest| <= |s.rest| && r.now.yielded == s.yielded && !r.end.Finished?
    requires ThroughOrEarly(r.end, Between(s, r.now), r.now)
    ensures EndsSession(w, s, r)
  {
  }

  lemma LeavingEnds(w: World, s: State, t: State, numbers: seq<nat>, r: Session)
    requires |t.rest| <= |s.rest| && t.yielded == s.yielded && CameBack(Between(s, t))
    requires HandAll(w, t, numbers).end.Raised? && r == Session(Raised, None, 0, HandAll(w, t, numbers).now)
    ensures EndsSession(w, s, r)
  {
    HandAllEnds(w, t, numbers);
    assert Between(s, r.now) == Between(s, t);
  }

  /** The handshake of a session, seen from where the session starts. */
  lemma ShakenEnds(w: World, s: State)
    requires InOrder(s) && Await(s).outcome.Reply?
    ensures var shaken := Handshake(w.cfg, Connected(w, s), s.reqId + 1);
            && |shaken.now.rest| <= |s.rest| && shaken.now.yielded == s.yielded
            && ThroughOrEarly(shaken.end, Between(s, shaken.now), shaken.now)
  {
    var t, first := Connected(w, s), s.reqId + 1;
    HandshakeCollects(w.cfg, t, first);
    HandshakeEnds(w.cfg, t, first, s.rest[..1]);
    assert s.rest[..1] + Between(t, Handshake(w.cfg, t, first).now) == Between(s, Handshake(w.cfg, t, first).now);
  }

  lemma SameEnding(w: World, s: State, r: Session, r': Session)
    requires r == r' && |r.now.rest| <= |s.rest| && (r.start.Some? ==> |r.now.rest| <= |r.start.value.rest|)
    requires EndsSession(w, s, r)
    ensures |r'.now.rest| <= |s.rest| && (r'.start.Some? ==> |r'.now.rest| <= |r'.start.value.rest|)
    ensures EndsSession(w, s, r')
  {
  }

  /** Every session ends as what happened in it says, in all its stages. */
  lemma SessionEnds(w: World, s: State)
    requires InOrder(s)
    ensures var r := SessionFrom(w, s);
            && |r.now.rest| <= |s.rest| && (r.start.Some? ==> |r.now.rest| <= |r.start.value.rest|)
            && EndsSession(w, s, r)
  {
    var r := SessionStages(w, s);
    if !Await(s).outcome.Reply? {
      ConnectingEnds(w, s, r);
    } else {
      ShakenEnds(w, s);
      var shaken := Handshake(w.cfg, Connected(w, s), s.reqId + 1);
      if !shaken.end.Finished? {
        ShakingEnds(w, s, r);
      } else if HandAll(w, shaken.now, shaken.numbers).end.Raised? {
        LeavingEnds(w, s, shaken.now, shaken.numbers, r);
      } else {
        HandAllEnds(w, shaken.now, shaken.numbers);
        ReadSessionEnds(w, s, HandAll(w, shaken.now, shaken.numbers).now);
      }
    }
    SameEnding(w, s, r, SessionFrom(w, s));
  }

  lemma {:induction false} FinishedIsClosed(w: World, s: State, pinged: bool, count: nat)
    ensures Reading(w, s, pinged, count).end.Finished? ==> Reading(w, s, pinged, count).now.closed
    decreases |s.rest|
  {
    if !s.closed {
      var t := ReadOnce(w, s, pinged, count);
      if t.end.None? {
        FinishedIsClosed(w, t.now, t.pinged, t.count);
      }
    }
  }

  // ---- retries ----

  /** The sessions since the last one that read a frame, that one included: the number of
      the retry due after the last of `laps`. */
  function Due(laps: seq<Lap>): nat {
    if laps == [] then 0
    else if laps[|laps| - 1].session.read > 0 then 1
    else 1 + Due(laps[..|laps| - 1])
  }

  /** The last session calls for a retry: it failed transiently, the client is still wanted,
      and the budget allows one more. */
  predicate EarnsRetry(cfg: Config, laps: seq<Lap>)
    requires laps != []
  {
    var session := laps[|laps| - 1].session;
    !session.end.Rejected? && !session.end.Raised? && !session.now.closed && !Spent(cfg, Due(laps))
  }

  /** A retry follows exactly when it is earned; it is numbered from the last session that
      read a frame, and waits what the ladder makes of the next draw for that number. */
  ghost predicate Fair(w: World, laps: seq<Lap>, i: nat)
    requires i < |laps|
  {
    && (laps[i].retry.Some? <==> EarnsRetry(w.cfg, laps[..i + 1]))
    && (laps[i].retry.Some? ==>
          && laps[i].retry.value.attempt == Due(laps[..i + 1]) >= 1
          && w.cfg.ladder.Allows(laps[i].retry.value.attempt, laps[i].retry.value.delay)
          && laps[i].retry.value.delay == w.cfg.ladder.Delay(laps[i].retry.value.attempt, w.chance(i)))
  }

  ghost predicate AllFair(w: World, laps: seq<Lap>) {
    forall i :: 0 <= i < |laps| ==> Fair(w, laps, i)
  }

  /** Where the next session starts: at the beginning, or when the last wait is over. */
  function Resumed(script: seq<Event>, laps: seq<Lap>): State {
    if laps == [] then Opening(script) else Await(laps[|laps| - 1].session.now).now
  }

  /** The loop did not end with the last session, nor with the wait after it. */
  predicate WentOn(cfg: Config, laps: seq<Lap>) {
    laps != [] ==> EarnsRetry(cfg, laps) && Await(laps[|laps| - 1].session.now).outcome.Reply?
  }

  /** The sessions of one life: each is what happens from where the one before it left off. */
  ghost predicate Chained(w: World, script: seq<Event>, laps: seq<Lap>) {
    forall i :: 0 <= i < |laps| ==> LinkedAt(w, script, laps, i)
  }

  ghost predicate LinkedAt(w: World, script: seq<Event>, laps: seq<Lap>, i: nat)
    requires i < |laps|
  {
    WentOn(w.cfg, laps[..i]) && laps[i].from == Resumed(script, laps[..i]) && laps[i].session == SessionFrom(w, laps[i].from)
  }

  lemma LapAdded(w: World, script: seq<Event>, laps: seq<Lap>, lap: Lap)
    requires Chained(w, script, laps) && AllFair(w, laps)
    requires WentOn(w.cfg, laps) && lap.from == Resumed(script, laps) && lap.session == SessionFrom(w, lap.from)
    requires Fair(w, laps + [lap], |laps|)
    ensures Chained(w, script, laps + [lap]) && AllFair(w, laps + [lap])
  {
    var more := laps + [lap];
    forall i | 0 <= i < |more|
      ensures LinkedAt(w, script, more, i) && Fair(w, more, i)
    {
      if i < |laps| {
        assert more[..i] == laps[..i] && more[..i + 1] == laps[..i + 1] && more[i] == laps[i];
        assert LinkedAt(w, script, laps, i) && Fair(w, laps, i);
      } else {
        assert more[..i] == laps;
      }
    }
  }

  // ---- whole lives ----

  /** How a life ends, read off its sessions: by what the last one says, else by being
      closed, else by the budget, else by the wait after it. */
  predicate EndsAs(cfg: Config, r: Run) {
    r.laps != [] &&
    var session := r.laps[|r.laps| - 1].session;
    && (r.end.Rejected? <==> session.end.Rejected?)
    && (r.end.GaveUp? <==>
        !session.end.Rejected? && !session.end.Raised? && !session.now.closed && Spent(cfg, Due(r.laps)))
    && (r.end.Raised? <==>
        session.end.Raised? || (EarnsRetry(cfg, r.laps) && !Await(session.now).outcome.Reply?))
    && (r.end.Finished? ==> r.now.closed)
    && !r.end.Transient?
  }

  /** The counters agree with the sessions so far, which are chained, fairly retried, and
      left the client where it is now. */
  ghost predicate Underway(w: World, script: seq<Event>, s: State, c: Counters, laps: seq<Lap>) {
    && InOrder(s)
    && CountersAgree(w, c, laps)
    && s == Resumed(script, laps) && WentOn(w.cfg, laps)
    && Chained(w, script, laps) && AllFair(w, laps)
  }

  /** The counters: the attempts due so far, one more for the next delay, and one draw for each
      session, all of them retried, when there is jitter. */
  predicate CountersAgree(w: World, c: Counters, laps: seq<Lap>) {
    && c.attempt == Due(laps) && c.rung == c.attempt + 1
    && (w.cfg.ladder.jitter ==> c.drawn == |laps|)
  }

  lemma DueNow(laps: seq<Lap>, c: Counters, lap: Lap)
    requires c.attempt == Due(laps) && c.rung == c.attempt + 1
    ensures var k := Counted(c, lap.session);
            k.attempt == Due(laps + [lap]) && k.rung == k.attempt >= 1
  {
    assert (laps + [lap])[..|laps|] == laps;
  }

  /** Whatever retry a turn ends in is fair. */
  lemma TurnIsFair(w: World, s: State, c: Counters, laps: seq<Lap>)
    requires w.Sensible() && CountersAgree(w, c, laps)
    ensures var t := Turn(w, s, c);
            && Fair(w, laps + [t.lap], |laps|)
            && t.lap.from == s && t.lap.session == SessionFrom(w, s)
            && (t.end.None? ==> CountersAgree(w, t.counters, laps + [t.lap]))
  {
    var t, k := Turn(w, s, c), Counted(c, SessionFrom(w, s));
    DueNow(laps, c, t.lap);
    assert (laps + [t.lap])[..|laps| + 1] == laps + [t.lap];
    DelayAllowed(w.cfg.ladder, k.rung, w.chance(k.drawn));
  }

  lemma TurnLeaves(w: World, s: State, c: Counters, laps: seq<Lap>)
    requires InOrder(s) && c.attempt == Due(laps) && c.rung == c.attempt + 1
    ensures var t := Turn(w, s, c);
            && InOrder(t.now)
            && (t.end.None? ==> WentOn(w.cfg, laps + [t.lap]) && t.now == Await(SessionFrom(w, s).now).now)
            && (t.end.Some? ==> EndsAs(w.cfg, Run(t.end.value, t.now, laps + [t.lap])))
  {
    var m := SessionYields(w, s);
    SessionRejected(w, s);
    DueNow(laps, c, Turn(w, s, c).lap);
  }

  lemma ClosedWhileWaiting(w: World, s: State, laps: seq<Lap>, script: seq<Event>)
    requires laps != [] && WentOn(w.cfg, laps) && s == Resumed(script, laps) && s.closed
    ensures EndsAs(w.cfg, Run(Finished, s, laps))
  {
  }

  lemma {:induction false} StreamingFairly(w: World, script: seq<Event>, s: State, c: Counters, laps: seq<Lap>)
    requires w.Sensible() && Underway(w, script, s, c, laps) && (s.closed ==> laps != [])
    ensures var r := Streaming(w, s, c, laps);
            InOrder(r.now) && Chained(w, script, r.laps) && AllFair(w, r.laps) && EndsAs(w.cfg, r)
    decreases |s.rest|
  {
    if s.closed {
      ClosedWhileWaiting(w, s, laps, script);
    } else {
      var t := Turn(w, s, c);
      TurnIsFair(w, s, c, laps);
      TurnLeaves(w, s, c, laps);
      LapAdded(w, script, laps, t.lap);
      if t.end.None? {
        StreamingFairly(w, script, t.now, t.counters, laps + [t.lap]);
      }
    }
  }

  /** Over every life: request ids and yielded numbers strictly increase; each session starts
      where the one before it left off; a retry follows exactly when one is earned, is
      numbered from the last session that read a frame, and waits as the ladder allows; and
      the life ends as its last session says. */
  lemma LifeIsFair(w: World, script: seq<Event>)
    requires w.Sensible()
    ensures var r := Streamed(w, script);
            InOrder(r.now) && Chained(w, script, r.laps) && AllFair(w, r.laps) && EndsAs(w.cfg, r)
  {
    StreamingFairly(w, script, Opening(script), Counters(0, 1, 0), []);
  }

  lemma {:induction false} LapInOrder(w: World, script: seq<Event>, laps: seq<Lap>, i: nat)
    requires i < |laps| && Chained(w, script, laps)
    ensures InOrder(laps[i].from)
  {
    assert LinkedAt(w, script, laps, i);
    if i > 0 {
      LapInOrder(w, script, laps, i - 1);
      assert LinkedAt(w, script, laps, i - 1);
      var m := SessionYields(w, laps[i - 1].from);
      assert laps[..i][i - 1] == laps[i - 1];
    }
  }

  // ---- closing ----

  /** What has happened of a script by the time a state is reached. */
  function Happened(script: seq<Event>, s: State): nat
    requires |s.rest| <= |script|
  {
    |script| - |s.rest|
  }

  predicate Asked(script: seq<Event>, n: nat)
    requires n <= |script|
  {
    exists i :: 0 <= i < n && script[i].closes
  }

  predicate ClosedByCaller(w: World, n: nat) {
    exists k :: 0 <= k < n && w.caller(k) == Close
  }

  /** The client is closed exactly when it was asked to be while something was awaited, or by the
      caller at some message. */
  predicate ClosedWhenAsked(w: World, script: seq<Event>, s: State) {
    && |s.rest| <= |script| && s.rest == script[Happened(script, s)..]
    && (s.closed <==> Asked(script, Happened(script, s)) || ClosedByCaller(w, |s.yielded|))
  }

  lemma AwaitCloses(w: World, script: seq<Event>, s: State)
    requires ClosedWhenAsked(w, script, s)
    ensures ClosedWhenAsked(w, script, Await(s).now)
  {
    if s.rest != [] {
      assert script[Happened(script, s)] == s.rest[0];
      assert script[Happened(script, s) + 1..] == s.rest[1..];
    }
  }

  lemma HandCloses(w: World, script: seq<Event>, s: State, number: nat)
    requires ClosedWhenAsked(w, script, s)
    ensures ClosedWhenAsked(w, script, Hand(w, s, number))
  {
    assert ClosedByCaller(w, |s.yielded| + 1) <==> ClosedByCaller(w, |s.yielded|) || w.caller(|s.yielded|) == Close;
  }

  lemma {:induction false} SendingCloses(w: World, script: seq<Event>, s: State, first: nat, i: nat)
    requires i <= |w.cfg.channels| && ClosedWhenAsked(w, script, s)
    ensures ClosedWhenAsked(w, script, SendFrom(w.cfg, s, first, i).now)
    decreases |w.cfg.channels| - i
  {
    AwaitCloses(w, script, s);
    var a := Send(s, first + i);
    if i < |w.cfg.channels| && a.outcome.Reply? {
      SendingCloses(w, script, a.now, first, i + 1);
    }
  }

  lemma {:induction false} SettlingCloses(w: World, script: seq<Event>, s: State, bookId: nat, standing: Standing, numbers: seq<nat>)
    requires standing.Waiting? && ClosedWhenAsked(w, script, s)
    ensures ClosedWhenAsked(w, script, Settling(s, bookId, standing, numbers).now)
    decreases |s.rest|
  {
    AwaitCloses(w, script, s);
    var a := Await(s);
    if standing.pending != {} && a.outcome.Reply? {
      var next := Settle(standing, bookId, a.outcome.frame);
      if next.Waiting? {
        SettlingCloses(w, script, a.now.(seqNo := s.seqNo + 1), bookId, next, numbers + [s.seqNo]);
      }
    }
  }

  lemma HandshakeCloses(w: World, script: seq<Event>, s: State, first: nat)
    requires ClosedWhenAsked(w, script, s)
    ensures ClosedWhenAsked(w, script, Handshake(w.cfg, s, first).now)
  {
    SendingCloses(w, script, s, first, 0);
    var asked := SendFrom(w.cfg, s, first, 0);
    if asked.end.Finished? {
      SettlingCloses(w, script, asked.now, BookId(w.cfg, first), Waiting(RequestIds(w.cfg, first)), []);
    }
  }

  lemma {:induction false} HandAllCloses(w: World, script: seq<Event>, s: State, numbers: seq<nat>)
    requires ClosedWhenAsked(w, script, s)
    ensures ClosedWhenAsked(w, script, HandAll(w, s, numbers).now)
    decreases |numbers|
  {
    if numbers != [] {
      HandCloses(w, script, s, numbers[0]);
      if !Abandons(w, s) {
        HandAllCloses(w, script, Hand(w, s, numbers[0]), numbers[1..]);
      }
    }
  }

  lemma PingCloses(w: World, script: seq<Event>, s: State)
    requires ClosedWhenAsked(w, script, s)
    ensures ClosedWhenAsked(w, script, Ping(s).now)
  {
    AwaitCloses(w, script, s.(reqId := s.reqId + 1));
  }

  lemma FrameCloses(w: World, script: seq<Event>, s: State)
    requires ClosedWhenAsked(w, script, s)
    ensures ClosedWhenAsked(w, script, Hand(w, s.(seqNo := s.seqNo + 1), s.seqNo))
  {
    HandCloses(w, script, s.(seqNo := s.seqNo + 1), s.seqNo);
  }

  lemma ReadOnceCloses(w: World, script: seq<Event>, s: State, pinged: bool, count: nat)
    requires ClosedWhenAsked(w, script, s)
    ensures ClosedWhenAsked(w, script, ReadOnce(w, s, pinged, count).now)
  {
    var a, now := Await(s), ReadOnce(w, s, pinged, count).now;
    AwaitCloses(w, script, s);
    PingCloses(w, script, a.now);
    FrameCloses(w, script, a.now);
    if a.outcome.Silence? && !pinged {
      SameState(w, script, Ping(a.now).now, now);
    } else if a.outcome.Reply? {
      SameState(w, script, Hand(w, a.now.(seqNo := s.seqNo + 1), s.seqNo), now);
    } else {
      SameState(w, script, a.now, now);
    }
  }

  lemma {:induction false} ReadingCloses(w: World, script: seq<Event>, s: State, pinged: bool, count: nat)
    requires ClosedWhenAsked(w, script, s)
    ensures ClosedWhenAsked(w, script, Reading(w, s, pinged, count).now)
    decreases |s.rest|
  {
    if !s.closed {
      var t := ReadOnce(w, s, pinged, count);
      ReadOnceCloses(w, script, s, pinged, count);
      if t.end.None? {
        ReadingCloses(w, script, t.now, t.pinged, t.count);
      }
    }
  }

  lemma SessionCloses(w: World, script: seq<Event>, s: State)
    requires ClosedWhenAsked(w, script, s)
    ensures ClosedWhenAsked(w, script, SessionFrom(w, s).now)
  {
    AwaitCloses(w, script, s);
    var r := SessionStages(w, s);
    if Await(s).outcome.Reply? {
      var t, first := Connected(w, s), s.reqId + 1;
      HandshakeCloses(w, script, t, first);
      var shaken := Handshake(w.cfg, t, first);
      HandAllCloses(w, script, shaken.now, shaken.numbers);
      ReadingCloses(w, script, HandAll(w, shaken.now, shaken.numbers).now, false, 0);
    }
    SameState(w, script, r.now, SessionFrom(w, s).now);
  }

  lemma SameState(w: World, script: seq<Event>, s: State, t: State)
    requires ClosedWhenAsked(w, script, s) && s == t
    ensures ClosedWhenAsked(w, script, t)
  {
  }

  lemma {:induction false} StreamingCloses(w: World, script: seq<Event>, s: State, c: Counters, laps: seq<Lap>)
    requires c.rung >= 1 && ClosedWhenAsked(w, script, s)
    ensures ClosedWhenAsked(w, script, Streaming(w, s, c, laps).now)
    decreases |s.rest|
  {
    if !s.closed {
      var t := Turn(w, s, c);
      SessionCloses(w, script, s);
      AwaitCloses(w, script, SessionFrom(w, s).now);
      if t.end.None? {
        StreamingCloses(w, script, t.now, t.counters, laps + [t.lap]);
      }
    }
  }

  /** Over every life: the client ends closed exactly when it was asked to be. */
  lemma LifeCloses(w: World, script: seq<Event>)
    ensures ClosedWhenAsked(w, script, Streamed(w, script).now)
  {
    ClosedFromOpening(w, script, Counters(0, 1, 0), Streamed(w, script));
  }

  lemma ClosedFromOpening(w: World, script: seq<Event>, c: Counters, r: Run)
    requires c.rung >= 1 && r == Streaming(w, Opening(script), c, [])
    ensures ClosedWhenAsked(w, script, r.now)
  {
    NothingAsked(w, script);
    StreamingCloses(w, script, Opening(script), c, []);
  }

  lemma NothingAsked(w: World, script: seq<Event>)
    ensures ClosedWhenAsked(w, script, Opening(script))
  {
    assert script[0..] == script;
  }

  /** A closed client reads nothing, and the caller is handed nothing more by a reading once it has
      closed the client or left. */
  lemma {:induction false} ReadingStops(w: World, s: State, pinged: bool, count: nat)
    ensures s.closed ==> Reading(w, s, pinged, count).now == s
    ensures forall k :: |s.yielded| <= k < |Reading(w, s, pinged, count).now.yielded| - 1 ==> w.caller(k) == Resume
    decreases |s.rest|
  {
    if !s.closed {
      var t := ReadOnce(w, s, pinged, count);
      if t.end.None? {
        ReadingStops(w, t.now, t.pinged, t.count);
      }
    }
  }

  /** A life ends rejected exactly when the frames of its last handshake refuse a channel. */
  lemma RejectedWhen(w: World, script: seq<Event>)
    requires w.Sensible()
    ensures var r := Streamed(w, script);
            r.laps != [] && (r.end.Rejected? <==> Refuses(w, r.laps[|r.laps| - 1].from))
  {
    LifeIsFair(w, script);
    var laps := Streamed(w, script).laps;
    LapInOrder(w, script, laps, |laps| - 1);
    assert LinkedAt(w, script, laps, |laps| - 1);
    SessionRejected(w, laps[|laps| - 1].from);
  }

  /** The count that a ladder is reset by is the frames the session's read loop received. */
  lemma LapReads(w: World, script: seq<Event>, laps: seq<Lap>, i: nat) returns (m: nat)
    requires i < |laps| && Chained(w, script, laps)
    ensures Accounted(laps[i].from, laps[i].session, m)
  {
    LapInOrder(w, script, laps, i);
    assert LinkedAt(w, script, laps, i);
    m := SessionYields(w, laps[i].from);
  }

  /** The connection of a session was lost: while connecting, asking or waiting for the answers
      something broke or timed out, or the reading broke or fell silent. */
  predicate Lost(lap: Lap)
    requires |lap.session.now.rest| <= |lap.from.rest|
    requires lap.session.start.Some? ==> |lap.session.now.rest| <= |lap.session.start.value.rest|
  {
    match lap.session.start
    case None => Broke(Between(lap.from, lap.session.now)) || TimedOut(Between(lap.from, lap.session.now))
    case Some(start) => Broke(Between(start, lap.session.now)) || FellSilent(Between(start, lap.session.now))
  }

  lemma LapEnds(w: World, script: seq<Event>, laps: seq<Lap>, i: nat)
    requires i < |laps| && Chained(w, script, laps)
    ensures |laps[i].session.now.rest| <= |laps[i].from.rest|
    ensures laps[i].session.start.Some? ==> |laps[i].session.now.rest| <= |laps[i].session.start.value.rest|
    ensures EndsSession(w, laps[i].from, laps[i].session)
    ensures laps[i].session.end.Transient? <==> Lost(laps[i])
    ensures laps[i].session.end.Finished? ==> laps[i].session.now.closed
    ensures !laps[i].session.end.GaveUp?
  {
    LapInOrder(w, script, laps, i);
    assert LinkedAt(w, script, laps, i);
    var m := SessionYields(w, laps[i].from);
    SessionEnds(w, laps[i].from);
    SessionRejected(w, laps[i].from);
  }

  /** Over every life: a session is followed by a retry exactly when its connection was lost, the
      client is still wanted, and the sessions since the last that read a frame are within the
      budget; and after a retry there is another session, unless the wait is cut short or the
      client is closed meanwhile. */
  lemma RetriedWhen(w: World, script: seq<Event>, i: nat)
    requires w.Sensible() && i < |Streamed(w, script).laps|
    ensures var r := Streamed(w, script);
            var lap := r.laps[i];
            && |lap.session.now.rest| <= |lap.from.rest|
            && (lap.session.start.Some? ==> |lap.session.now.rest| <= |lap.session.start.value.rest|)
            && (lap.retry.Some? <==>
                  && Lost(lap) && !lap.session.now.closed
                  && (w.cfg.maxReconnects.Some? ==> Due(r.laps[..i + 1]) <= w.cfg.maxReconnects.value))
            && (lap.retry.Some? ==>
                  i + 1 < |r.laps| || (r.end.Finished? && r.now.closed) || (r.end.Raised? && !Await(lap.session.now).outcome.Reply?))
  {
    LifeIsFair(w, script);
    var laps := Streamed(w, script).laps;
    LapEnds(w, script, laps, i);
    assert Fair(w, laps, i);
    if i + 1 == |laps| {
      assert laps[..i + 1] == laps;
    }
  }

  /** A life gives up exactly when the connection of its last session was lost, the client is
      still wanted, and the budget does not allow one retry more. */
  lemma GivesUpWhen(w: World, script: seq<Event>)
    requires w.Sensible()
    ensures var r := Streamed(w, script);
            r.laps != [] &&
            var lap := r.laps[|r.laps| - 1];
            && |lap.session.now.rest| <= |lap.from.rest|
            && (lap.session.start.Some? ==> |lap.session.now.rest| <= |lap.session.start.value.rest|)
            && (r.end.GaveUp? <==>
                  && Lost(lap) && !lap.session.now.closed
                  && w.cfg.maxReconnects.Some? && Due(r.laps) > w.cfg.maxReconnects.value)
  {
    LifeIsFair(w, script);
    var laps := Streamed(w, script).laps;
    LapEnds(w, script, laps, |laps| - 1);
  }

  lemma {:induction false} DueSince(laps: seq<Lap>, i: nat, k: nat)
    requires i <= k < |laps| && (i == 0 || laps[i].session.read > 0)
    requires forall j :: i < j <= k ==> laps[j].session.read == 0
    ensures Due(laps[..k + 1]) == k - i + 1
  {
    assert laps[..k + 1][..k] == laps[..k];
    if i < k {
      DueSince(laps, i, k - 1);
    } else if i == 0 {
      assert laps[..0] == [];
    }
  }

  /** From one session that read a frame to the next the retries are numbered one by one, so
      there are no more of them than the budget, and each waits within the bound for its number. */
  lemma StretchOfRetries(w: World, laps: seq<Lap>, i: nat, j: nat)
    requires AllFair(w, laps) && i < j <= |laps| && (i == 0 || laps[i].session.read > 0)
    requires forall k :: i < k < j ==> laps[k].session.read == 0
    requires forall k :: i <= k < j ==> laps[k].retry.Some?
    ensures forall k :: i <= k < j ==>
              laps[k].retry.value.attempt == k - i + 1 && w.cfg.ladder.Allows(k - i + 1, laps[k].retry.value.delay)
    ensures w.cfg.maxReconnects.Some? ==> j - i <= w.cfg.maxReconnects.value
  {
    forall k | i <= k < j
      ensures laps[k].retry.value.attempt == k - i + 1
      ensures w.cfg.ladder.Allows(k - i + 1, laps[k].retry.value.delay)
    {
      assert Fair(w, laps, k);
      DueSince(laps, i, k);
    }
    assert Fair(w, laps, j - 1);
    DueSince(laps, i, j - 1);
  }
}
