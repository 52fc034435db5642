/** The reconnect loop on values: what the client does, whatever happens to it. */
module FeedModel {
  import opened Market
  import opened Backoff
  import opened Subscription

  /** How something awaited ends: it succeeds (a receive, with a frame), it stays silent past
      its timeout, it fails in a way that means "reconnect", it fails otherwise, or the task
      is cancelled. */
  datatype Outcome = Reply(frame: Parsed) | Silence | Failure | Fault | Cancelled

  /** One thing awaited, and whether the client was asked to close while it was. */
  datatype Event = Event(outcome: Outcome, closes: bool)

  /** What the caller does with a message before asking for the next one. */
  datatype Reaction = Resume | Close | Abandon

  /** How a stage of the loop ended. */
  datatype Ending = Finished | Transient | Rejected | Raised | GaveUp

  datatype Config = Config(channels: seq<Channel>, ladder: Ladder, maxReconnects: Option<int>)

  /** The configuration, and what is outside the client: what the caller does with each
      message it is handed, and the draws behind the jitter. */
  datatype World = World(cfg: Config, caller: nat -> Reaction, chance: nat -> real) {
    ghost predicate Sensible() {
      cfg.ladder.Sensible() && forall n :: 0.0 <= chance(n) <= 1.0
    }
  }

  /** The client's state: the events still to come, its counters, and what it has done, which
      is to send requests and to yield messages. */
  datatype State = State(rest: seq<Event>, seqNo: nat, reqId: nat, closed: bool, sent: seq<nat>, yielded: seq<nat>)

  function Opening(script: seq<Event>): State {
    State(script, 0, 0, false, [], [])
  }

  // ---- single steps ----

  datatype Step = Step(outcome: Outcome, now: State)

  /** Whatever happens next; when nothing is left to happen the task has been cancelled. */
  function Await(s: State): (a: Step)
    ensures a.outcome.Cancelled? || |a.now.rest| < |s.rest|
    ensures |a.now.rest| <= |s.rest|
  {
    if s.rest == [] then Step(Cancelled, s)
    else Step(s.rest[0].outcome, s.(rest := s.rest[1..], closed := s.closed || s.rest[0].closes))
  }

  function Send(s: State, id: nat): (a: Step)
    ensures a.outcome.Cancelled? || |a.now.rest| < |s.rest|
    ensures |a.now.rest| <= |s.rest|
  {
    var a := Await(s);
    if a.outcome.Reply? then a.(now := a.now.(sent := s.sent + [id])) else a
  }

  /** How an outcome that is not a reply ends a stage: silence is a timeout, which is transient. */
  function EndingOf(o: Outcome): (end: Ending)
    requires !o.Reply?
  {
    if o.Fault? || o.Cancelled? then Raised else Transient
  }

  predicate Abandons(w: World, s: State) {
    w.caller(|s.yielded|) == Abandon
  }

  /** Hands a message to the caller. */
  function Hand(w: World, s: State, number: nat): State {
    s.(yielded := s.yielded + [number], closed := s.closed || w.caller(|s.yielded|) == Close)
  }

  // ---- the handshake ----

  datatype Stage = Stage(end: Ending, now: State)

  /** Sends the requests from the `i`th channel's on; their ids are consecutive from `first`. */
  function SendFrom(cfg: Config, s: State, first: nat, i: nat): (r: Stage)
    requires i <= |cfg.channels|
    ensures |r.now.rest| <= |s.rest|
    decreases |cfg.channels| - i
  {
    if i == |cfg.channels| then Stage(Finished, s)
    else
      var a := Send(s, first + i);
      if a.outcome.Reply? then SendFrom(cfg, a.now, first, i + 1) else Stage(EndingOf(a.outcome), a.now)
  }

  /** `n` consecutive numbers from `first`. */
  function Consecutive(first: nat, n: nat): (numbers: seq<nat>)
    ensures |numbers| == n && forall i :: 0 <= i < n ==> numbers[i] == first + i
  {
    seq(n, i => first + i)
  }

  function RequestIds(cfg: Config, first: nat): set<nat> {
    set id | id in Consecutive(first, |cfg.channels|)
  }

  /** The position of the book among the channels, or their number if it is not there. */
  function BookAt(channels: seq<Channel>): nat {
    if channels == [] || channels[0] == BookChannel then 0 else 1 + BookAt(channels[1..])
  }

  function BookId(cfg: Config, first: nat): nat {
    first + BookAt(cfg.channels)
  }

  datatype Collected = Collected(end: Ending, now: State, numbers: seq<nat>)

  /** Stamps and collects frames until every channel is settled, or one is refused. */
  function Settling(s: State, bookId: nat, standing: Standing, numbers: seq<nat>): (r: Collected)
    requires standing.Waiting?
    ensures |r.now.rest| <= |s.rest|
    decreases |s.rest|
  {
    if standing.pending == {} then Collected(Finished, s, numbers)
    else
      var a := Await(s);
      if !a.outcome.Reply? then Collected(EndingOf(a.outcome), a.now, numbers)
      else
        var now, more := a.now.(seqNo := s.seqNo + 1), numbers + [s.seqNo];
        var next := Settle(standing, bookId, a.outcome.frame);
        if next.Refused? then Collected(Rejected, now, more) else Settling(now, bookId, next, more)
  }

  /** Sends the requests, then waits for all of them to be settled. */
  function Handshake(cfg: Config, s: State, first: nat): (r: Collected)
    ensures |r.now.rest| <= |s.rest|
  {
    var requested := SendFrom(cfg, s, first, 0);
    if requested.end.Finished? then Settling(requested.now, BookId(cfg, first), Waiting(RequestIds(cfg, first)), [])
    else Collected(requested.end, requested.now, [])
  }

  /** Hands over what a handshake collected. */
  function HandAll(w: World, s: State, numbers: seq<nat>): (r: Stage)
    ensures r.now.rest == s.rest
    decreases |numbers|
  {
    if numbers == [] then Stage(Finished, s)
    else if Abandons(w, s) then Stage(Raised, Hand(w, s, numbers[0]))
    else HandAll(w, Hand(w, s, numbers[0]), numbers[1..])
  }

  // ---- the read loop ----

  datatype Reads = Reads(end: Ending, now: State, count: nat)

  /** A ping takes the next request id. */
  function Ping(s: State): (a: Step)
    ensures |a.now.rest| <= |s.rest|
  {
    Send(s.(reqId := s.reqId + 1), s.reqId + 1)
  }

  /** One turn of the read loop: how it ends the session, or how the loop goes on. */
  datatype ReadTurn = ReadTurn(end: Option<Ending>, now: State, pinged: bool, count: nat)

  /** Waits for a frame and hands it over. The first silence buys a ping; only a second one
      before any frame declares the connection dead. */
  function ReadOnce(w: World, s: State, pinged: bool, count: nat): (t: ReadTurn)
    ensures |t.now.rest| <= |s.rest| && (t.end.None? ==> |t.now.rest| < |s.rest|)
  {
    var a := Await(s);
    if a.outcome.Silence? && !pinged then
      var p := Ping(a.now);
      ReadTurn(if p.outcome.Reply? then None else Some(EndingOf(p.outcome)), p.now, true, count)
    else if a.outcome.Reply? then
      var now := Hand(w, a.now.(seqNo := s.seqNo + 1), s.seqNo);
      ReadTurn(if Abandons(w, s) then Some(Raised) else None, now, false, count + 1)
    else ReadTurn(Some(EndingOf(a.outcome)), a.now, pinged, count)
  }

  /** Reads frames, handing over each, until something ends the session. */
  function Reading(w: World, s: State, pinged: bool, count: nat): (r: Reads)
    ensures |r.now.rest| <= |s.rest|
    decreases |s.rest|
  {
    if s.closed then Reads(Finished, s, count)
    else
      var t := ReadOnce(w, s, pinged, count);
      if t.end.Some? then Reads(t.end.value, t.now, t.count) else Reading(w, t.now, t.pinged, t.count)
  }

  // ---- a session ----

  /** One connection: how it ended, where its reading began if the handshake went through,
      how many frames it read after that, and how it left the client. */
  datatype Session = Session(end: Ending, start: Option<State>, read: nat, now: State)

  function ReadSession(w: World, s: State): (r: Session)
    ensures |r.now.rest| <= |s.rest|
  {
    var done := Reading(w, s, false, 0);
    Session(done.end, Some(s), done.count, done.now)
  }

  /** Connects, subscribes, hands over what the handshake collected, then reads. */
  function SessionFrom(w: World, s: State): (r: Session)
    ensures r.end.Raised? || |r.now.rest| < |s.rest|
  {
    var a := Await(s);
    if !a.outcome.Reply? then Session(EndingOf(a.outcome), None, 0, a.now)
    else
      var first := s.reqId + 1;
      var shaken := Handshake(w.cfg, a.now.(reqId := s.reqId + |w.cfg.channels|), first);
      if !shaken.end.Finished? then Session(shaken.end, None, 0, shaken.now)
      else
        var handed := HandAll(w, shaken.now, shaken.numbers);
        if handed.end.Raised? then Session(Raised, None, 0, handed.now) else ReadSession(w, handed.now)
  }

  // ---- the loop ----

  datatype Retry = Retry(attempt: nat, delay: real)

  /** A session, where it started, and the retry that followed it, if one did. */
  datatype Lap = Lap(from: State, session: Session, retry: Option<Retry>)

  datatype Run = Run(end: Ending, now: State, laps: seq<Lap>)

  /** The loop's counters: the attempts since it last forgot them, the attempts the current
      generator of delays has counted, and the draws made so far. */
  datatype Counters = Counters(attempt: nat, rung: nat, drawn: nat)

  /** The counters for the retry after a session: a session that read frames earns a fresh ladder. */
  function Counted(c: Counters, session: Session): Counters {
    if session.read > 0 then Counters(1, 1, c.drawn) else Counters(c.attempt + 1, c.rung, c.drawn)
  }

  function Slept(ladder: Ladder, c: Counters): Counters {
    Counters(c.attempt, c.rung + 1, if ladder.jitter then c.drawn + 1 else c.drawn)
  }

  predicate Spent(cfg: Config, attempt: nat) {
    cfg.maxReconnects.Some? && attempt > cfg.maxReconnects.value
  }

  /** One turn of the loop: the session, and how the loop ends with it or goes on. */
  datatype Turned = Turned(end: Option<Ending>, now: State, counters: Counters, lap: Lap)

  function Retrying(w: World, s: State, session: Session, k: Counters): (t: Turned)
    requires k.rung >= 1
    ensures |t.now.rest| <= |session.now.rest| && t.counters.rung >= 1
  {
    var retry := Retry(k.attempt, w.cfg.ladder.Delay(k.rung, w.chance(k.drawn)));
    var slept := Await(session.now);
    Turned(if slept.outcome.Reply? then None else Some(Raised), slept.now, Slept(w.cfg.ladder, k), Lap(s, session, Some(retry)))
  }

  function Turn(w: World, s: State, c: Counters): (t: Turned)
    requires c.rung >= 1
    ensures t.counters.rung >= 1 && (t.end.None? ==> |t.now.rest| < |s.rest|)
  {
    var session := SessionFrom(w, s);
    var k := Counted(c, session);
    if session.end.Rejected? || session.end.Raised? then Turned(Some(session.end), session.now, c, Lap(s, session, None))
    else if session.now.closed then Turned(Some(Finished), session.now, c, Lap(s, session, None))
    else if Spent(w.cfg, k.attempt) then Turned(Some(GaveUp), session.now, c, Lap(s, session, None))
    else Retrying(w, s, session, k)
  }

  /** Reconnects until the client is closed, a subscription is rejected, something other than
      a transient failure is raised, or the retry budget is spent. */
  function Streaming(w: World, s: State, c: Counters, laps: seq<Lap>): Run
    requires c.rung >= 1
    decreases |s.rest|
  {
    if s.closed then Run(Finished, s, laps)
    else
      var t := Turn(w, s, c);
      if t.end.Some? then Run(t.end.value, t.now, laps + [t.lap]) else Streaming(w, t.now, t.counters, laps + [t.lap])
  }

  /** A client's whole life. */
  function Streamed(w: World, script: seq<Event>): Run {
    Streaming(w, Opening(script), Counters(0, 1, 0), [])
  }
}
