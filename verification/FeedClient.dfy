/** The reconnecting client: the loop on values, carried out step by step. */
module FeedClient {
  import opened Market
  import opened Backoff
  import opened Subscription
  import opened FeedModel

  class KrakenFeedClient {
    const world: World
    /** What is still going to happen. */
    var rest: seq<Event>
    var seqNo: nat
    var reqId: nat
    var closed: bool
    /** The effects: request ids sent, sequence numbers yielded. */
    var sent: seq<nat>
    var yielded: seq<nat>

    function Now(): State
      reads this
    {
      State(rest, seqNo, reqId, closed, sent, yielded)
    }

    constructor (world: World, script: seq<Event>)
      ensures this.world == world && Now() == Opening(script)
    {
      this.world, rest := world, script;
      seqNo, reqId, closed := 0, 0, false;
      sent, yielded := [], [];
    }

    method Await() returns (o: Outcome)
      modifies this
      ensures FeedModel.Await(old(Now())) == Step(o, Now())
    {
      if rest == [] {
        return Cancelled;
      }
      o := rest[0].outcome;
      closed := closed || rest[0].closes;
      rest := rest[1..];
    }

    method Send(id: nat) returns (o: Outcome)
      modifies this
      ensures FeedModel.Send(old(Now()), id) == Step(o, Now())
    {
      o := Await();
      if o.Reply? {
        sent := sent + [id];
      }
    }

    /** Takes the next sequence number for a frame just received. */
    method Stamp() returns (number: nat)
      modifies this
      ensures number == old(seqNo) && Now() == old(Now()).(seqNo := old(seqNo) + 1)
    {
      number := seqNo;
      seqNo := seqNo + 1;
    }

    /** Hands a message to the caller, who may close the client before coming back, or never come back. */
    method Yield(number: nat) returns (abandoned: bool)
      modifies this
      ensures Now() == Hand(world, old(Now()), number) && abandoned == Abandons(world, old(Now()))
    {
      var reaction := world.caller(|yielded|);
      yielded := yielded + [number];
      closed := closed || reaction == Close;
      abandoned := reaction == Abandon;
    }

    // ---- the handshake ----

    method SendRequests(first: nat) returns (end: Ending)
      modifies this
      ensures SendFrom(world.cfg, old(Now()), first, 0) == Stage(end, Now())
    {
      for i := 0 to |world.cfg.channels|
        invariant SendFrom(world.cfg, Now(), first, i) == SendFrom(world.cfg, old(Now()), first, 0)
      {
        var o := Send(first + i);
        if !o.Reply? {
          return EndingOf(o);
        }
      }
      end := Finished;
    }

    /** Waits until every channel is settled; the frames that come meanwhile are collected. */
    method Settle(first: nat) returns (end: Ending, numbers: seq<nat>)
      modifies this
      ensures Settling(old(Now()), BookId(world.cfg, first), Waiting(RequestIds(world.cfg, first)), [])
              == Collected(end, Now(), numbers)
    {
      var bookId := BookId(world.cfg, first);
      var standing := Waiting(RequestIds(world.cfg, first));
      numbers := [];
      while standing.pending != {}
        invariant standing.Waiting?
        invariant Settling(Now(), bookId, standing, numbers)
                  == Settling(old(Now()), bookId, Waiting(RequestIds(world.cfg, first)), [])
        decreases |rest|
      {
        var o := Await();
        if !o.Reply? {
          return EndingOf(o), numbers;
        }
        var number := Stamp();
        numbers := numbers + [number];
        standing := Subscription.Settle(standing, bookId, o.frame);
        if standing.Refused? {
          return Rejected, numbers;
        }
      }
      end := Finished;
    }

    method Handshake(first: nat) returns (end: Ending, numbers: seq<nat>)
      modifies this
      ensures FeedModel.Handshake(world.cfg, old(Now()), first) == Collected(end, Now(), numbers)
    {
      end := SendRequests(first);
      if !end.Finished? {
        return end, [];
      }
      end, numbers := Settle(first);
    }

    method YieldAll(numbers: seq<nat>) returns (end: Ending)
      modifies this
      ensures HandAll(world, old(Now()), numbers) == Stage(end, Now())
    {
      assert numbers[0..] == numbers;
      for i := 0 to |numbers|
        invariant HandAll(world, Now(), numbers[i..]) == HandAll(world, old(Now()), numbers)
      {
        assert numbers[i..][1..] == numbers[i + 1..];
        var abandoned := Yield(numbers[i]);
        if abandoned {
          return Raised;
        }
      }
      end := Finished;
    }

    // ---- a session ----

    method Ping() returns (o: Outcome)
      modifies this
      ensures FeedModel.Ping(old(Now())) == Step(o, Now())
    {
      reqId := reqId + 1;
      o := Send(reqId);
    }

    /** Waits for one frame and yields it, or pings on the first silence. */
    method ReadOnce(pinged0: bool, count0: nat) returns (end: Option<Ending>, pinged: bool, count: nat)
      modifies this
      ensures FeedModel.ReadOnce(world, old(Now()), pinged0, count0) == ReadTurn(end, Now(), pinged, count)
    {
      end, pinged, count := None, pinged0, count0;
      var o := Await();
      match o
      case Silence =>
        if pinged {
          return Some(Transient), pinged, count;
        }
        pinged := true;
        var sending := Ping();
        if !sending.Reply? {
          end := Some(EndingOf(sending));
        }
      case Reply(_) =>
        pinged := false;
        var number := Stamp();
        count := count + 1;
        var abandoned := Yield(number);
        if abandoned {
          end := Some(Raised);
        }
      case _ =>
        end := Some(EndingOf(o));
    }

    /** Reads frames until something ends the session, yielding every one. */
    method ReadLoop() returns (end: Ending, count: nat)
      modifies this
      ensures Reading(world, old(Now()), false, 0) == Reads(end, Now(), count)
    {
      var pinged := false;
      count := 0;
      while !closed
        invariant Reading(world, Now(), pinged, count) == Reading(world, old(Now()), false, 0)
        decreases |rest|
      {
        var stop;
        stop, pinged, count := ReadOnce(pinged, count);
        if stop.Some? {
          return stop.value, count;
        }
      }
      end := Finished;
    }

    /** Connects, subscribes, yields what the handshake collected, then reads. */
    method Connect() returns (session: Session)
      modifies this
      ensures session == SessionFrom(world, old(Now())) && session.now == Now()
    {
      var o := Await();
      if !o.Reply? {
        return Session(EndingOf(o), None, 0, Now());
      }
      var first := reqId + 1;
      reqId := reqId + |world.cfg.channels|;
      var end, numbers := Handshake(first);
      if !end.Finished? {
        return Session(end, None, 0, Now());
      }
      end := YieldAll(numbers);
      if end.Raised? {
        return Session(Raised, None, 0, Now());
      }
      var start := Now();
      var count;
      end, count := ReadLoop();
      session := Session(end, Some(start), count, Now());
    }

    // ---- the loop ----

    /** Waits before the next attempt, as long as the ladder says. */
    method Retry(delays: Delays, attempt: nat, ghost from: State, ghost session: Session) returns (end: Option<Ending>, ghost lap: Lap)
      requires delays.Valid() && delays.ladder == world.cfg.ladder && delays.source.chance == world.chance
      requires session.now == Now()
      modifies this, delays, delays.source
      ensures delays.Valid()
      ensures Retrying(world, from, session, Counters(attempt, old(delays.attempt), old(delays.source.drawn)))
              == Turned(end, Now(), Counters(attempt, delays.attempt, delays.source.drawn), lap)
    {
      var delay := delays.Next();
      var slept := Await();
      lap := Lap(from, session, Some(FeedModel.Retry(attempt, delay)));
      end := if slept.Reply? then None else Some(Raised);
    }

    /** One session, and the retry after it unless the loop ends there. */
    method Turn(delays0: Delays, attempt0: nat) returns (end: Option<Ending>, delays: Delays, attempt: nat, ghost lap: Lap)
      requires delays0.Valid() && delays0.ladder == world.cfg.ladder && delays0.source.chance == world.chance
      modifies this, delays0, delays0.source
      ensures delays == delays0 || fresh(delays)
      ensures delays.Valid() && delays.ladder == world.cfg.ladder && delays.source == delays0.source
      ensures var t := FeedModel.Turn(world, old(Now()), Counters(attempt0, old(delays0.attempt), old(delays0.source.drawn)));
              t.end == end && t.now == Now() && t.lap == lap
              && (end.None? ==> t.counters == Counters(attempt, delays.attempt, delays.source.drawn))
    {
      ghost var from := Now();
      var session := Connect();
      delays, attempt, lap := delays0, attempt0, Lap(from, session, None);
      if session.end.Rejected? || session.end.Raised? {
        return Some(session.end), delays, attempt, lap;
      }
      if closed {
        return Some(Finished), delays, attempt, lap;
      }
      if session.read > 0 {
        delays := new Delays(world.cfg.ladder, delays0.source);
        attempt := 0;
      }
      attempt := attempt + 1;
      if Spent(world.cfg, attempt) {
        return Some(GaveUp), delays, attempt, lap;
      }
      end, lap := Retry(delays, attempt, from, session);
    }

    /** Reconnects until the client is closed, a subscription is rejected, something other
        than a transient failure is raised, or the retry budget is spent. */
    method Stream() returns (end: Ending, ghost laps: seq<Lap>)
      requires world.Sensible()
      modifies this
      ensures Streaming(world, old(Now()), Counters(0, 1, 0), []) == Run(end, Now(), laps)
    {
      var source := new RandomSource(world.chance);
      var delays := new Delays(world.cfg.ladder, source);
      var attempt := 0;
      laps := [];
      while !closed
        invariant fresh(source) && fresh(delays) && source.chance == world.chance
        invariant delays.Valid() && delays.ladder == world.cfg.ladder && delays.source == source
        invariant Streaming(world, Now(), Counters(attempt, delays.attempt, source.drawn), laps)
                  == Streaming(world, old(Now()), Counters(0, 1, 0), [])
        decreases |rest|
      {
        var stop;
        ghost var lap;
        stop, delays, attempt, lap := Turn(delays, attempt);
        laps := laps + [lap];
        if stop.Some? {
          return stop.value, laps;
        }
      }
      end := Finished;
    }
  }
}
