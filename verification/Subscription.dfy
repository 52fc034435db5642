/** Which messages settle a handshake, and which end it. */
module Subscription {
  import opened Market

  /** A received frame, as far as the handshake looks at it. */
  datatype Parsed = Ack(reqId: Option<nat>, success: bool) | SnapshotMessage | OtherMessage

  datatype Channel = BookChannel | TradeChannel

  /** The ids still waiting for an answer, or none left to wait because one was refused. */
  datatype Standing = Waiting(pending: set<nat>) | Refused

  /** One frame: an acknowledgement settles its id, the book's snapshot settles the book's. */
  function Settle(st: Standing, bookId: nat, p: Parsed): Standing {
    if st.Refused? then st
    else if p.Ack? && p.reqId.Some? && p.reqId.value in st.pending then
      if p.success then Waiting(st.pending - {p.reqId.value}) else Refused
    else if p.SnapshotMessage? then Waiting(st.pending - {bookId})
    else st
  }

  function SettleAll(st: Standing, bookId: nat, frames: seq<Parsed>): Standing
    decreases |frames|
  {
    if frames == [] then st else SettleAll(Settle(st, bookId, frames[0]), bookId, frames[1..])
  }

  predicate Answers(p: Parsed, id: nat) {
    p.Ack? && p.reqId == Some(id)
  }

  /** A frame after which `id` is no longer waited for. */
  predicate Decides(p: Parsed, bookId: nat, id: nat) {
    Answers(p, id) || (id == bookId && p.SnapshotMessage?)
  }

  predicate Undecided(frames: seq<Parsed>, bookId: nat, id: nat) {
    forall i :: 0 <= i < |frames| ==> !Decides(frames[i], bookId, id)
  }

  /** The first frame that decides `id` is a refusal. */
  predicate RefusedFirst(frames: seq<Parsed>, bookId: nat, id: nat) {
    exists i :: 0 <= i < |frames| && RefusedAt(frames, bookId, id, i)
  }

  predicate RefusedAt(frames: seq<Parsed>, bookId: nat, id: nat, i: nat)
    requires i < |frames|
  {
    Answers(frames[i], id) && !frames[i].success && Undecided(frames[..i], bookId, id)
  }

  /** What the first frame does to an id's history. */
  lemma FirstFrame(frames: seq<Parsed>, bookId: nat, id: nat)
    requires frames != []
    ensures Undecided(frames, bookId, id) <==> !Decides(frames[0], bookId, id) && Undecided(frames[1..], bookId, id)
    ensures RefusedFirst(frames, bookId, id) <==>
            (Answers(frames[0], id) && !frames[0].success) || (!Decides(frames[0], bookId, id) && RefusedFirst(frames[1..], bookId, id))
  {
    var first, rest := frames[0], frames[1..];
    assert frames == [first] + rest;
    if i: nat :| i < |frames| && RefusedAt(frames, bookId, id, i) {
      if i > 0 {
        var before, init := frames[..i], rest[..i - 1];
        assert before == [first] + init && before[0] == first;
        forall k | 0 <= k < |init|
          ensures !Decides(init[k], bookId, id)
        {
          assert init[k] == before[k + 1];
        }
        assert RefusedAt(rest, bookId, id, i - 1);
      }
    }
    if i: nat :| i < |rest| && RefusedAt(rest, bookId, id, i) {
      if !Decides(first, bookId, id) {
        assert frames[..i + 1] == [first] + rest[..i];
        assert RefusedAt(frames, bookId, id, i + 1);
      }
    }
    if Answers(first, id) && !first.success {
      assert RefusedAt(frames, bookId, id, 0);
    }
  }

  lemma {:induction false} RefusedStays(bookId: nat, frames: seq<Parsed>)
    ensures SettleAll(Refused, bookId, frames) == Refused
  {
    if frames != [] {
      RefusedStays(bookId, frames[1..]);
    }
  }

  /** Exactly the ids no frame has decided are waited for; and the handshake is refused
      exactly when the first frame to decide some id is a refusal. A refusal that comes
      after the book's snapshot, or after a first answer, goes unnoticed. */
  lemma {:induction false} StandingIs(ids: set<nat>, bookId: nat, frames: seq<Parsed>)
    ensures SettleAll(Waiting(ids), bookId, frames).Refused? <==> exists id :: id in ids && RefusedFirst(frames, bookId, id)
    ensures SettleAll(Waiting(ids), bookId, frames).Waiting? ==>
              forall id :: id in SettleAll(Waiting(ids), bookId, frames).pending <==> id in ids && Undecided(frames, bookId, id)
  {
    if frames != [] {
      forall id: nat
        ensures Undecided(frames, bookId, id) <==> !Decides(frames[0], bookId, id) && Undecided(frames[1..], bookId, id)
        ensures RefusedFirst(frames, bookId, id) <==>
                (Answers(frames[0], id) && !frames[0].success) || (!Decides(frames[0], bookId, id) && RefusedFirst(frames[1..], bookId, id))
      {
        FirstFrame(frames, bookId, id);
      }
      var next := Settle(Waiting(ids), bookId, frames[0]);
      if next.Refused? {
        RefusedStays(bookId, frames[1..]);
        assert frames[0].reqId.value in ids && RefusedFirst(frames, bookId, frames[0].reqId.value);
      } else {
        StandingIs(next.pending, bookId, frames[1..]);
      }
    }
  }

  /** Kraken refusing the book channel after its snapshot has arrived is not reported, even
      while another channel is still waited for. */
  lemma LateRefusalUnnoticed(bookId: nat, tradeId: nat)
    requires bookId != tradeId
    ensures SettleAll(Waiting({bookId, tradeId}), bookId, [SnapshotMessage, Ack(Some(bookId), false)]) == Waiting({tradeId})
    ensures SettleAll(Waiting({bookId, tradeId}), bookId, [SnapshotMessage, Ack(Some(bookId), false), Ack(Some(tradeId), true)])
            == Waiting({})
  {
    var refused, taken := Ack(Some(bookId), false), Ack(Some(tradeId), true);
    var both, one := Waiting({bookId, tradeId}), Waiting({tradeId});
    assert Settle(both, bookId, SnapshotMessage) == one;
    assert Settle(one, bookId, refused) == one;
    assert Settle(one, bookId, taken) == Waiting({});
    FrameByFrame(both, bookId, SnapshotMessage, [refused]);
    FrameByFrame(one, bookId, refused, []);
    FrameByFrame(both, bookId, SnapshotMessage, [refused, taken]);
    FrameByFrame(one, bookId, refused, [taken]);
    FrameByFrame(one, bookId, taken, []);
    assert [SnapshotMessage] + [refused] == [SnapshotMessage, refused] && [refused] + [] == [refused];
    assert [SnapshotMessage] + [refused, taken] == [SnapshotMessage, refused, taken];
    assert [refused] + [taken] == [refused, taken] && [taken] + [] == [taken];
  }

  lemma FrameByFrame(st: Standing, bookId: nat, p: Parsed, rest: seq<Parsed>)
    ensures SettleAll(st, bookId, [p] + rest) == SettleAll(Settle(st, bookId, p), bookId, rest)
  {
    assert ([p] + rest)[1..] == rest;
  }
}
