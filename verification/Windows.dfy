/** Many windows over one capture, collected while streaming and priced like full histories. */
module Windows {
  import opened Market
  import opened Replay
  import opened Execution
  import opened Lookups

  // ---- the cheap pass ----

  /** The stamps of the book frames of a capture. */
  function BookStamps(messages: seq<Message>): seq<int> {
    if messages == [] then []
    else
      var n := |messages| - 1;
      BookStamps(messages[..n]) + if messages[n].payload.BookPayload? then [messages[n].recvNs] else []
  }

  function Stamped(ts: int, quantities: seq<real>): seq<(int, real)> {
    if quantities == [] then []
    else Stamped(ts, quantities[..|quantities| - 1]) + [(ts, quantities[|quantities| - 1])]
  }

  /** Every live trade, stamped with its arrival; the backfill sent on subscribing is not one. */
  function LiveTrades(messages: seq<Message>): seq<(int, real)> {
    if messages == [] then []
    else
      var n := |messages| - 1;
      var p := messages[n].payload;
      LiveTrades(messages[..n])
      + if p.TradePayload? && !p.isSnapshot then Stamped(messages[n].recvNs, p.quantities) else []
  }

  lemma PassStep(messages: seq<Message>, i: nat)
    requires i < |messages|
    ensures BookStamps(messages[..i + 1]) == BookStamps(messages[..i]) + if messages[i].payload.BookPayload? then [messages[i].recvNs] else []
    ensures LiveTrades(messages[..i + 1])
            == LiveTrades(messages[..i])
               + if messages[i].payload.TradePayload? && !messages[i].payload.isSnapshot
                 then Stamped(messages[i].recvNs, messages[i].payload.quantities) else []
  {
    assert messages[..i + 1][..i] == messages[..i];
  }

  predicate LiveTrade(p: Payload) {
    p.TradePayload? && !p.isSnapshot
  }

  /** The live trades of the first `i` messages. */
  function TradesBefore(messages: seq<Message>, i: nat): nat
    requires i <= |messages|
  {
    if i == 0 then 0
    else TradesBefore(messages, i - 1) + if LiveTrade(messages[i - 1].payload) then |messages[i - 1].payload.quantities| else 0
  }

  lemma {:induction false} StampedAre(ts: int, quantities: seq<real>)
    ensures |Stamped(ts, quantities)| == |quantities|
    ensures forall k :: 0 <= k < |quantities| ==> Stamped(ts, quantities)[k] == (ts, quantities[k])
  {
    if quantities != [] {
      StampedAre(ts, quantities[..|quantities| - 1]);
    }
  }

  /** The trades of the first `i` messages, in order: all of them, each with its message's stamp,
      and nothing of the backfills. */
  ghost predicate TradesAre(messages: seq<Message>, i: nat, trades: seq<(int, real)>)
    requires i <= |messages|
  {
    && |trades| == TradesBefore(messages, i)
    && forall m: nat, k: nat :: m < i && LiveTrade(messages[m].payload) && k < |messages[m].payload.quantities| ==>
         TradeAt(messages, trades, m, k)
  }

  predicate TradeAt(messages: seq<Message>, trades: seq<(int, real)>, m: nat, k: nat)
    requires m < |messages| && LiveTrade(messages[m].payload) && k < |messages[m].payload.quantities|
  {
    var at := TradesBefore(messages, m) + k;
    at < |trades| && trades[at] == (messages[m].recvNs, messages[m].payload.quantities[k])
  }

  /** Every trade of every live message is there, in order of arrival and of the message. */
  lemma {:induction false} LiveTradesAre(messages: seq<Message>, i: nat)
    requires i <= |messages|
    ensures TradesAre(messages, i, LiveTrades(messages[..i]))
  {
    if i > 0 {
      var before, now := LiveTrades(messages[..i - 1]), LiveTrades(messages[..i]);
      LiveTradesAre(messages, i - 1);
      PassStep(messages, i - 1);
      if LiveTrade(messages[i - 1].payload) {
        StampedAre(messages[i - 1].recvNs, messages[i - 1].payload.quantities);
      }
      MoreTrades(messages, i, before, now);
    }
  }

  lemma MoreTrades(messages: seq<Message>, i: nat, before: seq<(int, real)>, now: seq<(int, real)>)
    requires 0 < i <= |messages| && TradesAre(messages, i - 1, before) && before <= now
    requires |now| == TradesBefore(messages, i)
    requires LiveTrade(messages[i - 1].payload) ==>
               now[|before|..] == Stamped(messages[i - 1].recvNs, messages[i - 1].payload.quantities)
    ensures TradesAre(messages, i, now)
  {
    var last := messages[i - 1];
    if LiveTrade(last.payload) {
      StampedAre(last.recvNs, last.payload.quantities);
    }
    forall m: nat, k: nat | m < i && LiveTrade(messages[m].payload) && k < |messages[m].payload.quantities|
      ensures TradeAt(messages, now, m, k)
    {
      if m < i - 1 {
        assert TradeAt(messages, before, m, k);
      } else {
        assert now[|before|..][k] == now[|before| + k];
      }
    }
  }

  /** The book frames among the first `i` messages. */
  function FramesBefore(messages: seq<Message>, i: nat): nat
    requires i <= |messages|
  {
    if i == 0 then 0 else FramesBefore(messages, i - 1) + if messages[i - 1].payload.BookPayload? then 1 else 0
  }

  /** The stamp of every book frame is there, in order of arrival, and no other. */
  lemma {:induction false} StampsAre(messages: seq<Message>, i: nat)
    requires i <= |messages|
    ensures |BookStamps(messages[..i])| == FramesBefore(messages, i)
    ensures forall m: nat :: m < i && messages[m].payload.BookPayload? ==>
              FramesBefore(messages, m) < FramesBefore(messages, i) && BookStamps(messages[..i])[FramesBefore(messages, m)] == messages[m].recvNs
  {
    if i > 0 {
      StampsAre(messages, i - 1);
      PassStep(messages, i - 1);
    }
  }

  datatype Span = Span(firstNs: int, lastNs: int, volumes: seq<(int, real)>)

  method SpanAndVolume(messages: seq<Message>) returns (r: Result<Span>)
    ensures var stamps := BookStamps(messages);
            if stamps == [] then r == Err(ValueError)
            else r.Ok? && r.value == Span(stamps[0], stamps[|stamps| - 1], LiveTrades(messages))
  {
    var first: Option<int> := None;
    var last := 0;
    var volumes: seq<(int, real)> := [];
    assert messages[..0] == [];
    for i := 0 to |messages|
      invariant volumes == LiveTrades(messages[..i])
      invariant first.None? <==> BookStamps(messages[..i]) == []
      invariant first.Some? ==>
                  var stamps := BookStamps(messages[..i]);
                  first.value == stamps[0] && last == stamps[|stamps| - 1]
    {
      PassStep(messages, i);
      var msg := messages[i];
      match msg.payload
      case BookPayload(_) =>
        if first.None? {
          first := Some(msg.recvNs);
        }
        last := msg.recvNs;
      case TradePayload(isSnapshot, quantities) =>
        if !isSnapshot {
          volumes := volumes + Stamped(msg.recvNs, quantities);
        }
      case OtherPayload =>
    }
    assert messages[..|messages|] == messages;
    if first.None? {
      return Err(ValueError);
    }
    r := Ok(Span(first.value, last, volumes));
  }

  // ---- the layout ----

  function StepOf(spanNs: int, durationNs: int, windows: int): int
    requires windows >= 1
  {
    if windows > 1 then (spanNs - durationNs) / (windows - 1) else 0
  }

  function Starts(firstNs: int, step: int, windows: nat): (starts: seq<int>)
    ensures |starts| == windows && forall i :: 0 <= i < windows ==> starts[i] == firstNs + i * step
  {
    seq(windows, i => firstNs + i * step)
  }

  function Count(starts: seq<int>, s: int): nat {
    if starts == [] then 0
    else Count(starts[..|starts| - 1], s) + if starts[|starts| - 1] == s then 1 else 0
  }

  lemma StepFits(room: nat, windows: nat)
    requires windows >= 2
    ensures var step := room / (windows - 1);
            step >= 0 && (windows - 1) * step <= room < (windows - 1) * (step + 1)
  {
    LargestGap(room, windows - 1);
  }

  /** Every window lies inside the capture, the first at its start, and they are evenly spaced, as
      far apart as fit. */
  lemma WindowsFit(firstNs: int, lastNs: int, durationNs: int, windows: int)
    requires windows >= 1 && lastNs - firstNs > durationNs
    ensures var step := StepOf(lastNs - firstNs, durationNs, windows);
            var starts := Starts(firstNs, step, windows);
            && step >= 0
            && Ascending(starts)
            && (forall s :: s in starts ==> firstNs <= s && s + durationNs <= lastNs)
            && (step >= 1 ==> forall i, j :: 0 <= i < j < windows ==> starts[i] < starts[j])
            && starts[0] == firstNs && (forall i :: 0 < i < windows ==> starts[i] == starts[i - 1] + step)
            && (windows > 1 ==> (windows - 1) * step <= lastNs - firstNs - durationNs < (windows - 1) * (step + 1))
  {
    var step := StepOf(lastNs - firstNs, durationNs, windows);
    var starts := Starts(firstNs, step, windows);
    if windows > 1 {
      StepFits(lastNs - firstNs - durationNs, windows);
    }
    forall i | 0 <= i < windows
      ensures firstNs <= starts[i] && starts[i] + durationNs <= lastNs
    {
      Scale(i, windows - 1, step);
    }
    forall i | 0 < i < windows
      ensures starts[i] == starts[i - 1] + step
    {
      StepOn(i, step);
    }
    forall i, j | 0 <= i < j < windows
      ensures starts[i] <= starts[j] && (step >= 1 ==> starts[i] < starts[j])
    {
      Scale(i, j, step);
    }
  }

  lemma {:induction false} CountDistinct(starts: seq<int>, s: int)
    requires forall i, j :: 0 <= i < j < |starts| ==> starts[i] != starts[j]
    ensures Count(starts, s) == if s in starts then 1 else 0
  {
    if starts != [] {
      var n := |starts| - 1;
      CountDistinct(starts[..n], s);
      assert starts == starts[..n] + [starts[n]];
    }
  }

  lemma {:induction false} CountAll(starts: seq<int>, s: int)
    requires forall i :: 0 <= i < |starts| ==> starts[i] == s
    ensures Count(starts, s) == |starts|
  {
    if starts != [] {
      CountAll(starts[..|starts| - 1], s);
    }
  }

  lemma {:induction false} CountAppend(a: seq<int>, b: seq<int>, s: int)
    ensures Count(a + b, s) == Count(a, s) + Count(b, s)
  {
    if b == [] {
      assert a + b == a;
    } else {
      var n := |b| - 1;
      assert (a + b)[..|a + b| - 1] == a + b[..n];
      CountAppend(a, b[..n], s);
    }
  }

  lemma {:induction false} CountAbsent(starts: seq<int>, s: int)
    ensures Count(starts, s) == 0 <==> s !in starts
  {
    if starts != [] {
      var n := |starts| - 1;
      CountAbsent(starts[..n], s);
      assert starts == starts[..n] + [starts[n]];
    }
  }

  // ---- collecting ----

  predicate Covers(s: int, durationNs: int, t: int) {
    s <= t <= s + durationNs
  }

  /** The views stamped within the window that starts at `s`, in order. */
  function Within(views: seq<View>, s: int, durationNs: int): seq<View> {
    if views == [] then []
    else
      var n := |views| - 1;
      Within(views[..n], s, durationNs) + if Covers(s, durationNs, views[n].recvNs) then [views[n]] else []
  }

  function Copies(v: View, times: nat): (copies: seq<View>)
    ensures |copies| == times && forall i :: 0 <= i < times ==> copies[i] == v
  {
    seq(times, _ => v)
  }

  /** What the stream collects for `s`: each covered view, once per window that starts there. */
  function Gathered(views: seq<View>, s: int, durationNs: int, times: nat): seq<View> {
    if views == [] then []
    else
      var n := |views| - 1;
      Gathered(views[..n], s, durationNs, times)
      + if Covers(s, durationNs, views[n].recvNs) then Copies(views[n], times) else []
  }

  /** The view that came just before the first covered one. */
  function Carried(views: seq<View>, s: int, durationNs: int): Option<View> {
    if views == [] then None
    else
      var n := |views| - 1;
      if Covers(s, durationNs, views[n].recvNs) && Within(views[..n], s, durationNs) == [] then LastOf(views[..n])
      else Carried(views[..n], s, durationNs)
  }

  lemma {:induction false} BufferSize(views: seq<View>, s: int, durationNs: int, times: nat)
    ensures |Gathered(views, s, durationNs, times)| == times * |Within(views, s, durationNs)|
  {
    if views != [] {
      var n := |views| - 1;
      BufferSize(views[..n], s, durationNs, times);
      OneMore(times, |Within(views[..n], s, durationNs)|);
    }
  }

  lemma OneMore(times: nat, n: nat)
    ensures times * (n + 1) == times * n + times
  {
  }

  /** A buffer is exactly its window's views unless several windows share the start and see any. */
  lemma {:induction false} BufferIsWindow(views: seq<View>, s: int, durationNs: int, times: nat)
    ensures Gathered(views, s, durationNs, times) == Within(views, s, durationNs)
            <==> times == 1 || Within(views, s, durationNs) == []
  {
    BufferSize(views, s, durationNs, times);
    if times == 1 {
      BufferOnce(views, s, durationNs);
    } else if Within(views, s, durationNs) != [] {
      Differs(times, |Within(views, s, durationNs)|);
    }
  }

  lemma Differs(times: nat, n: nat)
    requires times != 1 && n > 0
    ensures times * n != n
  {
  }

  lemma {:induction false} BufferOnce(views: seq<View>, s: int, durationNs: int)
    ensures Gathered(views, s, durationNs, 1) == Within(views, s, durationNs)
  {
    if views != [] {
      var n := |views| - 1;
      BufferOnce(views[..n], s, durationNs);
      assert Copies(views[n], 1) == [views[n]];
    }
  }

  /** `buffers` and `carried` are the old maps with `view` given to every touched start. */
  ghost predicate Distributed(view: View, previous: Option<View>, touched: seq<int>,
                              buffers0: map<int, seq<View>>, carried0: map<int, Option<View>>,
                              buffers: map<int, seq<View>>, carried: map<int, Option<View>>) {
    && buffers.Keys == carried.Keys == buffers0.Keys == carried0.Keys
    && (forall s :: s in buffers0 ==> buffers[s] == buffers0[s] + Copies(view, Count(touched, s)))
    && (forall s :: s in buffers0 ==> carried[s] == if s in touched && buffers0[s] == [] then previous else carried0[s])
  }

  lemma DistributeStep(view: View, previous: Option<View>, touched: seq<int>, i: nat,
                       buffers0: map<int, seq<View>>, carried0: map<int, Option<View>>,
                       buffers: map<int, seq<View>>, carried: map<int, Option<View>>)
    requires i < |touched| && touched[i] in buffers0
    requires Distributed(view, previous, touched[..i], buffers0, carried0, buffers, carried)
    ensures var s := touched[i];
            Distributed(view, previous, touched[..i + 1], buffers0, carried0, buffers[s := buffers[s] + [view]],
                        if buffers[s] == [] then carried[s := previous] else carried)
  {
    var s := touched[i];
    CountStep(touched, i, view);
    CountAbsent(touched[..i], s);
    assert buffers[s] == [] <==> buffers0[s] == [] && s !in touched[..i];
  }

  /** Adds a view to the buffer of every touched start, remembering what came before the first. */
  method Distribute(view: View, previous: Option<View>, touched: seq<int>,
                    buffers0: map<int, seq<View>>, carried0: map<int, Option<View>>)
    returns (buffers: map<int, seq<View>>, carried: map<int, Option<View>>)
    requires buffers0.Keys == carried0.Keys && forall i :: 0 <= i < |touched| ==> touched[i] in buffers0
    ensures Distributed(view, previous, touched, buffers0, carried0, buffers, carried)
  {
    buffers, carried := buffers0, carried0;
    assert touched[..0] == [];
    for i := 0 to |touched|
      invariant Distributed(view, previous, touched[..i], buffers0, carried0, buffers, carried)
    {
      var s := touched[i];
      DistributeStep(view, previous, touched, i, buffers0, carried0, buffers, carried);
      if buffers[s] == [] {
        carried := carried[s := previous];
      }
      buffers := buffers[s := buffers[s] + [view]];
    }
    assert touched[..|touched|] == touched;
  }

  lemma CountStep(touched: seq<int>, i: nat, view: View)
    requires i < |touched|
    ensures forall s :: Count(touched[..i + 1], s) == Count(touched[..i], s) + if touched[i] == s then 1 else 0
    ensures Copies(view, Count(touched[..i + 1], touched[i])) == Copies(view, Count(touched[..i], touched[i])) + [view]
    ensures forall s :: s in touched[..i + 1] <==> s == touched[i] || s in touched[..i]
  {
    assert touched[..i + 1][..i] == touched[..i];
    assert touched[..i + 1] == touched[..i] + [touched[i]];
  }

  lemma CountSplit(starts: seq<int>, lo: nat, hi: nat, s: int)
    requires lo <= hi <= |starts|
    ensures Count(starts, s) == Count(starts[..lo], s) + Count(starts[lo..hi], s) + Count(starts[hi..], s)
  {
    assert starts == (starts[..lo] + starts[lo..hi]) + starts[hi..];
    CountAppend(starts[..lo] + starts[lo..hi], starts[hi..], s);
    CountAppend(starts[..lo], starts[lo..hi], s);
  }

  /** The starts found by bisection. */
  function Touched(starts: seq<int>, t: int, durationNs: int): seq<int> {
    var lo := BisectLeft(starts, t - durationNs, 0, |starts|);
    var hi := BisectRight(starts, t, 0, |starts|);
    if lo < hi then starts[lo..hi] else []
  }

  lemma TouchedAre(starts: seq<int>, t: int, durationNs: int) returns (lo: nat, hi: nat)
    requires Ascending(starts)
    ensures lo <= |starts| && hi <= |starts| && Touched(starts, t, durationNs) == if lo < hi then starts[lo..hi] else []
    ensures forall i :: 0 <= i < |starts| ==> (i >= lo <==> starts[i] + durationNs >= t) && (i < hi <==> starts[i] <= t)
  {
    BisectLeftSplits(starts, t - durationNs, 0, |starts|);
    BisectRightSplits(starts, t, 0, |starts|);
    lo := BisectLeft(starts, t - durationNs, 0, |starts|);
    hi := BisectRight(starts, t, 0, |starts|);
  }

  /** Bisection finds the starts whose windows cover `t`, all of them. */
  lemma TouchedCounts(starts: seq<int>, t: int, durationNs: int, s: int)
    requires Ascending(starts)
    ensures Count(Touched(starts, t, durationNs), s) == if Covers(s, durationNs, t) then Count(starts, s) else 0
    ensures forall i :: 0 <= i < |Touched(starts, t, durationNs)| ==> Touched(starts, t, durationNs)[i] in starts
  {
    var lo, hi := TouchedAre(starts, t, durationNs);
    CountAbsent(Touched(starts, t, durationNs), s);
    if Covers(s, durationNs, t) {
      if lo < hi {
        CountSplit(starts, lo, hi, s);
        CountAbsent(starts[..lo], s);
        CountAbsent(starts[hi..], s);
      } else {
        CountAbsent(starts, s);
      }
    }
  }

  /** The maps the stream keeps, over the views seen so far. */
  ghost predicate Collected(views: seq<View>, starts: seq<int>, durationNs: int,
                            buffers: map<int, seq<View>>, carried: map<int, Option<View>>) {
    && buffers.Keys == carried.Keys
    && forall s :: s in starts ==>
                     && s in buffers
                     && buffers[s] == Gathered(views, s, durationNs, Count(starts, s))
                     && carried[s] == Carried(views, s, durationNs)
  }

  lemma GatheredStep(views: seq<View>, i: nat, s: int, durationNs: int, times: nat)
    requires i < |views|
    ensures Gathered(views[..i + 1], s, durationNs, times)
            == Gathered(views[..i], s, durationNs, times) + Copies(views[i], if Covers(s, durationNs, views[i].recvNs) then times else 0)
  {
    assert views[..i + 1][..i] == views[..i];
  }

  lemma CarriedStep(views: seq<View>, i: nat, s: int, durationNs: int, times: nat)
    requires i < |views| && times >= 1
    ensures Carried(views[..i + 1], s, durationNs)
            == if Covers(s, durationNs, views[i].recvNs) && Gathered(views[..i], s, durationNs, times) == [] then LastOf(views[..i])
               else Carried(views[..i], s, durationNs)
  {
    assert views[..i + 1][..i] == views[..i];
    BufferSize(views[..i], s, durationNs, times);
    if Within(views[..i], s, durationNs) != [] {
      Scale(1, |Within(views[..i], s, durationNs)|, times);
    }
  }

  /** One view more: what the touched starts were given keeps the maps in step. */
  lemma CollectedGrows(views: seq<View>, i: nat, starts: seq<int>, durationNs: int,
                       buffers0: map<int, seq<View>>, carried0: map<int, Option<View>>,
                       buffers: map<int, seq<View>>, carried: map<int, Option<View>>)
    requires i < |views| && Ascending(starts) && Collected(views[..i], starts, durationNs, buffers0, carried0)
    requires Distributed(views[i], LastOf(views[..i]), Touched(starts, views[i].recvNs, durationNs), buffers0, carried0, buffers, carried)
    ensures Collected(views[..i + 1], starts, durationNs, buffers, carried)
  {
    var touched := Touched(starts, views[i].recvNs, durationNs);
    forall s | s in starts
      ensures s in buffers && buffers[s] == Gathered(views[..i + 1], s, durationNs, Count(starts, s))
      ensures carried[s] == Carried(views[..i + 1], s, durationNs)
    {
      CountAbsent(starts, s);
      CountAbsent(touched, s);
      TouchedCounts(starts, views[i].recvNs, durationNs, s);
      GatheredStep(views, i, s, durationNs, Count(starts, s));
      CarriedStep(views, i, s, durationNs, Count(starts, s));
    }
  }

  lemma NothingCollected(starts: seq<int>, durationNs: int, buffers: map<int, seq<View>>, carried: map<int, Option<View>>)
    requires buffers.Keys == carried.Keys
    requires forall s :: s in starts ==> s in buffers && buffers[s] == [] && carried[s] == None
    ensures Collected([], starts, durationNs, buffers, carried)
  {
  }

  lemma TouchedHeld(views: seq<View>, starts: seq<int>, t: int, durationNs: int,
                    buffers: map<int, seq<View>>, carried: map<int, Option<View>>)
    requires Ascending(starts) && Collected(views, starts, durationNs, buffers, carried)
    ensures forall i :: 0 <= i < |Touched(starts, t, durationNs)| ==> Touched(starts, t, durationNs)[i] in buffers
  {
    TouchedCounts(starts, t, durationNs, t);
  }

  /** The streaming pass: every view goes to the windows that cover it. */
  method Collect(views: seq<View>, starts: seq<int>, durationNs: int)
    returns (buffers: map<int, seq<View>>, carried: map<int, Option<View>>)
    requires Ascending(starts)
    ensures Collected(views, starts, durationNs, buffers, carried)
  {
    buffers := map s | s in starts :: [];
    carried := map s | s in starts :: None;
    var last: Option<View> := None;
    assert views[..0] == [];
    NothingCollected(starts, durationNs, buffers, carried);
    for i := 0 to |views|
      invariant Collected(views[..i], starts, durationNs, buffers, carried)
      invariant last == LastOf(views[..i])
    {
      var touched := Touched(starts, views[i].recvNs, durationNs);
      TouchedHeld(views[..i], starts, views[i].recvNs, durationNs, buffers, carried);
      var buffers', carried' := Distribute(views[i], last, touched, buffers, carried);
      CollectedGrows(views, i, starts, durationNs, buffers, carried, buffers', carried');
      buffers, carried := buffers', carried';
      last := Some(views[i]);
    }
    assert views[..|views|] == views;
  }
}
