/** Working an order on a schedule against recorded views, and pricing the result. */
module Execution {
  import opened Market

  datatype Order = Order(side: Side, targetQty: real, decisionNs: int)

  datatype Fill = Fill(price: real, qty: real, tsNs: int, fee: real)

  // ---- the view contemporaneous with an instant ----

  function Stamps(views: seq<View>): (ts: seq<int>)
    ensures |ts| == |views| && forall i :: 0 <= i < |views| ==> ts[i] == views[i].recvNs
  {
    seq(|views|, i requires 0 <= i < |views| => views[i].recvNs)
  }

  predicate Ascending(ts: seq<int>) {
    forall i, j :: 0 <= i < j < |ts| ==> ts[i] <= ts[j]
  }

  /** `bisect.bisect_right` between `lo` and `hi`. */
  function BisectRight(ts: seq<int>, x: int, lo: nat, hi: nat): (at: nat)
    requires lo <= hi <= |ts|
    ensures lo <= at <= hi
    decreases hi - lo
  {
    if lo == hi then lo
    else
      var mid := (lo + hi) / 2;
      if x < ts[mid] then BisectRight(ts, x, lo, mid) else BisectRight(ts, x, mid + 1, hi)
  }

  /** `bisect.bisect_left` between `lo` and `hi`. */
  function BisectLeft(ts: seq<int>, x: int, lo: nat, hi: nat): (at: nat)
    requires lo <= hi <= |ts|
    ensures lo <= at <= hi
    decreases hi - lo
  {
    if lo == hi then lo
    else
      var mid := (lo + hi) / 2;
      if ts[mid] < x then BisectLeft(ts, x, mid + 1, hi) else BisectLeft(ts, x, lo, mid)
  }

  /** The last view stamped at or before `t`, found by bisection. */
  function AsOf(views: seq<View>, t: int): Option<View> {
    var at := BisectRight(Stamps(views), t, 0, |views|);
    if at == 0 then None else Some(views[at - 1])
  }

  /** The views stamped at or before `t`, found by looking at every one. */
  function UpTo(views: seq<View>, t: int): seq<View> {
    if views == [] then []
    else
      var n := |views| - 1;
      UpTo(views[..n], t) + if views[n].recvNs <= t then [views[n]] else []
  }

  // ---- benchmarks ----

  function Mid(v: View): Result<real> {
    if v.bids == [] || v.asks == [] then Err(IndexError)
    else Ok((v.bids[0].price + v.asks[0].price) / 2.0)
  }

  function MidAt(t: int, views: seq<View>): Result<real> {
    match AsOf(views, t)
    case None => Err(ValueError)
    case Some(v) => Mid(v)
  }

  /** The mid at the decision, by the linear filter. */
  function ArrivalPrice(order: Order, views: seq<View>): Result<real> {
    var valid := UpTo(views, order.decisionNs);
    if valid == [] then Err(ValueError) else Mid(valid[|valid| - 1])
  }

  datatype Weights = Weights(pv: real, volume: real, buckets: nat)

  /** One bucket: weighted if it lies in the window and has a view `at` it. */
  function AddBucket(w: Weights, at: Option<View>, bucket: (int, real), startNs: int, endNs: int): Result<Weights> {
    if !(startNs <= bucket.0 <= endNs) || at.None? then Ok(w)
    else
      match Mid(at.value)
      case Err(e) => Err(e)
      case Ok(mid) => Ok(Weights(w.pv + mid * bucket.1, w.volume + bucket.1, w.buckets + 1))
  }

  function Weighted(views: seq<View>, volumes: seq<(int, real)>, startNs: int, endNs: int): Result<Weights> {
    if volumes == [] then Ok(Weights(0.0, 0.0, 0))
    else
      var n := |volumes| - 1;
      match Weighted(views, volumes[..n], startNs, endNs)
      case Err(e) => Err(e)
      case Ok(w) => AddBucket(w, AsOf(views, volumes[n].0), volumes[n], startNs, endNs)
  }

  function Average(w: Weights): real
    requires w.volume != 0.0
  {
    w.pv / w.volume
  }

  lemma WeightedStep(views: seq<View>, volumes: seq<(int, real)>, startNs: int, endNs: int, i: nat)
    requires i < |volumes| && Weighted(views, volumes[..i], startNs, endNs).Ok?
    ensures Weighted(views, volumes[..i + 1], startNs, endNs)
            == AddBucket(Weighted(views, volumes[..i], startNs, endNs).value, AsOf(views, volumes[i].0), volumes[i], startNs, endNs)
  {
    assert volumes[..i + 1][..i] == volumes[..i];
  }

  function Vwap(views: seq<View>, volumes: seq<(int, real)>, startNs: int, endNs: int): Result<real> {
    if endNs <= startNs || views == [] || volumes == [] then Err(ValueError)
    else
      match Weighted(views, volumes, startNs, endNs)
      case Err(e) => Err(e)
      case Ok(w) => if w.buckets == 0 || w.volume == 0.0 then Err(ValueError) else Ok(Average(w))
  }

  method IntervalVwap(views: seq<View>, volumes: seq<(int, real)>, startNs: int, endNs: int) returns (r: Result<real>)
    ensures r == Vwap(views, volumes, startNs, endNs)
  {
    if endNs <= startNs || views == [] || volumes == [] {
      return Err(ValueError);
    }
    var stamps := Stamps(views);
    var totals := Weights(0.0, 0.0, 0);
    assert volumes[..0] == [];
    for i := 0 to |volumes|
      invariant Weighted(views, volumes[..i], startNs, endNs).Ok?
      invariant Weighted(views, volumes[..i], startNs, endNs).value == totals
    {
      WeightedStep(views, volumes, startNs, endNs, i);
      var added := Weigh(totals, views, stamps, volumes[i], startNs, endNs);
      if added.Err? {
        WeightedFails(views, volumes, startNs, endNs, i + 1);
        return Err(added.error);
      }
      totals := added.value;
    }
    assert volumes[..|volumes|] == volumes;
    if totals.buckets == 0 || totals.volume == 0.0 {
      return Err(ValueError);
    }
    r := Ok(Average(totals));
  }

  /** One bucket of the loop. */
  method Weigh(w: Weights, views: seq<View>, stamps: seq<int>, bucket: (int, real), startNs: int, endNs: int) returns (r: Result<Weights>)
    requires stamps == Stamps(views)
    ensures r == AddBucket(w, AsOf(views, bucket.0), bucket, startNs, endNs)
  {
    r := Ok(w);
    if startNs <= bucket.0 <= endNs {
      var at := BisectRight(stamps, bucket.0, 0, |views|);
      if at > 0 {
        var mid := Mid(views[at - 1]);
        ghost var added := AddBucket(w, Some(views[at - 1]), bucket, startNs, endNs);
        if mid.Err? {
          r := Err(mid.error);
          assert added.Err? && added.error == mid.error;
        } else {
          r := Ok(Weights(w.pv + mid.value * bucket.1, w.volume + bucket.1, w.buckets + 1));
          assert added.Ok? && added.value == r.value;
        }
      }
    }
  }

  lemma {:induction false} WeightedFails(views: seq<View>, volumes: seq<(int, real)>, startNs: int, endNs: int, i: nat)
    requires i <= |volumes| && Weighted(views, volumes[..i], startNs, endNs).Err?
    ensures Weighted(views, volumes, startNs, endNs) == Weighted(views, volumes[..i], startNs, endNs)
  {
    if i == |volumes| {
      assert volumes[..i] == volumes;
    } else {
      var init := volumes[..|volumes| - 1];
      assert init[..i] == volumes[..i];
      WeightedFails(views, init, startNs, endNs, i);
    }
  }

  // ---- the simulator ----

  function Quantity(fills: seq<Fill>): real {
    if fills == [] then 0.0 else Quantity(fills[..|fills| - 1]) + fills[|fills| - 1].qty
  }

  function Notional(fills: seq<Fill>): real {
    if fills == [] then 0.0 else Notional(fills[..|fills| - 1]) + fills[|fills| - 1].price * fills[|fills| - 1].qty
  }

  /** The fills of a walk for `need` down `levels`, one per level taken from. */
  function Walk(levels: seq<Level>, need: real, ts: int): seq<Fill> {
    if levels == [] || need <= 0.0 then []
    else
      var take := MinReal(need, levels[0].qty);
      if take > 0.0 then [Fill(levels[0].price, take, ts, 0.0)] + Walk(levels[1..], need - take, ts)
      else Walk(levels[1..], need, ts)
  }

  /** The side a child order of `side` takes from. */
  function Taken(side: Side, v: View): seq<Level> {
    if side == Bid then v.asks else v.bids
  }

  /** The opposite side as it stands at `t`; nothing when no view has arrived by then. */
  function ShownAt(side: Side, views: seq<View>, t: int): seq<Level> {
    match AsOf(views, t)
    case None => []
    case Some(v) => Taken(side, v)
  }

  /** An order cut into slices: the quantity each owes, its instant, and the levels it meets. */
  datatype Job = Job(target: real, share: real, times: seq<int>, shown: seq<seq<Level>>)

  predicate WellCut(j: Job) {
    |j.times| == |j.shown|
  }

  function SliceTimes(startNs: int, step: int, slices: nat): (times: seq<int>)
    ensures |times| == slices && forall k :: 0 <= k < slices ==> times[k] == startNs + k * step
  {
    seq(slices, k => startNs + k * step)
  }

  function SlicesShown(side: Side, views: seq<View>, times: seq<int>): (shown: seq<seq<Level>>)
    ensures |shown| == |times| && forall k :: 0 <= k < |times| ==> shown[k] == ShownAt(side, views, times[k])
  {
    seq(|times|, k requires 0 <= k < |times| => ShownAt(side, views, times[k]))
  }

  function Plan(order: Order, views: seq<View>, startNs: int, endNs: int, slices: nat): (j: Job)
    requires slices > 0
    ensures WellCut(j) && |j.shown| == slices
  {
    var times := SliceTimes(startNs, (endNs - startNs) / slices, slices);
    Job(order.targetQty, order.targetQty / slices as real, times, SlicesShown(order.side, views, times))
  }

  /** The quantity the schedule wants done once `k` slices have passed. */
  function Scheduled(j: Job, k: nat): real {
    if k == 0 then 0.0 else Scheduled(j, k - 1) + j.share
  }

  /** How far `done` is behind the schedule at slice `k`. */
  function Owed(j: Job, k: nat, done: seq<Fill>): real {
    Scheduled(j, k) - Quantity(done)
  }

  /** The fills of the first `k` slices: each walks for whatever the schedule is still owed.
      There is no carry, no cap and no early stop in this form. */
  function FillsAfter(j: Job, k: nat): seq<Fill>
    requires WellCut(j) && k <= |j.shown|
  {
    if k == 0 then []
    else
      var before := FillsAfter(j, k - 1);
      before + Walk(j.shown[k - 1], Owed(j, k, before), j.times[k - 1])
  }

  function Simulated(order: Order, views: seq<View>, startNs: int, endNs: int, slices: int): Result<seq<Fill>> {
    if views == [] || startNs >= endNs || order.targetQty <= 0.0 then Ok([])
    else if slices == 0 then Err(ArithmeticError)
    else if slices < 0 then Ok([])
    else Ok(FillsAfter(Plan(order, views, startNs, endNs, slices), slices))
  }

  lemma {:induction false} QuantityAppend(a: seq<Fill>, b: seq<Fill>)
    ensures Quantity(a + b) == Quantity(a) + Quantity(b)
  {
    if b == [] {
      assert a + b == a;
    } else {
      var n := |b| - 1;
      assert (a + b)[..|a + b| - 1] == a + b[..n];
      QuantityAppend(a, b[..n]);
    }
  }

  lemma WalkUnfolds(levels: seq<Level>, i: nat, need: real, ts: int)
    requires i < |levels| && need > 0.0
    ensures var take := MinReal(need, levels[i].qty);
            Walk(levels[i..], need, ts)
            == if take > 0.0 then [Fill(levels[i].price, take, ts, 0.0)] + Walk(levels[i + 1..], need - take, ts)
               else Walk(levels[i + 1..], need, ts)
  {
    assert levels[i..][1..] == levels[i + 1..];
  }

  lemma QuantitySnoc(fills: seq<Fill>, f: Fill)
    ensures Quantity(fills + [f]) == Quantity(fills) + f.qty
  {
    assert (fills + [f])[..|fills|] == fills;
  }

  /** Walks one side of a view until `target` is taken or the levels run out. */
  method WalkSide(levels: seq<Level>, target: real, ts: int) returns (fills: seq<Fill>, filled: real)
    ensures fills == Walk(levels, target, ts) && filled == Quantity(fills)
  {
    fills, filled := [], 0.0;
    var i := 0;
    ghost var whole := Walk(levels, target, ts);
    assert levels[0..] == levels;
    while i < |levels|
      invariant 0 <= i <= |levels|
      invariant filled == Quantity(fills)
      invariant fills + Walk(levels[i..], target - filled, ts) == whole
    {
      var needed := target - filled;
      if needed <= 0.0 {
        break;
      }
      WalkUnfolds(levels, i, needed, ts);
      var take := MinReal(needed, levels[i].qty);
      if take > 0.0 {
        var f := Fill(levels[i].price, take, ts, 0.0);
        QuantitySnoc(fills, f);
        MoveOne(fills, f, Walk(levels[i + 1..], needed - take, ts));
        fills := fills + [f];
        filled := filled + take;
        assert target - filled == needed - take;
      }
      i := i + 1;
    }
    assert Walk(levels[i..], target - filled, ts) == [];
    assert fills + [] == fills;
  }
}
