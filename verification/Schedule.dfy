/** What the slicing schedule fills, and the simulator that carries remainders along. */
module Schedule {
  import opened Market
  import opened Execution

  // ---- one slice ----

  /** All the quantity in sight on one side. */
  function Visible(levels: seq<Level>): (total: real)
    ensures total >= 0.0
  {
    if levels == [] then 0.0
    else (if levels[0].qty > 0.0 then levels[0].qty else 0.0) + Visible(levels[1..])
  }

  lemma {:induction false} QuantityCons(f: Fill, rest: seq<Fill>)
    ensures Quantity([f] + rest) == f.qty + Quantity(rest)
  {
    QuantityAppend([f], rest);
    assert [f][..0] == [];
    assert Quantity([f]) == f.qty;
  }

  /** A walk takes what it is asked for, or everything in sight if that is less. */
  lemma {:induction false} WalkTakes(levels: seq<Level>, need: real, ts: int)
    requires need >= 0.0
    ensures Quantity(Walk(levels, need, ts)) == MinReal(need, Visible(levels))
  {
    if levels != [] && need > 0.0 {
      var take := MinReal(need, levels[0].qty);
      if take > 0.0 {
        WalkTakes(levels[1..], need - take, ts);
        QuantityCons(Fill(levels[0].price, take, ts, 0.0), Walk(levels[1..], need - take, ts));
      } else {
        WalkTakes(levels[1..], need, ts);
      }
    }
  }

  /** The quantity filled after `k` slices. */
  function Filled(j: Job, k: nat): real
    requires WellCut(j) && k <= |j.shown|
  {
    Quantity(FillsAfter(j, k))
  }

  // ---- the schedule ----

  /** What cutting a window into slices yields: equal positive shares that add up to the
      order, at instants that ascend inside the window. */
  predicate Workable(j: Job, startNs: int, endNs: int) {
    && WellCut(j) && j.share > 0.0
    && Scheduled(j, |j.shown|) == j.target
    && Ascending(j.times) && forall t :: t in j.times ==> startNs <= t < endNs
  }

  /** What an even schedule wants done after `k` of `n` slices. */
  function EvenSchedule(target: real, n: nat, k: nat): real
    requires n > 0
  {
    k as real * target / n as real
  }

  /** The schedule after `k` slices, in closed form. */
  lemma {:induction false} ScheduledIs(j: Job, n: nat, k: nat)
    requires n > 0 && j.share == j.target / n as real
    ensures Scheduled(j, k) == EvenSchedule(j.target, n, k)
  {
    if k > 0 {
      ScheduledIs(j, n, k - 1);
      AddShare((k - 1) as real, j.target, n as real);
    }
  }

  lemma AddShare(k: real, target: real, n: real)
    requires n > 0.0
    ensures k * target / n + target / n == (k + 1.0) * target / n
  {
    assert k * target + target == (k + 1.0) * target;
  }

  lemma PlanIsWorkable(order: Order, views: seq<View>, startNs: int, endNs: int, slices: nat)
    requires slices > 0 && startNs < endNs && order.targetQty > 0.0
    ensures Workable(Plan(order, views, startNs, endNs, slices), startNs, endNs)
  {
    var j := Plan(order, views, startNs, endNs, slices);
    ScheduledIs(j, slices, slices);
    CancelShare(order.targetQty, slices as real);
    forall k | 0 <= k < slices
      ensures startNs <= j.times[k] < endNs
    {
      SliceInside(endNs - startNs, slices, k);
    }
    forall k, m | 0 <= k < m < slices
      ensures j.times[k] <= j.times[m]
    {
      Scale(k, m, (endNs - startNs) / slices);
    }
  }

  /** The instants are evenly spaced from the start, as far apart as fit before the end, and each
      slice meets the other side of the view standing at its own. */
  lemma PlanIsEven(order: Order, views: seq<View>, startNs: int, endNs: int, slices: nat) returns (gap: nat)
    requires slices > 0 && startNs < endNs
    ensures slices * gap <= endNs - startNs < slices * (gap + 1)
    ensures var j := Plan(order, views, startNs, endNs, slices);
            && |j.times| == |j.shown| == slices && j.target == order.targetQty
            && j.times[0] == startNs && (forall k :: 0 < k < slices ==> j.times[k] == j.times[k - 1] + gap)
            && (forall k :: 0 <= k < slices ==> j.times[k] == InstantOf(startNs, gap, k))
            && (forall k :: 0 <= k < slices ==> j.shown[k] == ShownAt(order.side, views, InstantOf(startNs, gap, k)))
  {
    gap := (endNs - startNs) / slices;
    LargestGap(endNs - startNs, slices);
    EvenTimes(startNs, gap, slices);
  }

  lemma EvenTimes(startNs: int, gap: nat, slices: nat)
    requires slices > 0
    ensures var times := SliceTimes(startNs, gap, slices);
            && times[0] == startNs && (forall k :: 0 < k < slices ==> times[k] == times[k - 1] + gap)
            && forall k :: 0 <= k < slices ==> times[k] == InstantOf(startNs, gap, k)
  {
    var times := SliceTimes(startNs, gap, slices);
    forall k | 0 < k < slices
      ensures times[k] == times[k - 1] + gap
    {
      StepOn(k, gap);
    }
  }

  /** The instant of slice `k`. */
  function InstantOf(startNs: int, gap: nat, k: nat): int {
    startNs + k * gap
  }

  lemma CancelShare(target: real, n: real)
    requires n > 0.0 && target > 0.0
    ensures n * target / n == target && target / n > 0.0
  {
  }

  lemma SliceInside(span: nat, slices: nat, k: nat)
    requires k < slices && span > 0
    ensures 0 <= k * (span / slices) < span
  {
    var step := span / slices;
    Scale(k, slices - 1, step);
    assert (slices - 1) * step == slices * step - step;
    assert slices * step <= span;
  }

  lemma {:induction false} ScheduleGrows(j: Job, k: nat, m: nat)
    requires j.share > 0.0 && k <= m
    ensures Scheduled(j, k) <= Scheduled(j, m)
    ensures k < m ==> Scheduled(j, k) < Scheduled(j, m)
    decreases m
  {
    if k < m {
      ScheduleGrows(j, k, m - 1);
    }
  }

  /** Where a total stands that each slice brings up to the schedule, or as far as the
      depth it meets reaches. */
  function Reached(j: Job, k: nat): real
    requires k <= |j.shown|
  {
    if k == 0 then 0.0 else MinReal(Scheduled(j, k), Reached(j, k - 1) + Visible(j.shown[k - 1]))
  }

  lemma {:induction false} ReachedWithin(j: Job, k: nat)
    requires j.share > 0.0 && k <= |j.shown|
    ensures 0.0 <= Reached(j, k) <= Scheduled(j, k)
    ensures k > 0 ==> Reached(j, k - 1) <= Reached(j, k)
  {
    if k > 0 {
      ReachedWithin(j, k - 1);
      assert Scheduled(j, k) == Scheduled(j, k - 1) + j.share;
    }
  }

  lemma SliceAdds(j: Job, k: nat)
    requires WellCut(j) && k < |j.shown| && Scheduled(j, k + 1) >= Filled(j, k)
    ensures Filled(j, k + 1) == MinReal(Scheduled(j, k + 1), Filled(j, k) + Visible(j.shown[k]))
  {
    var before := FillsAfter(j, k);
    var due := Owed(j, k + 1, before);
    WalkTakes(j.shown[k], due, j.times[k]);
    QuantityAppend(before, Walk(j.shown[k], due, j.times[k]));
  }

  lemma NoneAhead(j: Job, k: nat)
    requires j.share > 0.0 && k < |j.shown|
    ensures Reached(j, k) <= Scheduled(j, k + 1)
  {
    ReachedWithin(j, k);
    assert Scheduled(j, k + 1) == Scheduled(j, k) + j.share;
  }

  /** Each slice brings the fills up to the schedule, or as far as the book reaches. */
  lemma {:induction false} FilledIsReached(j: Job, k: nat)
    requires WellCut(j) && j.share > 0.0 && k <= |j.shown|
    ensures Filled(j, k) == Reached(j, k)
  {
    if k > 0 {
      FilledIsReached(j, k - 1);
      NoneAhead(j, k - 1);
      SliceAdds(j, k - 1);
    }
  }

  /** The opposite depth shown at slices `a` to `b - 1`. */
  function DepthBetween(j: Job, a: nat, b: nat): real
    requires b <= |j.shown|
    decreases b
  {
    if b <= a then 0.0 else DepthBetween(j, a, b - 1) + Visible(j.shown[b - 1])
  }

  /** The quantity filled after `k` slices is the least, over every slice `i`, of what
      the schedule allowed by `i` plus what the book has shown since. */
  lemma {:induction false} ReachedIsTightest(j: Job, k: nat)
    requires j.share > 0.0 && k <= |j.shown|
    ensures forall i: nat :: i <= k ==> Reached(j, k) <= Scheduled(j, i) + DepthBetween(j, i, k)
    ensures exists i: nat :: i <= k && Reached(j, k) == Scheduled(j, i) + DepthBetween(j, i, k)
  {
    if k == 0 {
      assert Reached(j, 0) == Scheduled(j, 0) + DepthBetween(j, 0, 0);
    } else {
      ReachedIsTightest(j, k - 1);
      forall i: nat | i <= k
        ensures Reached(j, k) <= Scheduled(j, i) + DepthBetween(j, i, k)
      {
        if i < k {
          assert Reached(j, k - 1) <= Scheduled(j, i) + DepthBetween(j, i, k - 1);
        }
      }
      if Reached(j, k) == Scheduled(j, k) {
        assert Reached(j, k) == Scheduled(j, k) + DepthBetween(j, k, k);
      } else {
        var i: nat :| i <= k - 1 && Reached(j, k - 1) == Scheduled(j, i) + DepthBetween(j, i, k - 1);
        assert Reached(j, k) == Scheduled(j, i) + DepthBetween(j, i, k);
      }
    }
  }

  function Total(a: seq<real>): real {
    if a == [] then 0.0 else Total(a[..|a| - 1]) + a[|a| - 1]
  }

  /** Quantities per slice that the book could supply and that never run ahead of schedule. */
  ghost predicate Allowed(j: Job, a: seq<real>) {
    && |a| <= |j.shown|
    && (forall k :: 0 <= k < |a| ==> 0.0 <= a[k] <= Visible(j.shown[k]))
    && (forall k :: 0 <= k <= |a| ==> Total(a[..k]) <= Scheduled(j, k))
  }

  /** No allowed allocation has filled more at any point. */
  lemma {:induction false} ReachedIsMost(j: Job, a: seq<real>)
    requires j.share > 0.0 && Allowed(j, a)
    ensures Total(a) <= Reached(j, |a|)
  {
    assert a[..|a|] == a;
    if a != [] {
      var n := |a| - 1;
      forall k | 0 <= k <= n
        ensures a[..n][..k] == a[..k]
      {
      }
      ReachedIsMost(j, a[..n]);
    }
  }

  /** In the simulator's own terms: the quantity filled never exceeds the order, and is the
      least over all slices of the even schedule up to that slice plus the depth shown since. */
  lemma SimulatedQuantity(order: Order, views: seq<View>, startNs: int, endNs: int, slices: nat)
    requires views != [] && startNs < endNs && order.targetQty > 0.0 && slices > 0
    ensures var j := Plan(order, views, startNs, endNs, slices);
            var q := Quantity(Simulated(order, views, startNs, endNs, slices).value);
            && 0.0 <= q <= order.targetQty
            && (forall i: nat :: i <= slices ==> q <= EvenSchedule(order.targetQty, slices, i) + DepthBetween(j, i, slices))
            && (exists i: nat :: i <= slices && q == EvenSchedule(order.targetQty, slices, i) + DepthBetween(j, i, slices))
  {
    var j := Plan(order, views, startNs, endNs, slices);
    PlanIsWorkable(order, views, startNs, endNs, slices);
    FilledIsReached(j, slices);
    ReachedWithin(j, slices);
    ReachedIsTightest(j, slices);
    forall i: nat | i <= slices
      ensures Scheduled(j, i) == EvenSchedule(order.targetQty, slices, i)
    {
      ScheduledIs(j, slices, i);
    }
    var i: nat :| i <= slices && Reached(j, slices) == Scheduled(j, i) + DepthBetween(j, i, slices);
    assert Reached(j, slices) == EvenSchedule(order.targetQty, slices, i) + DepthBetween(j, i, slices);
  }

  /** No way of working the order that takes at each slice what the book shows and never
      runs ahead of schedule fills more than the simulator does. */
  lemma SimulatorFillsMost(order: Order, views: seq<View>, startNs: int, endNs: int, slices: nat, a: seq<real>)
    requires views != [] && startNs < endNs && order.targetQty > 0.0 && slices > 0
    requires Allowed(Plan(order, views, startNs, endNs, slices), a) && |a| == slices
    ensures Total(a) <= Quantity(Simulated(order, views, startNs, endNs, slices).value)
  {
    var j := Plan(order, views, startNs, endNs, slices);
    PlanIsWorkable(order, views, startNs, endNs, slices);
    FilledIsReached(j, slices);
    ReachedIsMost(j, a);
  }

  // ---- stamps ----

  lemma {:induction false} WalkStamps(levels: seq<Level>, need: real, ts: int)
    ensures forall f :: f in Walk(levels, need, ts) ==> f.tsNs == ts
  {
    if levels != [] && need > 0.0 {
      var take := MinReal(need, levels[0].qty);
      WalkStamps(levels[1..], if take > 0.0 then need - take else need, ts);
    }
  }

  predicate StampsAscend(fills: seq<Fill>) {
    forall i, k :: 0 <= i < k < |fills| ==> fills[i].tsNs <= fills[k].tsNs
  }

  lemma AppendStamps(a: seq<Fill>, b: seq<Fill>, s: int, t: int)
    requires StampsAscend(a) && s <= t
    requires (forall f :: f in a ==> s <= f.tsNs <= t) && (forall f :: f in b ==> f.tsNs == t)
    ensures StampsAscend(a + b) && forall f :: f in a + b ==> s <= f.tsNs <= t
  {
    forall i, k | 0 <= i < k < |a + b|
      ensures (a + b)[i].tsNs <= (a + b)[k].tsNs
    {
      if i < |a| { assert a[i] in a; } else { assert b[i - |a|] in b; }
      if k >= |a| { assert b[k - |a|] in b; }
    }
  }

  /** The fills of the first `k` slices are stamped in order, none later than slice `k - 1`. */
  lemma {:induction false} StampsBySlice(j: Job, k: nat)
    requires WellCut(j) && Ascending(j.times) && k <= |j.shown|
    ensures StampsAscend(FillsAfter(j, k))
    ensures forall f :: f in FillsAfter(j, k) ==> k > 0 && j.times[0] <= f.tsNs <= j.times[k - 1]
  {
    if k > 0 {
      StampsBySlice(j, k - 1);
      var before := FillsAfter(j, k - 1);
      var taken := Walk(j.shown[k - 1], Owed(j, k, before), j.times[k - 1]);
      WalkStamps(j.shown[k - 1], Owed(j, k, before), j.times[k - 1]);
      AppendStamps(before, taken, j.times[0], j.times[k - 1]);
    }
  }

  lemma PlannedStamps(j: Job, startNs: int, endNs: int)
    requires Workable(j, startNs, endNs)
    ensures StampsAscend(FillsAfter(j, |j.shown|))
    ensures forall f :: f in FillsAfter(j, |j.shown|) ==> startNs <= f.tsNs < endNs
  {
    var n := |j.shown|;
    StampsBySlice(j, n);
    if n > 0 {
      assert j.times[0] in j.times && j.times[n - 1] in j.times;
    }
  }

  /** Fills are stamped in order, no earlier than the start and before the end. */
  lemma FillStamps(order: Order, views: seq<View>, startNs: int, endNs: int, slices: int)
    requires Simulated(order, views, startNs, endNs, slices).Ok?
    ensures var fills := Simulated(order, views, startNs, endNs, slices).value;
            StampsAscend(fills) && forall f :: f in fills ==> startNs <= f.tsNs < endNs
  {
    if views != [] && startNs < endNs && order.targetQty > 0.0 && slices > 0 {
      PlanIsWorkable(order, views, startNs, endNs, slices);
      PlannedStamps(Plan(order, views, startNs, endNs, slices), startNs, endNs);
    }
  }

  // ---- the simulator ----

  /** Works the order slice by slice, carrying what a slice could not fill to the next. */
  method SimulateChildOrders(order: Order, views: seq<View>, startNs: int, endNs: int, slices: int)
    returns (r: Result<seq<Fill>>)
    ensures r == Simulated(order, views, startNs, endNs, slices)
  {
    if views == [] || startNs >= endNs || order.targetQty <= 0.0 {
      return Ok([]);
    }
    if slices == 0 {
      return Err(ArithmeticError);
    }
    if slices < 0 {
      return Ok([]);
    }
    var timeStep := (endNs - startNs) / slices;
    var times := SliceTimes(startNs, timeStep, slices);
    var base := order.targetQty / slices as real;
    PlanIsWorkable(order, views, startNs, endNs, slices);
    var fills, carry, remaining := WorkSlices(order, views, times, base, Plan(order, views, startNs, endNs, slices), startNs, endNs);
    r := Ok(fills);
  }

  /** One child order: crosses to the other side of the view standing at `t`. */
  method WorkSlice(side: Side, views: seq<View>, stamps: seq<int>, t: int, target: real)
    returns (taken: seq<Fill>, filled: real)
    requires stamps == Stamps(views)
    ensures taken == Walk(ShownAt(side, views, t), target, t) && filled == Quantity(taken)
  {
    var at := BisectRight(stamps, t, 0, |views|);
    if at == 0 {
      return [], 0.0;
    }
    var view := views[at - 1];
    taken, filled := WalkSide(if side == Bid then view.asks else view.bids, target, t);
  }

  /** One turn of the loop over the slices. */
  method TakeSlice(side: Side, views: seq<View>, stamps: seq<int>, t: int, target: real, fills: seq<Fill>, remaining: real)
    returns (fills': seq<Fill>, carry': real, remaining': real)
    requires stamps == Stamps(views)
    ensures Progress(fills', carry', remaining') == Advanced(fills, remaining, ShownAt(side, views, t), target, t)
  {
    var taken, filled := WorkSlice(side, views, stamps, t, target);
    return fills + taken, target - filled, remaining - filled;
  }

  /** The loop over the slices: what it has filled, what the last slice could not, and what
      is left of the order. On a schedule the fills are those without carry, cap or stop, and
      the carry is the unfilled rest of the order. */
  method WorkSlices(order: Order, views: seq<View>, times: seq<int>, base: real, ghost j: Job, ghost startNs: int, ghost endNs: int)
    returns (fills: seq<Fill>, carry: real, remaining: real)
    requires Workable(j, startNs, endNs)
    requires j.target == order.targetQty && j.share == base && j.times == times
    requires j.shown == SlicesShown(order.side, views, times)
    ensures Looped(j, |times|) == Progress(fills, carry, remaining)
    ensures fills == FillsAfter(j, |times|)
    ensures carry == remaining == order.targetQty - Quantity(fills)
  {
    fills, carry, remaining := LoopSlices(order, views, times, base, j);
    LoopEnds(j, startNs, endNs);
  }

  method LoopSlices(order: Order, views: seq<View>, times: seq<int>, base: real, ghost j: Job)
    returns (fills: seq<Fill>, carry: real, remaining: real)
    requires WellCut(j) && j.target == order.targetQty && j.share == base && j.times == times
    requires j.shown == SlicesShown(order.side, views, times)
    ensures Looped(j, |times|) == Progress(fills, carry, remaining)
  {
    fills, carry, remaining := [], 0.0, order.targetQty;
    var stamps := Stamps(views);
    var i := 0;
    while i < |times|
      invariant 0 <= i <= |times|
      invariant Looped(j, i) == Progress(fills, carry, remaining)
    {
      if remaining <= 0.0 {
        LoopStays(j, i, |times|);
        break;
      }
      var target := MinReal(base + carry, remaining);
      ghost var p := Progress(fills, carry, remaining);
      fills, carry, remaining := TakeSlice(order.side, views, stamps, times[i], target, fills, remaining);
      LoopedNext(j, i, p, ShownAt(order.side, views, times[i]), target, times[i]);
      i := i + 1;
    }
  }

  lemma LoopedNext(j: Job, i: nat, p: Progress, levels: seq<Level>, target: real, t: int)
    requires WellCut(j) && i < |j.shown| && Looped(j, i) == p && p.remaining > 0.0
    requires levels == j.shown[i] && target == MinReal(j.share + p.carry, p.remaining) && t == j.times[i]
    ensures Looped(j, i + 1) == Advanced(p.fills, p.remaining, levels, target, t)
  {
  }

  lemma {:induction false} LoopStays(j: Job, i: nat, k: nat)
    requires WellCut(j) && i <= k <= |j.shown| && Looped(j, i).remaining <= 0.0
    ensures Looped(j, k) == Looped(j, i)
    decreases k
  {
    if i < k {
      LoopStays(j, i, k - 1);
    }
  }

  /** What the loop carries from slice to slice. */
  datatype Progress = Progress(fills: seq<Fill>, carry: real, remaining: real)

  /** The loop on values after `k` slices, with its carry, its cap and its early stop. */
  function Looped(j: Job, k: nat): Progress
    requires WellCut(j) && k <= |j.shown|
  {
    if k == 0 then Progress([], 0.0, j.target)
    else
      var p := Looped(j, k - 1);
      if p.remaining <= 0.0 then p
      else Advanced(p.fills, p.remaining, j.shown[k - 1], MinReal(j.share + p.carry, p.remaining), j.times[k - 1])
  }

  /** A slice that walks for `target`. */
  function Advanced(fills: seq<Fill>, remaining: real, levels: seq<Level>, target: real, ts: int): Progress {
    var taken := Walk(levels, target, ts);
    Progress(fills + taken, target - Quantity(taken), remaining - Quantity(taken))
  }

  /** The fills are those of the schedule, filled plus carry is the schedule so far, and what
      remains is the rest of the order. */
  predicate OnSchedule(j: Job, k: nat, p: Progress)
    requires WellCut(j) && k <= |j.shown|
  {
    && p.fills == FillsAfter(j, k)
    && Quantity(p.fills) + p.carry == Scheduled(j, k)
    && p.remaining == j.target - Quantity(p.fills)
  }

  predicate NotDone(j: Job, p: Progress) {
    p.remaining > 0.0 && MinReal(j.share + p.carry, p.remaining) == j.share + p.carry
  }

  lemma OnScheduleNotDone(j: Job, startNs: int, endNs: int, k: nat, p: Progress)
    requires Workable(j, startNs, endNs) && k < |j.shown| && OnSchedule(j, k, p)
    ensures NotDone(j, p) && j.share + p.carry == Owed(j, k + 1, p.fills)
  {
    OwedAtSlice(j, startNs, endNs, k, p.fills, p.carry, p.remaining);
  }

  /** After every number of slices the loop is on schedule. */
  lemma {:induction false} LoopKeepsSchedule(j: Job, startNs: int, endNs: int, k: nat)
    requires Workable(j, startNs, endNs) && k <= |j.shown|
    ensures OnSchedule(j, k, Looped(j, k))
  {
    if k > 0 {
      LoopKeepsSchedule(j, startNs, endNs, k - 1);
      OnScheduleNotDone(j, startNs, endNs, k - 1, Looped(j, k - 1));
      LoopedNext(j, k - 1, Looped(j, k - 1), j.shown[k - 1], Owed(j, k, Looped(j, k - 1).fills), j.times[k - 1]);
      AdvancedOnSchedule(j, k, Looped(j, k - 1));
    }
  }

  /** While slices remain the loop has not stopped, and its cap does not bind. */
  lemma LoopGoesOn(j: Job, startNs: int, endNs: int, k: nat)
    requires Workable(j, startNs, endNs) && k < |j.shown|
    ensures NotDone(j, Looped(j, k))
    ensures Looped(j, k + 1) == Advanced(Looped(j, k).fills, Looped(j, k).remaining, j.shown[k], j.share + Looped(j, k).carry, j.times[k])
  {
    LoopKeepsSchedule(j, startNs, endNs, k);
    OnScheduleNotDone(j, startNs, endNs, k, Looped(j, k));
    LoopedNext(j, k, Looped(j, k), j.shown[k], j.share + Looped(j, k).carry, j.times[k]);
  }

  /** At the end the carry is what remains of the order. */
  lemma LoopEnds(j: Job, startNs: int, endNs: int)
    requires Workable(j, startNs, endNs)
    ensures var p := Looped(j, |j.shown|);
            p.fills == FillsAfter(j, |j.shown|) && p.carry == p.remaining == j.target - Quantity(p.fills)
  {
    LoopKeepsSchedule(j, startNs, endNs, |j.shown|);
  }

  lemma AdvancedOnSchedule(j: Job, k: nat, p: Progress)
    requires WellCut(j) && 0 < k <= |j.shown| && OnSchedule(j, k - 1, p)
    ensures OnSchedule(j, k, Advanced(p.fills, p.remaining, j.shown[k - 1], Owed(j, k, p.fills), j.times[k - 1]))
  {
    var due := Owed(j, k, p.fills);
    QuantityAppend(p.fills, Walk(j.shown[k - 1], due, j.times[k - 1]));
  }

  /** In the simulator's own terms: after `k` slices filled plus carry is `k` times the target
      over the number of slices. */
  lemma FilledPlusCarry(order: Order, views: seq<View>, startNs: int, endNs: int, slices: nat, k: nat)
    requires startNs < endNs && order.targetQty > 0.0 && k <= slices && slices > 0
    ensures var p := Looped(Plan(order, views, startNs, endNs, slices), k);
            Quantity(p.fills) + p.carry == EvenSchedule(order.targetQty, slices, k)
  {
    var j := Plan(order, views, startNs, endNs, slices);
    PlanIsWorkable(order, views, startNs, endNs, slices);
    LoopKeepsSchedule(j, startNs, endNs, k);
    ScheduledIs(j, slices, k);
  }

  /** While slices remain the order is not done, so the simulator never stops early; and
      a slice's share plus the carry never exceeds what remains, so the cap never binds. */
  lemma OwedAtSlice(j: Job, startNs: int, endNs: int, i: nat, fills: seq<Fill>, carry: real, remaining: real)
    requires Workable(j, startNs, endNs) && i < |j.shown| && fills == FillsAfter(j, i)
    requires Quantity(fills) + carry == Scheduled(j, i) && remaining == j.target - Quantity(fills)
    ensures remaining > 0.0
    ensures MinReal(j.share + carry, remaining) == j.share + carry == Owed(j, i + 1, fills)
  {
    FilledIsReached(j, i);
    ReachedWithin(j, i);
    ScheduleGrows(j, i, |j.shown|);
    ScheduleGrows(j, i + 1, |j.shown|);
  }
}
