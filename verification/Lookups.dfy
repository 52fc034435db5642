/** Bisection finds the last view at or before an instant, and nothing later matters. */
module Lookups {
  import opened Market
  import opened Execution
  import opened Schedule

  lemma {:induction false} BisectRightSplits(ts: seq<int>, x: int, lo: nat, hi: nat)
    requires Ascending(ts) && lo <= hi <= |ts|
    requires (forall i :: 0 <= i < lo ==> ts[i] <= x) && (forall i :: hi <= i < |ts| ==> ts[i] > x)
    ensures var at := BisectRight(ts, x, lo, hi);
            (forall i :: 0 <= i < at ==> ts[i] <= x) && (forall i :: at <= i < |ts| ==> ts[i] > x)
    decreases hi - lo
  {
    if lo < hi {
      var mid := (lo + hi) / 2;
      if x < ts[mid] {
        BisectRightSplits(ts, x, lo, mid);
      } else {
        BisectRightSplits(ts, x, mid + 1, hi);
      }
    }
  }

  lemma {:induction false} BisectLeftSplits(ts: seq<int>, x: int, lo: nat, hi: nat)
    requires Ascending(ts) && lo <= hi <= |ts|
    requires (forall i :: 0 <= i < lo ==> ts[i] < x) && (forall i :: hi <= i < |ts| ==> ts[i] >= x)
    ensures var at := BisectLeft(ts, x, lo, hi);
            (forall i :: 0 <= i < at ==> ts[i] < x) && (forall i :: at <= i < |ts| ==> ts[i] >= x)
    decreases hi - lo
  {
    if lo < hi {
      var mid := (lo + hi) / 2;
      if ts[mid] < x {
        BisectLeftSplits(ts, x, mid + 1, hi);
      } else {
        BisectLeftSplits(ts, x, lo, mid);
      }
    }
  }

  predicate InOrder(views: seq<View>) {
    forall i, j :: 0 <= i < j < |views| ==> views[i].recvNs <= views[j].recvNs
  }

  /** Over ascending views the filter keeps a prefix: everything before the cut, nothing after. */
  lemma {:induction false} UpToIsPrefix(views: seq<View>, t: int, at: nat)
    requires at <= |views|
    requires (forall i :: 0 <= i < at ==> views[i].recvNs <= t) && (forall i :: at <= i < |views| ==> views[i].recvNs > t)
    ensures UpTo(views, t) == views[..at]
  {
    if views != [] {
      var n := |views| - 1;
      UpToIsPrefix(views[..n], t, Min(at, n));
      if at == |views| {
        SliceSnoc(views, 0, at);
        InitSlice(views, 0, n);
      } else {
        InitSlice(views, 0, at);
      }
    }
  }

  lemma CutAt(views: seq<View>, t: int) returns (at: nat)
    requires InOrder(views)
    ensures at <= |views| && at == BisectRight(Stamps(views), t, 0, |views|)
    ensures (forall i :: 0 <= i < at ==> views[i].recvNs <= t) && (forall i :: at <= i < |views| ==> views[i].recvNs > t)
    ensures UpTo(views, t) == views[..at]
  {
    var ts := Stamps(views);
    at := BisectRight(ts, t, 0, |views|);
    BisectRightSplits(ts, t, 0, |views|);
    assert forall i :: 0 <= i < |views| ==> views[i].recvNs == ts[i];
    UpToIsPrefix(views, t, at);
  }

  function LastOf(views: seq<View>): Option<View> {
    if views == [] then None else Some(views[|views| - 1])
  }

  /** The bisection and the linear filter pick the same view, for every instant. */
  lemma AsOfIsLastUpTo(views: seq<View>, t: int)
    requires InOrder(views)
    ensures AsOf(views, t) == LastOf(UpTo(views, t))
  {
    var at := CutAt(views, t);
    assert at > 0 ==> views[..at][at - 1] == views[at - 1];
  }

  /** The arrival benchmark and every other benchmark obey one rule. */
  lemma ArrivalIsMidAtDecision(order: Order, views: seq<View>)
    requires InOrder(views)
    ensures ArrivalPrice(order, views) == MidAt(order.decisionNs, views)
  {
    AsOfIsLastUpTo(views, order.decisionNs);
  }

  // ---- no look-ahead ----

  /** Both histories hold the same views up to and including `t`. */
  predicate SameUpTo(a: seq<View>, b: seq<View>, t: int) {
    UpTo(a, t) == UpTo(b, t)
  }

  lemma {:induction false} UpToAgain(views: seq<View>, t: int, u: int)
    requires u <= t
    ensures UpTo(UpTo(views, t), u) == UpTo(views, u)
  {
    if views != [] {
      var n := |views| - 1;
      UpToAgain(views[..n], t, u);
      assert UpTo(views[..n], u) + [] == UpTo(views[..n], u);
      assert UpTo(views[..n], t) + [] == UpTo(views[..n], t);
      if views[n].recvNs <= t {
        var kept := UpTo(views[..n], t) + [views[n]];
        assert UpTo(views, t) == kept && kept[..|kept| - 1] == UpTo(views[..n], t) && kept[|kept| - 1] == views[n];
      }
    }
  }

  /** An as-of lookup at or before `t` sees only what had arrived by `t`. */
  lemma LookupIgnoresLater(a: seq<View>, b: seq<View>, t: int, u: int)
    requires InOrder(a) && InOrder(b) && SameUpTo(a, b, t) && u <= t
    ensures AsOf(a, u) == AsOf(b, u)
  {
    AsOfIsLastUpTo(a, u);
    AsOfIsLastUpTo(b, u);
    UpToAgain(a, t, u);
    UpToAgain(b, t, u);
  }

  /** The fills stamped at or before `t`. */
  function FillsUpTo(fills: seq<Fill>, t: int): seq<Fill> {
    if fills == [] then []
    else
      var n := |fills| - 1;
      FillsUpTo(fills[..n], t) + if fills[n].tsNs <= t then [fills[n]] else []
  }

  lemma {:induction false} FillsUpToAppend(a: seq<Fill>, b: seq<Fill>, t: int)
    ensures FillsUpTo(a + b, t) == FillsUpTo(a, t) + FillsUpTo(b, t)
  {
    if b == [] {
      assert a + b == a;
    } else {
      var n := |b| - 1;
      assert (a + b)[..|a + b| - 1] == a + b[..n];
      FillsUpToAppend(a, b[..n], t);
    }
  }

  lemma {:induction false} AllLater(fills: seq<Fill>, t: int)
    requires forall f :: f in fills ==> f.tsNs > t
    ensures FillsUpTo(fills, t) == []
  {
    if fills != [] {
      InitIn(fills);
      AllLater(fills[..|fills| - 1], t);
    }
  }

  /** Two jobs on one schedule that meet the same levels at every instant up to `t`. */
  predicate AgreeUpTo(a: Job, b: Job, t: int) {
    && WellCut(a) && WellCut(b) && Ascending(a.times)
    && a.times == b.times && a.share == b.share
    && forall k :: 0 <= k < |a.times| && a.times[k] <= t ==> a.shown[k] == b.shown[k]
  }

  lemma {:induction false} SameSchedule(a: Job, b: Job, k: nat)
    requires a.share == b.share
    ensures Scheduled(a, k) == Scheduled(b, k)
  {
    if k > 0 {
      SameSchedule(a, b, k - 1);
    }
  }

  lemma {:induction false} SameEarlyFills(a: Job, b: Job, t: int, k: nat)
    requires AgreeUpTo(a, b, t) && k <= |a.shown|
    requires k > 0 ==> a.times[k - 1] <= t
    ensures FillsAfter(a, k) == FillsAfter(b, k)
  {
    if k > 0 {
      SameEarlyFills(a, b, t, k - 1);
      SameSchedule(a, b, k);
    }
  }

  lemma {:induction false} SameFillsUpTo(a: Job, b: Job, t: int, k: nat)
    requires AgreeUpTo(a, b, t) && k <= |a.shown|
    ensures FillsUpTo(FillsAfter(a, k), t) == FillsUpTo(FillsAfter(b, k), t)
  {
    if k > 0 {
      if a.times[k - 1] <= t {
        SameEarlyFills(a, b, t, k);
      } else {
        SameFillsUpTo(a, b, t, k - 1);
        LateSlice(a, t, k);
        LateSlice(b, t, k);
      }
    }
  }

  lemma LateSlice(j: Job, t: int, k: nat)
    requires WellCut(j) && 0 < k <= |j.shown| && j.times[k - 1] > t
    ensures FillsUpTo(FillsAfter(j, k), t) == FillsUpTo(FillsAfter(j, k - 1), t)
  {
    var before := FillsAfter(j, k - 1);
    var taken := Walk(j.shown[k - 1], Owed(j, k, before), j.times[k - 1]);
    WalkStamps(j.shown[k - 1], Owed(j, k, before), j.times[k - 1]);
    AllLater(taken, t);
    FillsUpToAppend(before, taken, t);
  }

  /** Adding, altering or removing views stamped after `t` changes no fill stamped at or before `t`. */
  lemma NoLookAhead(order: Order, a: seq<View>, b: seq<View>, startNs: int, endNs: int, slices: int, t: int)
    requires InOrder(a) && InOrder(b) && SameUpTo(a, b, t)
    requires Simulated(order, a, startNs, endNs, slices).Ok? && Simulated(order, b, startNs, endNs, slices).Ok?
    ensures FillsUpTo(Simulated(order, a, startNs, endNs, slices).value, t)
            == FillsUpTo(Simulated(order, b, startNs, endNs, slices).value, t)
  {
    if startNs < endNs && order.targetQty > 0.0 && slices > 0 {
      PlanIsWorkable(order, a, startNs, endNs, slices);
      var ja, jb := Plan(order, a, startNs, endNs, slices), Plan(order, b, startNs, endNs, slices);
      forall k | 0 <= k < |ja.times| && ja.times[k] <= t
        ensures ja.shown[k] == jb.shown[k]
      {
        LookupIgnoresLater(a, b, t, ja.times[k]);
      }
      SameFillsUpTo(ja, jb, t, slices);
      NoViewsNoFills(order, startNs, endNs, slices);
    }
  }

  lemma {:induction false} NothingShown(j: Job, k: nat)
    requires WellCut(j) && k <= |j.shown| && forall i :: 0 <= i < |j.shown| ==> j.shown[i] == []
    ensures FillsAfter(j, k) == []
  {
    if k > 0 {
      NothingShown(j, k - 1);
    }
  }

  /** A history without views fills nothing, which is what the early return answers. */
  lemma NoViewsNoFills(order: Order, startNs: int, endNs: int, slices: nat)
    requires slices > 0
    ensures FillsAfter(Plan(order, [], startNs, endNs, slices), slices) == []
  {
    var j := Plan(order, [], startNs, endNs, slices);
    forall i | 0 <= i < slices
      ensures j.shown[i] == []
    {
      assert AsOf([], j.times[i]) == None;
    }
    NothingShown(j, slices);
  }
}
