/** Which windows end a backtest instead of being skipped. */
module BacktestErrors {
  import opened Market
  import opened Execution
  import opened Schedule
  import opened Slices
  import opened Lookups
  import opened Costs
  import opened Backtest
  import opened Replay
  import opened Windows
  import opened WindowLaws
  import opened WindowedBacktest
  import opened Tracking
  import opened Checksum

  predicate OneSided(v: View) {
    v.bids == [] || v.asks == []
  }

  predicate OneSidedAt(views: seq<View>, t: int) {
    AsOf(views, t).Some? && OneSided(AsOf(views, t).value)
  }

  // ---- what each step raises ----

  lemma {:induction false} LayeredRaises(side: Side, p0: real, views: seq<View>, fills: seq<Fill>)
    requires forall f :: f in fills ==> AsOf(views, f.tsNs).Some?
    ensures Layered(side, p0, views, fills).Err? <==> exists f :: f in fills && OneSidedAt(views, f.tsNs)
    ensures Layered(side, p0, views, fills).Err? ==> Layered(side, p0, views, fills).error == IndexError
  {
    if fills != [] {
      var n := |fills| - 1;
      InitIn(fills);
      LayeredRaises(side, p0, views, fills[..n]);
      assert forall f :: f in fills <==> f in fills[..n] || f == fills[n];
    }
  }

  /** A bucket inside the window meets a one-sided view. */
  predicate BadBucket(views: seq<View>, b: (int, real), startNs: int, endNs: int) {
    startNs <= b.0 <= endNs && OneSidedAt(views, b.0)
  }

  lemma {:induction false} WeightedRaises(views: seq<View>, volumes: seq<(int, real)>, startNs: int, endNs: int)
    ensures Weighted(views, volumes, startNs, endNs).Err? <==> exists b :: b in volumes && BadBucket(views, b, startNs, endNs)
    ensures Weighted(views, volumes, startNs, endNs).Err? ==> Weighted(views, volumes, startNs, endNs).error == IndexError
  {
    if volumes != [] {
      var n := |volumes| - 1;
      WeightedRaises(views, volumes[..n], startNs, endNs);
      assert volumes == volumes[..n] + [volumes[n]];
      assert volumes[n] in volumes;
    }
  }

  predicate VwapIsZero(views: seq<View>, volumes: seq<(int, real)>, startNs: int, endNs: int) {
    var v := Vwap(views, volumes, startNs, endNs);
    v.Ok? && v.value == 0.0
  }

  predicate Unbenched(views: seq<View>, volumes: seq<(int, real)>, startNs: int, endNs: int) {
    (exists b :: b in volumes && BadBucket(views, b, startNs, endNs)) || VwapIsZero(views, volumes, startNs, endNs)
  }

  /** The interval benchmark fails loudly exactly when a trade meets a one-sided view or the average is zero. */
  lemma BenchmarkRaises(side: Side, average: real, views: seq<View>, volumes: seq<(int, real)>, startNs: int, endNs: int)
    requires startNs < endNs && views != []
    ensures var b := IntervalBenchmark(side, average, Vwap(views, InWindow(volumes, startNs, endNs), startNs, endNs));
            (b.Err? <==> Unbenched(views, volumes, startNs, endNs)) && (b.Err? ==> b.error != ValueError)
  {
    PrefilterChangesNothing(views, volumes, startNs, endNs);
    WeightedRaises(views, volumes, startNs, endNs);
  }

  lemma NonzeroProduct(a: real, b: real)
    requires a != 0.0 && b != 0.0
    ensures a * b != 0.0
  {
  }

  lemma AttributionRaises(order: Order, fills: seq<Fill>, views: seq<View>)
    requires views != [] && MidAt(order.decisionNs, views).Ok? && MidAt(order.decisionNs, views).value != 0.0 && order.targetQty > 0.0
    requires forall f :: f in fills ==> AsOf(views, f.tsNs).Some?
    ensures Attributed(order, fills, views).Err? <==>
            OneSided(views[|views| - 1]) || exists f :: f in fills && OneSidedAt(views, f.tsNs)
    ensures Attributed(order, fills, views).Err? ==> Attributed(order, fills, views).error != ValueError
  {
    var p0 := MidAt(order.decisionNs, views).value;
    LayeredRaises(order.side, p0, views, fills);
    NonzeroProduct(order.targetQty, p0);
  }

  /** The first of some fills that has no mid, and what looking for it raises. */
  predicate FailsAt(views: seq<View>, fills: seq<Fill>, i: nat, e: Error) {
    && i < |fills| && MidAt(fills[i].tsNs, views).Err?
    && (forall k :: 0 <= k < i ==> MidAt(fills[k].tsNs, views).Ok?)
    && e == if AsOf(views, fills[i].tsNs).None? then ValueError else IndexError
  }

  lemma {:induction false} LayeredFailsAt(side: Side, p0: real, views: seq<View>, fills: seq<Fill>) returns (i: nat)
    requires Layered(side, p0, views, fills).Err?
    ensures FailsAt(views, fills, i, Layered(side, p0, views, fills).error)
  {
    var n := |fills| - 1;
    if Layered(side, p0, views, fills[..n]).Err? {
      i := LayeredFailsAt(side, p0, views, fills[..n]);
    } else {
      LayeredNeedsMids(side, p0, views, fills[..n]);
      i := n;
      forall k | 0 <= k < n
        ensures MidAt(fills[k].tsNs, views).Ok?
      {
        assert fills[..n][k] in fills[..n];
      }
    }
  }

  /** What the decomposition raises when it fails, in the order it looks: a `ValueError` without
      views or without one at the decision, an `IndexError` when that one or the last is one-sided,
      the same two for the first fill without a mid, and a division error for an empty notional. */
  lemma AttributionFails(order: Order, fills: seq<Fill>, views: seq<View>)
    requires Attributed(order, fills, views).Err?
    ensures var e := Attributed(order, fills, views).error;
            if views == [] || AsOf(views, order.decisionNs).None? then e == ValueError
            else if OneSidedAt(views, order.decisionNs) || OneSided(views[|views| - 1]) then e == IndexError
            else if exists f :: f in fills && MidAt(f.tsNs, views).Err? then exists i :: FailsAt(views, fills, i, e)
            else e == ArithmeticError
  {
    if views != [] && MidAt(order.decisionNs, views).Ok? && Mid(views[|views| - 1]).Ok? {
      var p0 := MidAt(order.decisionNs, views).value;
      LayeredNeedsMids(order.side, p0, views, fills);
      if Layered(order.side, p0, views, fills).Err? {
        var i := LayeredFailsAt(order.side, p0, views, fills);
      }
    }
  }

  /** What keeps a window that filled from being priced. */
  predicate Unpriceable(order: Order, fills: seq<Fill>, views: seq<View>, volumes: seq<(int, real)>, startNs: int, endNs: int)
    requires views != [] && AsOf(views, startNs).Some?
  {
    || OneSidedAt(views, startNs)
    || Mid(AsOf(views, startNs).value).value == 0.0
    || Unbenched(views, volumes, startNs, endNs)
    || OneSided(views[|views| - 1])
    || exists f :: f in fills && OneSidedAt(views, f.tsNs)
  }

  lemma PricedRaises(order: Order, fills: seq<Fill>, views: seq<View>, volumes: seq<(int, real)>, startNs: int, endNs: int)
    requires InOrder(views) && views != [] && AsOf(views, startNs).Some?
    requires order.decisionNs == startNs < endNs && order.targetQty > 0.0 && Quantity(fills) != 0.0
    requires forall f :: f in fills ==> AsOf(views, f.tsNs).Some?
    ensures Priced(order, fills, views, volumes, startNs, endNs).Err? <==> Unpriceable(order, fills, views, volumes, startNs, endNs)
    ensures Priced(order, fills, views, volumes, startNs, endNs).Err? ==> Priced(order, fills, views, volumes, startNs, endNs).error != ValueError
  {
    ArrivalIsMidAtDecision(order, views);
    BenchmarkRaises(order.side, AveragePrice(fills).value, views, volumes, startNs, endNs);
    var arrival := MidAt(startNs, views);
    if arrival.Ok? && arrival.value != 0.0 {
      AttributionRaises(order, fills, views);
    }
  }

  // ---- one window ----

  lemma ViewsStay(views: seq<View>, s: int, t: int)
    requires InOrder(views) && s <= t && AsOf(views, s).Some?
    ensures AsOf(views, t).Some?
  {
    var a := CutAt(views, s);
    var b := CutAt(views, t);
  }

  /** The slices of a window, when it is worked at all. */
  predicate Worked(order: Order, views: seq<View>, startNs: int, endNs: int) {
    views != [] && startNs < endNs && order.targetQty > 0.0
  }

  /** A slice that met some quantity looked at a one-sided view. */
  predicate BlindSlice(views: seq<View>, j: Job) {
    exists k :: 0 <= k < Min(|j.shown|, |j.times|) && Supplied(j, k) && OneSidedAt(views, j.times[k])
  }

  predicate SomeSupplied(j: Job) {
    exists k :: 0 <= k < |j.shown| && Supplied(j, k)
  }

  /** When a window ends the backtest instead of being skipped: it is to be worked in no
      slices, or it has a view at its start and meets some quantity, and then a mid it needs
      is missing or a benchmark it divides by is zero. */
  predicate EndsBacktest(order: Order, views: seq<View>, volumes: seq<(int, real)>, startNs: int, endNs: int, slices: int) {
    Worked(order, views, startNs, endNs) &&
    (slices == 0
     || (slices > 0 && AsOf(views, startNs).Some? &&
         var j := Plan(order, views, startNs, endNs, slices);
         SomeSupplied(j) &&
         (|| OneSidedAt(views, startNs)
          || Mid(AsOf(views, startNs).value).value == 0.0
          || Unbenched(views, volumes, startNs, endNs)
          || OneSided(views[|views| - 1])
          || BlindSlice(views, j))))
  }

  lemma QuantityOfPlan(order: Order, views: seq<View>, startNs: int, endNs: int, slices: nat)
    requires Worked(order, views, startNs, endNs) && slices > 0
    ensures var fills := FillsAfter(Plan(order, views, startNs, endNs, slices), slices);
            fills != [] ==> Quantity(fills) != 0.0
  {
    var j := Plan(order, views, startNs, endNs, slices);
    PlanIsWorkable(order, views, startNs, endNs, slices);
    FillsAreSupplied(j, slices);
    forall f | f in FillsAfter(j, slices)
      ensures f.qty > 0.0
    {
      assert FromSlice(j, f, slices);
    }
    PositiveQuantity(FillsAfter(j, slices));
  }

  /** What fills at every supplied slice show of it. */
  lemma FillsShowSlices(views: seq<View>, j: Job, fills: seq<Fill>)
    requires WellCut(j) && forall k: nat :: Supplied(j, k) ==> FilledAt(fills, j.times[k])
    ensures SomeSupplied(j) ==> fills != []
    ensures BlindSlice(views, j) ==> exists f :: f in fills && OneSidedAt(views, f.tsNs)
  {
    if BlindSlice(views, j) {
      var k :| 0 <= k < Min(|j.shown|, |j.times|) && Supplied(j, k) && OneSidedAt(views, j.times[k]);
      assert FilledAt(fills, j.times[k]);
    }
    if SomeSupplied(j) {
      var k :| 0 <= k < |j.shown| && Supplied(j, k);
      assert FilledAt(fills, j.times[k]);
    }
  }

  /** The fills of a worked window, and the slices they come from. */
  lemma FillsOfPlan(order: Order, views: seq<View>, startNs: int, endNs: int, slices: nat)
    requires InOrder(views) && Worked(order, views, startNs, endNs) && slices > 0 && AsOf(views, startNs).Some?
    ensures var j := Plan(order, views, startNs, endNs, slices);
            var fills := FillsAfter(j, slices);
            && (fills != [] <==> SomeSupplied(j))
            && (fills != [] ==> Quantity(fills) != 0.0)
            && (forall f :: f in fills ==> AsOf(views, f.tsNs).Some?)
            && ((exists f :: f in fills && OneSidedAt(views, f.tsNs)) <==> BlindSlice(views, j))
  {
    var j := Plan(order, views, startNs, endNs, slices);
    var fills := FillsAfter(j, slices);
    PlanIsWorkable(order, views, startNs, endNs, slices);
    FillsAreSupplied(j, slices);
    QuantityOfPlan(order, views, startNs, endNs, slices);
    forall k: nat | Supplied(j, k)
      ensures FilledAt(fills, j.times[k])
    {
      SuppliedSliceFills(j, slices, k);
    }
    forall f | f in fills
      ensures AsOf(views, f.tsNs).Some? && SomeSupplied(j)
      ensures OneSidedAt(views, f.tsNs) ==> BlindSlice(views, j)
    {
      assert FromSlice(j, f, slices);
      var k :| 0 <= k < slices && Supplied(j, k) && j.times[k] == f.tsNs;
      assert j.times[k] in j.times;
      ViewsStay(views, startNs, f.tsNs);
    }
    FillsShowSlices(views, j, fills);
  }

  /** Without a view at its start a window that fills is skipped. */
  lemma NoArrival(order: Order, fills: seq<Fill>, views: seq<View>, volumes: seq<(int, real)>, startNs: int, endNs: int)
    requires InOrder(views) && order.decisionNs == startNs && AsOf(views, startNs).None?
    requires Quantity(fills) != 0.0
    ensures Priced(order, fills, views, volumes, startNs, endNs).Err?
    ensures Priced(order, fills, views, volumes, startNs, endNs).error == ValueError
  {
    ArrivalIsMidAtDecision(order, views);
  }

  /** Over ascending views, a window is skipped for a `ValueError` exactly when it has no view at
      its start and yet meets some quantity. */
  lemma RowSkipped(order: Order, views: seq<View>, volumes: seq<(int, real)>, startNs: int, endNs: int, slices: int)
    requires InOrder(views) && order.decisionNs == startNs
    ensures Skipped(RowOf(order, views, volumes, startNs, endNs, slices)) <==>
            && Worked(order, views, startNs, endNs) && slices > 0 && AsOf(views, startNs).None?
            && SomeSupplied(Plan(order, views, startNs, endNs, slices))
  {
    if Worked(order, views, startNs, endNs) && slices > 0 {
      var fills := FillsAfter(Plan(order, views, startNs, endNs, slices), slices);
      QuantityOfPlan(order, views, startNs, endNs, slices);
      PlannedFills(order, views, startNs, endNs, slices);
      if AsOf(views, startNs).Some? {
        FillsOfPlan(order, views, startNs, endNs, slices);
        if fills != [] {
          PricedRaises(order, fills, views, volumes, startNs, endNs);
        }
      } else if fills != [] {
        NoArrival(order, fills, views, volumes, startNs, endNs);
      }
    }
  }

  lemma PlannedFills(order: Order, views: seq<View>, startNs: int, endNs: int, slices: nat)
    requires Worked(order, views, startNs, endNs) && slices > 0
    ensures var j := Plan(order, views, startNs, endNs, slices);
            FillsAfter(j, slices) != [] <==> SomeSupplied(j)
  {
    var j := Plan(order, views, startNs, endNs, slices);
    var fills := FillsAfter(j, slices);
    PlanIsWorkable(order, views, startNs, endNs, slices);
    FillsAreSupplied(j, slices);
    if fills != [] {
      assert fills[0] in fills && FromSlice(j, fills[0], slices);
    }
    if SomeSupplied(j) {
      var k :| 0 <= k < |j.shown| && Supplied(j, k);
      SuppliedSliceFills(j, slices, k);
    }
  }

  /** Over ascending views, a window's pricing raises something the backtest does not catch in
      exactly those cases. */
  lemma RowEscapes(order: Order, views: seq<View>, volumes: seq<(int, real)>, startNs: int, endNs: int, slices: int)
    requires InOrder(views) && order.decisionNs == startNs
    ensures Escapes(RowOf(order, views, volumes, startNs, endNs, slices)) <==> EndsBacktest(order, views, volumes, startNs, endNs, slices)
  {
    if Worked(order, views, startNs, endNs) && slices > 0 {
      var fills := FillsAfter(Plan(order, views, startNs, endNs, slices), slices);
      QuantityOfPlan(order, views, startNs, endNs, slices);
      if AsOf(views, startNs).Some? {
        FillsOfPlan(order, views, startNs, endNs, slices);
        if fills != [] {
          PricedRaises(order, fills, views, volumes, startNs, endNs);
        }
      } else if fills != [] {
        NoArrival(order, fills, views, volumes, startNs, endNs);
      }
    }
  }

  // ---- two-sided captures ----

  predicate Quoted(v: View) {
    v.bids != [] && v.asks != [] && v.bids[0].price > 0.0 && v.asks[0].price > 0.0
  }

  lemma AsOfIsOne(views: seq<View>, t: int)
    ensures AsOf(views, t).Some? ==> AsOf(views, t).value in views
  {
  }

  lemma QuotedSees(views: seq<View>, t: int)
    requires forall v :: v in views ==> Quoted(v)
    ensures !OneSidedAt(views, t)
    ensures AsOf(views, t).Some? ==> Mid(AsOf(views, t).value).Ok? && Mid(AsOf(views, t).value).value > 0.0
  {
    AsOfIsOne(views, t);
  }

  lemma QuotedSlices(views: seq<View>, j: Job)
    requires forall v :: v in views ==> Quoted(v)
    ensures !BlindSlice(views, j)
  {
    forall k | 0 <= k < |j.times|
      ensures !OneSidedAt(views, j.times[k])
    {
      QuotedSees(views, j.times[k]);
    }
  }

  lemma {:induction false} QuotedWeights(views: seq<View>, volumes: seq<(int, real)>, startNs: int, endNs: int)
    requires forall v :: v in views ==> Quoted(v)
    requires forall b :: b in volumes ==> b.1 >= 0.0
    ensures Weighted(views, volumes, startNs, endNs).Ok?
    ensures var w := Weighted(views, volumes, startNs, endNs).value;
            w.volume >= 0.0 && w.pv >= 0.0 && (w.volume > 0.0 ==> w.pv > 0.0)
  {
    if volumes != [] {
      var n := |volumes| - 1;
      assert volumes[n] in volumes;
      QuotedWeights(views, volumes[..n], startNs, endNs);
      AsOfIsOne(views, volumes[n].0);
      QuotedBucket(Weighted(views, volumes[..n], startNs, endNs).value, AsOf(views, volumes[n].0), volumes[n], startNs, endNs);
    }
  }

  lemma QuotedBucket(w: Weights, at: Option<View>, bucket: (int, real), startNs: int, endNs: int)
    requires w.volume >= 0.0 && w.pv >= 0.0 && (w.volume > 0.0 ==> w.pv > 0.0)
    requires bucket.1 >= 0.0 && (at.Some? ==> Quoted(at.value))
    ensures AddBucket(w, at, bucket, startNs, endNs).Ok?
    ensures var w' := AddBucket(w, at, bucket, startNs, endNs).value;
            w'.volume >= 0.0 && w'.pv >= 0.0 && (w'.volume > 0.0 ==> w'.pv > 0.0)
  {
    if at.Some? && bucket.1 > 0.0 {
      PositiveProduct(Mid(at.value).value, bucket.1);
    }
  }

  lemma AverageNotZero(w: Weights)
    requires w.pv > 0.0 && w.volume > 0.0
    ensures Average(w) != 0.0
  {
  }

  lemma QuotedBenchmark(views: seq<View>, volumes: seq<(int, real)>, startNs: int, endNs: int)
    requires forall v :: v in views ==> Quoted(v)
    requires forall b :: b in volumes ==> b.1 >= 0.0
    ensures !Unbenched(views, volumes, startNs, endNs)
  {
    QuotedWeights(views, volumes, startNs, endNs);
    WeightedRaises(views, volumes, startNs, endNs);
    var w := Weighted(views, volumes, startNs, endNs).value;
    if w.volume > 0.0 {
      AverageNotZero(w);
    }
  }

  /** A window over two-sided views with positive prices never ends the backtest. */
  lemma QuotedNeverEnds(order: Order, views: seq<View>, volumes: seq<(int, real)>, startNs: int, endNs: int, slices: int)
    requires slices != 0 && (forall v :: v in views ==> Quoted(v)) && forall b :: b in volumes ==> b.1 >= 0.0
    ensures !EndsBacktest(order, views, volumes, startNs, endNs, slices)
  {
    if Worked(order, views, startNs, endNs) && slices > 0 && AsOf(views, startNs).Some? {
      QuotedBenchmark(views, volumes, startNs, endNs);
      QuotedSees(views, startNs);
      QuotedSlices(views, Plan(order, views, startNs, endNs, slices));
      assert views[|views| - 1] in views;
    }
  }

  // ---- the whole backtest ----

  lemma {:induction false} YieldedRaises(price: Pricer, input: int -> seq<View>, starts: seq<int>)
    ensures Yielded(price, input, starts).raised.Some? <==> exists i :: 0 <= i < |starts| && RaisesAt(price, input, starts[i])
  {
    if starts != [] {
      var n := |starts| - 1;
      YieldedRaises(price, input, starts[..n]);
      assert RaisesAt(price, input, starts[n]) <==> input(starts[n]) != [] && Escapes(price(starts[n], input(starts[n])));
    }
  }

  /** The window that starts at `s`, priced on all views up to its end, ends the backtest. */
  predicate HistoryEnds(w: Setup, views: seq<View>, volumes: seq<(int, real)>, s: int) {
    EndsBacktest(w.OrderAt(s), Past(views, s, w.durationNs), volumes, s, w.EndOf(s), w.slices)
  }

  /** The window sees a view, so it is priced, and that ends the backtest. */
  predicate WindowEnds(w: Setup, views: seq<View>, volumes: seq<(int, real)>, s: int) {
    Sees(views, s, w.durationNs) && HistoryEnds(w, views, volumes, s)
  }

  lemma PastInOrder(views: seq<View>, s: int, durationNs: int)
    requires InOrder(views)
    ensures InOrder(Past(views, s, durationNs))
    ensures forall v :: v in Past(views, s, durationNs) ==> v in views
  {
    var cut := CutAt(views, s + durationNs);
  }

  lemma QuotedWindow(w: Setup, views: seq<View>, volumes: seq<(int, real)>, s: int)
    requires InOrder(views) && w.slices != 0
    requires (forall v :: v in views ==> Quoted(v)) && forall b :: b in volumes ==> b.1 >= 0.0
    ensures !HistoryEnds(w, views, volumes, s)
  {
    PastInOrder(views, s, w.durationNs);
    QuotedNeverEnds(w.OrderAt(s), Past(views, s, w.durationNs), volumes, s, w.EndOf(s), w.slices);
  }

  lemma WindowRaises(w: Setup, views: seq<View>, volumes: seq<(int, real)>, s: int)
    requires InOrder(views)
    ensures RaisesAt(PricerOf(w, volumes), FromHistory(views, w.durationNs), s) <==> HistoryEnds(w, views, volumes, s)
  {
    PastInOrder(views, s, w.durationNs);
    RowEscapes(w.OrderAt(s), Past(views, s, w.durationNs), volumes, s, w.EndOf(s), w.slices);
  }

  /** Pricing the windows at some starts on all views up to their ends raises exactly when one of them ends it. */
  lemma HistoryRaises(w: Setup, views: seq<View>, volumes: seq<(int, real)>, starts: seq<int>)
    requires InOrder(views)
    ensures Yielded(PricerOf(w, volumes), FromHistory(views, w.durationNs), starts).raised.Some?
            <==> exists i :: 0 <= i < |starts| && HistoryEnds(w, views, volumes, starts[i])
  {
    YieldedRaises(PricerOf(w, volumes), FromHistory(views, w.durationNs), starts);
    forall i | 0 <= i < |starts|
      ensures RaisesAt(PricerOf(w, volumes), FromHistory(views, w.durationNs), starts[i]) <==> HistoryEnds(w, views, volumes, starts[i])
    {
      WindowRaises(w, views, volumes, starts[i]);
    }
  }

  lemma {:induction false} SeeingIs(views: seq<View>, durationNs: int, starts: seq<int>)
    ensures forall s :: s in Seeing(views, durationNs, starts) <==> s in starts && Sees(views, s, durationNs)
  {
    if starts != [] {
      var n := |starts| - 1;
      SeeingIs(views, durationNs, starts[..n]);
      assert forall s :: s in starts <==> s in starts[..n] || s == starts[n];
    }
  }

  /** Past a layout that fits and a replay that does not raise, pricing the stream raises
      exactly when one of the windows is such a window. */
  lemma WindowsEnd(messages: seq<Message>, w: Setup, windows: int, depth: nat, scheme: Scheme)
    requires Ascending(BookStamps(messages)) && w.durationNs >= 0
    requires Layout(BookStamps(messages), w.durationNs, windows).Ok?
    requires !Emitted(Settings(depth, scheme), VIEW_LEVELS, messages).raised
    ensures var starts := Layout(BookStamps(messages), w.durationNs, windows).value;
            var views := Emitted(Settings(depth, scheme), VIEW_LEVELS, messages).views;
            Outcomes(messages, w, windows, depth, scheme, Stream).raised.Some?
            <==> exists i :: 0 <= i < |starts| && WindowEnds(w, views, LiveTrades(messages), starts[i])
  {
    var starts := Layout(BookStamps(messages), w.durationNs, windows).value;
    var views := Emitted(Settings(depth, scheme), VIEW_LEVELS, messages).views;
    var seeing := Seeing(views, w.durationNs, starts);
    StreamIsHistory(messages, w, windows, depth, scheme);
    EmittedInOrder(Settings(depth, scheme), VIEW_LEVELS, messages);
    HistoryRaises(w, views, LiveTrades(messages), seeing);
    SeeingIs(views, w.durationNs, starts);
    forall i | 0 <= i < |seeing|
      ensures seeing[i] in starts && Sees(views, seeing[i], w.durationNs)
    {
      assert seeing[i] in seeing;
    }
    forall i | 0 <= i < |starts| && Sees(views, starts[i], w.durationNs)
      ensures starts[i] in seeing
    {
      assert starts[i] in starts;
    }
  }

  /** A backtest over ascending stamps raises exactly when the capture has no room for its
      windows, or some frame is refused at its turn, or one of its windows is such a window;
      a window whose pricing raises a `ValueError` is skipped. */
  lemma BacktestEnds(messages: seq<Message>, w: Setup, windows: int, depth: nat, scheme: Scheme)
    requires Ascending(BookStamps(messages)) && w.durationNs >= 0
    ensures var layout, views := Layout(BookStamps(messages), w.durationNs, windows), Emitted(Settings(depth, scheme), VIEW_LEVELS, messages).views;
            Outcomes(messages, w, windows, depth, scheme, Stream).raised.Some? <==>
            || layout.Err?
            || AnyRefused(Settings(depth, scheme), messages)
            || exists i :: 0 <= i < |layout.value| && WindowEnds(w, views, LiveTrades(messages), layout.value[i])
  {
    ReplayRaises(Settings(depth, scheme), VIEW_LEVELS, messages);
    if Layout(BookStamps(messages), w.durationNs, windows).Ok? && !AnyRefused(Settings(depth, scheme), messages) {
      WindowsEnd(messages, w, windows, depth, scheme);
    }
  }

  /** So a capture that has room for its windows and no refused frame, whose views are all
      two-sided with positive prices, and whose trades have no negative size, is backtested to the end. */
  lemma QuotedBacktestCompletes(messages: seq<Message>, w: Setup, windows: int, depth: nat, scheme: Scheme)
    requires Ascending(BookStamps(messages)) && w.durationNs >= 0 && w.slices != 0
    requires Layout(BookStamps(messages), w.durationNs, windows).Ok? && !AnyRefused(Settings(depth, scheme), messages)
    requires forall v :: v in Emitted(Settings(depth, scheme), VIEW_LEVELS, messages).views ==> Quoted(v)
    requires forall b :: b in LiveTrades(messages) ==> b.1 >= 0.0
    ensures Outcomes(messages, w, windows, depth, scheme, Stream).raised.None?
  {
    var views := Emitted(Settings(depth, scheme), VIEW_LEVELS, messages).views;
    BacktestEnds(messages, w, windows, depth, scheme);
    EmittedInOrder(Settings(depth, scheme), VIEW_LEVELS, messages);
    forall s
      ensures !HistoryEnds(w, views, LiveTrades(messages), s)
    {
      QuotedWindow(w, views, LiveTrades(messages), s);
    }
  }
}
