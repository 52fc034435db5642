/** One execution priced over one window, and the row it makes. */
module Backtest {
  import opened Market
  import opened Execution
  import opened Schedule
  import opened Lookups
  import opened Costs

  /** The volume-weighted benchmark and the slippage against it. */
  datatype Benchmark = Benchmark(vwap: real, vsVwapBps: real)

  datatype Pricing = Pricing(avgPrice: real, arrival: real, vsArrivalBps: real, interval: Option<Benchmark>, layers: Attribution)

  /** A window's row; `pricing` is absent when nothing filled. */
  datatype Row = Row(startNs: int, targetQty: real, filledQty: real, fillCount: nat, pricing: Option<Pricing>)

  function SlippageBps(side: Side, average: real, benchmark: real): Result<real> {
    if benchmark == 0.0 then Err(ArithmeticError)
    else Ok(Signed(side, average - benchmark) / benchmark * 10000.0)
  }

  function InWindow(volumes: seq<(int, real)>, startNs: int, endNs: int): seq<(int, real)> {
    if volumes == [] then []
    else
      var n := |volumes| - 1;
      InWindow(volumes[..n], startNs, endNs) + if startNs <= volumes[n].0 <= endNs then [volumes[n]] else []
  }

  /** A window without a volume-weighted benchmark reports none; only that failure is absorbed. */
  function IntervalBenchmark(side: Side, average: real, vwap: Result<real>): Result<Option<Benchmark>> {
    match vwap
    case Err(e) => if e == ValueError then Ok(None) else Err(e)
    case Ok(v) =>
      match SlippageBps(side, average, v)
      case Err(e) => Err(e)
      case Ok(bps) => Ok(Some(Benchmark(v, bps)))
  }

  function AveragePrice(fills: seq<Fill>): Result<real> {
    if Quantity(fills) == 0.0 then Err(ArithmeticError) else Ok(Notional(fills) / Quantity(fills))
  }

  function Assemble(side: Side, average: Result<real>, arrival: Result<real>, vwap: Result<real>, layers: Result<Attribution>): Result<Pricing> {
    if average.Err? then Err(average.error)
    else if arrival.Err? then Err(arrival.error)
    else
      match SlippageBps(side, average.value, arrival.value)
      case Err(e) => Err(e)
      case Ok(bps) =>
        match IntervalBenchmark(side, average.value, vwap)
        case Err(e) => Err(e)
        case Ok(interval) =>
          match layers
          case Err(e) => Err(e)
          case Ok(l) => Ok(Pricing(average.value, arrival.value, bps, interval, l))
  }

  function Priced(order: Order, fills: seq<Fill>, views: seq<View>, volumes: seq<(int, real)>, startNs: int, endNs: int): Result<Pricing> {
    Assemble(order.side, AveragePrice(fills), ArrivalPrice(order, views),
             Vwap(views, InWindow(volumes, startNs, endNs), startNs, endNs), Attributed(order, fills, views))
  }

  function RowOf(order: Order, views: seq<View>, volumes: seq<(int, real)>, startNs: int, endNs: int, slices: int): Result<Row> {
    match Simulated(order, views, startNs, endNs, slices)
    case Err(e) => Err(e)
    case Ok(fills) =>
      if fills == [] then Ok(Row(startNs, order.targetQty, 0.0, 0, None))
      else
        match Priced(order, fills, views, volumes, startNs, endNs)
        case Err(e) => Err(e)
        case Ok(p) => Ok(Row(startNs, order.targetQty, Quantity(fills), |fills|, Some(p)))
  }

  /** Works the order across one window and prices the result. */
  method RunWindow(order: Order, views: seq<View>, volumes: seq<(int, real)>, startNs: int, endNs: int, slices: int)
    returns (r: Result<Row>)
    ensures r == RowOf(order, views, volumes, startNs, endNs, slices)
  {
    var simulated := SimulateChildOrders(order, views, startNs, endNs, slices);
    if simulated.Err? {
      return Err(simulated.error);
    }
    var fills := simulated.value;
    if fills == [] {
      return Ok(Row(startNs, order.targetQty, 0.0, 0, None));
    }
    var priced := Price(order, fills, views, volumes, startNs, endNs);
    if priced.Err? {
      return Err(priced.error);
    }
    r := Ok(Row(startNs, order.targetQty, Quantity(fills), |fills|, Some(priced.value)));
  }

  method Price(order: Order, fills: seq<Fill>, views: seq<View>, volumes: seq<(int, real)>, startNs: int, endNs: int)
    returns (r: Result<Pricing>)
    ensures r == Priced(order, fills, views, volumes, startNs, endNs)
  {
    var average := AveragePrice(fills);
    if average.Err? {
      return Err(average.error);
    }
    var arrival := ArrivalPrice(order, views);
    if arrival.Err? {
      return Err(arrival.error);
    }
    var vsArrival := SlippageBps(order.side, average.value, arrival.value);
    if vsArrival.Err? {
      return Err(vsArrival.error);
    }
    var vwap := IntervalVwap(views, InWindow(volumes, startNs, endNs), startNs, endNs);
    var interval := IntervalBenchmark(order.side, average.value, vwap);
    if interval.Err? {
      return Err(interval.error);
    }
    var layers := AttributeSlippage(order, fills, views);
    if layers.Err? {
      return Err(layers.error);
    }
    r := Ok(Pricing(average.value, arrival.value, vsArrival.value, interval.value, layers.value));
  }

  // ---- what a row depends on ----

  /** Two histories that answer every lookup inside the window alike, and end on one view. */
  predicate SameInside(a: seq<View>, b: seq<View>, startNs: int, endNs: int) {
    && InOrder(a) && InOrder(b) && a != [] && b != []
    && a[|a| - 1] == b[|b| - 1]
    && forall t :: startNs <= t <= endNs ==> AsOf(a, t) == AsOf(b, t)
  }

  lemma SameSimulation(order: Order, a: seq<View>, b: seq<View>, startNs: int, endNs: int, slices: int)
    requires SameInside(a, b, startNs, endNs)
    ensures Simulated(order, a, startNs, endNs, slices) == Simulated(order, b, startNs, endNs, slices)
  {
    if startNs < endNs && order.targetQty > 0.0 && slices > 0 {
      PlanIsWorkable(order, a, startNs, endNs, slices);
      var ja, jb := Plan(order, a, startNs, endNs, slices), Plan(order, b, startNs, endNs, slices);
      forall k | 0 <= k < slices
        ensures ja.shown[k] == jb.shown[k]
      {
        assert ja.times[k] in ja.times;
      }
      assert ja == jb;
    }
  }

  lemma {:induction false} SameWeights(a: seq<View>, b: seq<View>, volumes: seq<(int, real)>, startNs: int, endNs: int)
    requires SameInside(a, b, startNs, endNs)
    ensures Weighted(a, volumes, startNs, endNs) == Weighted(b, volumes, startNs, endNs)
  {
    if volumes != [] {
      var n := |volumes| - 1;
      SameWeights(a, b, volumes[..n], startNs, endNs);
      if startNs <= volumes[n].0 <= endNs {
        assert AsOf(a, volumes[n].0) == AsOf(b, volumes[n].0);
      }
    }
  }

  lemma SameMid(a: seq<View>, b: seq<View>, t: int, startNs: int, endNs: int)
    requires SameInside(a, b, startNs, endNs) && startNs <= t <= endNs
    ensures MidAt(t, a) == MidAt(t, b)
  {
    assert AsOf(a, t) == AsOf(b, t);
  }

  lemma SameFill(l: Layers, side: Side, p0: real, a: seq<View>, b: seq<View>, f: Fill)
    requires MidAt(f.tsNs, a) == MidAt(f.tsNs, b)
    ensures AddFill(l, side, p0, a, f) == AddFill(l, side, p0, b, f)
  {
  }

  lemma {:induction false} SameLayers(side: Side, p0: real, a: seq<View>, b: seq<View>, fills: seq<Fill>, startNs: int, endNs: int)
    requires SameInside(a, b, startNs, endNs)
    requires forall f :: f in fills ==> startNs <= f.tsNs <= endNs
    ensures Layered(side, p0, a, fills) == Layered(side, p0, b, fills)
  {
    if fills != [] {
      var n := |fills| - 1;
      InitIn(fills);
      SameLayers(side, p0, a, b, fills[..n], startNs, endNs);
      SameMid(a, b, fills[n].tsNs, startNs, endNs);
      if Layered(side, p0, a, fills[..n]).Ok? {
        SameFill(Layered(side, p0, a, fills[..n]).value, side, p0, a, b, fills[n]);
      }
    }
  }

  /** A row depends on its views only through lookups inside the window and the last view. */
  lemma SameRow(order: Order, a: seq<View>, b: seq<View>, volumes: seq<(int, real)>, startNs: int, endNs: int, slices: int)
    requires SameInside(a, b, startNs, endNs) && order.decisionNs == startNs <= endNs
    ensures RowOf(order, a, volumes, startNs, endNs, slices) == RowOf(order, b, volumes, startNs, endNs, slices)
  {
    SameSimulation(order, a, b, startNs, endNs, slices);
    if Simulated(order, a, startNs, endNs, slices).Ok? {
      var fills := Simulated(order, a, startNs, endNs, slices).value;
      FillStamps(order, a, startNs, endNs, slices);
      SamePricing(order, fills, a, b, volumes, startNs, endNs);
    }
  }

  lemma SamePricing(order: Order, fills: seq<Fill>, a: seq<View>, b: seq<View>, volumes: seq<(int, real)>, startNs: int, endNs: int)
    requires SameInside(a, b, startNs, endNs) && order.decisionNs == startNs <= endNs
    requires forall f :: f in fills ==> startNs <= f.tsNs <= endNs
    ensures Priced(order, fills, a, volumes, startNs, endNs) == Priced(order, fills, b, volumes, startNs, endNs)
  {
    ArrivalIsMidAtDecision(order, a);
    ArrivalIsMidAtDecision(order, b);
    SameWeights(a, b, InWindow(volumes, startNs, endNs), startNs, endNs);
    SameAttribution(order, fills, a, b, startNs, endNs);
  }

  lemma SameAttribution(order: Order, fills: seq<Fill>, a: seq<View>, b: seq<View>, startNs: int, endNs: int)
    requires SameInside(a, b, startNs, endNs) && order.decisionNs == startNs <= endNs
    requires forall f :: f in fills ==> startNs <= f.tsNs <= endNs
    ensures Attributed(order, fills, a) == Attributed(order, fills, b)
  {
    if MidAt(order.decisionNs, a).Ok? {
      SameLayers(order.side, MidAt(order.decisionNs, a).value, a, b, fills, startNs, endNs);
    }
  }

  // ---- the prefilter ----

  lemma {:induction false} PrefilterKeepsWeights(views: seq<View>, volumes: seq<(int, real)>, startNs: int, endNs: int)
    ensures Weighted(views, InWindow(volumes, startNs, endNs), startNs, endNs) == Weighted(views, volumes, startNs, endNs)
  {
    if volumes != [] {
      var n := |volumes| - 1;
      PrefilterKeepsWeights(views, volumes[..n], startNs, endNs);
      if startNs <= volumes[n].0 <= endNs {
        var kept := InWindow(volumes[..n], startNs, endNs);
        assert (kept + [volumes[n]])[..|kept|] == kept;
      } else {
        assert InWindow(volumes[..n], startNs, endNs) + [] == InWindow(volumes[..n], startNs, endNs);
      }
    }
  }

  /** Handing the benchmark only the window's trades gives the answer, or the error, that
      handing it every trade would. */
  lemma PrefilterChangesNothing(views: seq<View>, volumes: seq<(int, real)>, startNs: int, endNs: int)
    ensures Vwap(views, InWindow(volumes, startNs, endNs), startNs, endNs) == Vwap(views, volumes, startNs, endNs)
  {
    PrefilterKeepsWeights(views, volumes, startNs, endNs);
    if InWindow(volumes, startNs, endNs) == [] {
      assert Weighted(views, [], startNs, endNs) == Ok(Weights(0.0, 0.0, 0));
    }
  }

  // ---- two ways to the same cost ----

  lemma QuotientTimes(a: real, b: real)
    requires b != 0.0
    ensures a / b * b == a
  {
  }

  lemma SameFraction(s: real, q: real, t: real, p0: real)
    requires t != 0.0 && p0 != 0.0 && t * p0 != 0.0
    ensures q * (s * p0) * (10000.0 / (t * p0)) == s * 10000.0 * q / t
  {
    var k, h := 10000.0 / (t * p0), 10000.0 / t;
    QuotientTimes(10000.0, t * p0);
    QuotientTimes(10000.0, t);
    assert (k * p0) * t == h * t;
    SameFactor(k * p0, h, t);
    Regroup(q, s, p0, k);
    Reorder(s, q, h, t);
    TimesOver(s * q * h, t);
  }

  lemma Regroup(q: real, s: real, p: real, k: real)
    ensures q * (s * p) * k == s * q * (k * p)
  {
  }

  lemma Reorder(s: real, q: real, h: real, t: real)
    requires h * t == 10000.0
    ensures s * 10000.0 * q == s * q * h * t
  {
    assert s * q * h * t == s * q * (h * t);
  }

  lemma TimesOver(a: real, t: real)
    requires t != 0.0
    ensures a * t / t == a
  {
  }

  /** A cost in basis points of `t` at `p0`. */
  function InBpsOf(cost: real, t: real, p0: real): real
    requires t * p0 != 0.0
  {
    cost * (10000.0 / (t * p0))
  }

  /** A figure per unit filled, for `q` filled out of `t`. */
  function ForShare(bps: real, q: real, t: real): real
    requires t != 0.0
  {
    bps * q / t
  }

  lemma CostPerUnit(side: Side, notional: real, q: real, t: real, p0: real)
    requires q != 0.0 && t != 0.0 && p0 != 0.0 && t * p0 != 0.0
    ensures InBpsOf(FilledCost(side, notional, q, p0), t, p0) == ForShare(SlippageBps(side, notional / q, p0).value, q, t)
  {
    var s := Signed(side, notional / q - p0) / p0;
    QuotientTimes(notional, q);
    QuotientTimes(Signed(side, notional / q - p0), p0);
    assert notional - q * p0 == q * (notional / q - p0);
    assert FilledCost(side, notional, q, p0) == q * (s * p0);
    SameFraction(s, q, t, p0);
  }

  lemma TwoLayersInBps(s: Shortfall, cost: real, t: real, p0: real)
    requires s.notional == t * p0 && s.notional != 0.0 && s.spread + s.timing == cost
    ensures InBps(s).Ok? && InBps(s).value.spreadBps + InBps(s).value.timingBps == InBpsOf(cost, t, p0)
  {
    Distribute(s.spread, s.timing, 10000.0 / s.notional);
  }

  lemma LayersTotal(order: Order, fills: seq<Fill>, views: seq<View>)
    requires ShortfallOf(order, fills, views).Ok?
    ensures var s, p0 := ShortfallOf(order, fills, views).value, MidAt(order.decisionNs, views).value;
            && s.notional == order.targetQty * p0
            && s.spread + s.timing == FilledCost(order.side, Notional(fills), Quantity(fills), p0)
  {
    var p0 := MidAt(order.decisionNs, views).value;
    LayersTelescope(order.side, p0, views, fills);
    AgainstArrivalIs(order.side, fills, p0);
  }

  /** A pricing made of the benchmarks and layers of these fills. */
  predicate MadeFrom(p: Pricing, order: Order, fills: seq<Fill>, views: seq<View>) {
    && ArrivalPrice(order, views).Ok? && ShortfallOf(order, fills, views).Ok? && Quantity(fills) != 0.0
    && var p0, s := ArrivalPrice(order, views).value, ShortfallOf(order, fills, views).value;
       && p0 != 0.0 && s.notional != 0.0
       && p.layers == InBps(s).value
       && p.vsArrivalBps == SlippageBps(order.side, Notional(fills) / Quantity(fills), p0).value
  }

  lemma PricedFrom(order: Order, fills: seq<Fill>, views: seq<View>, volumes: seq<(int, real)>, startNs: int, endNs: int)
    requires Priced(order, fills, views, volumes, startNs, endNs).Ok?
    ensures MadeFrom(Priced(order, fills, views, volumes, startNs, endNs).value, order, fills, views)
  {
  }

  /** Spread and timing, in basis points of the order, are the slippage of the average for the filled share. */
  lemma LayersPerUnit(s: Shortfall, side: Side, notional: real, q: real, t: real, p0: real)
    requires q != 0.0 && t != 0.0 && p0 != 0.0 && s.notional == t * p0 && s.notional != 0.0
    requires s.spread + s.timing == FilledCost(side, notional, q, p0)
    ensures InBps(s).Ok?
    ensures InBps(s).value.spreadBps + InBps(s).value.timingBps == ForShare(SlippageBps(side, notional / q, p0).value, q, t)
  {
    TwoLayersInBps(s, FilledCost(side, notional, q, p0), t, p0);
    CostPerUnit(side, notional, q, t, p0);
  }

  predicate LayersAgree(p: Pricing, q: real, t: real)
    requires t != 0.0
  {
    p.layers.spreadBps + p.layers.timingBps == ForShare(p.vsArrivalBps, q, t)
  }

  lemma MadeLayersAgree(p: Pricing, order: Order, fills: seq<Fill>, views: seq<View>)
    requires InOrder(views) && order.targetQty != 0.0 && MadeFrom(p, order, fills, views)
    ensures LayersAgree(p, Quantity(fills), order.targetQty)
  {
    ArrivalIsMidAtDecision(order, views);
    LayersTotal(order, fills, views);
    LayersPerUnit(ShortfallOf(order, fills, views).value, order.side, Notional(fills), Quantity(fills), order.targetQty,
                  MidAt(order.decisionNs, views).value);
  }

  lemma PricedLayersMatch(order: Order, fills: seq<Fill>, views: seq<View>, volumes: seq<(int, real)>, startNs: int, endNs: int)
    requires InOrder(views) && order.targetQty != 0.0 && Priced(order, fills, views, volumes, startNs, endNs).Ok?
    ensures LayersAgree(Priced(order, fills, views, volumes, startNs, endNs).value, Quantity(fills), order.targetQty)
  {
    PricedFrom(order, fills, views, volumes, startNs, endNs);
    MadeLayersAgree(Priced(order, fills, views, volumes, startNs, endNs).value, order, fills, views);
  }

  /** A figure in basis points of `benchmark`, put back into what the fills cost against it. */
  predicate CostsAgainst(bps: real, benchmark: real, side: Side, fills: seq<Fill>) {
    Per(bps, benchmark, Quantity(fills)) == 10000.0 * FilledCost(side, Notional(fills), Quantity(fills), benchmark)
  }

  function Per(bps: real, benchmark: real, quantity: real): real {
    bps * benchmark * quantity
  }

  lemma SlippageIs(side: Side, notional: real, q: real, benchmark: real)
    requires q != 0.0 && benchmark != 0.0
    ensures Per(SlippageBps(side, notional / q, benchmark).value, benchmark, q) == 10000.0 * FilledCost(side, notional, q, benchmark)
  {
    var gap := Signed(side, notional / q - benchmark);
    QuotientTimes(notional, q);
    QuotientTimes(gap, benchmark);
    assert gap / benchmark * 10000.0 * benchmark == 10000.0 * gap;
    assert gap * q == Signed(side, notional / q * q - benchmark * q);
    assert 10000.0 * gap * q == 10000.0 * (gap * q);
  }

  /** The figures of a row: what it is about, what it filled, and, when it filled, the average
      price, the arrival mid and the volume-weighted mid of all the trades in the window, with the
      cost of the fills against each; the latter is absent exactly when there is no such mid. */
  predicate FiguresOf(p: Pricing, order: Order, fills: seq<Fill>, views: seq<View>, volumes: seq<(int, real)>, startNs: int, endNs: int) {
    && Turnover(p.avgPrice, Quantity(fills)) == Notional(fills)
    && ArrivalPrice(order, views) == Ok(p.arrival)
    && CostsAgainst(p.vsArrivalBps, p.arrival, order.side, fills)
    && (p.interval.None? <==> Vwap(views, volumes, startNs, endNs) == Err(ValueError))
    && (p.interval.Some? ==>
          && Vwap(views, volumes, startNs, endNs) == Ok(p.interval.value.vwap)
          && CostsAgainst(p.interval.value.vsVwapBps, p.interval.value.vwap, order.side, fills))
    && Attributed(order, fills, views) == Ok(p.layers)
  }

  lemma AveragePriceIs(fills: seq<Fill>)
    requires AveragePrice(fills).Ok?
    ensures Quantity(fills) != 0.0 && AveragePrice(fills).value == Notional(fills) / Quantity(fills)
    ensures Turnover(AveragePrice(fills).value, Quantity(fills)) == Notional(fills)
  {
    QuotientTimes(Notional(fills), Quantity(fills));
  }

  lemma PricingFigures(order: Order, fills: seq<Fill>, views: seq<View>, volumes: seq<(int, real)>, startNs: int, endNs: int, p: Pricing)
    requires Priced(order, fills, views, volumes, startNs, endNs).Ok? && p == Priced(order, fills, views, volumes, startNs, endNs).value
    ensures FiguresOf(p, order, fills, views, volumes, startNs, endNs)
  {
    PrefilterChangesNothing(views, volumes, startNs, endNs);
    AveragePriceIs(fills);
    SlippageIs(order.side, Notional(fills), Quantity(fills), p.arrival);
    if p.interval.Some? {
      SlippageIs(order.side, Notional(fills), Quantity(fills), p.interval.value.vwap);
    }
  }

  /** What a row reports. */
  lemma RowFigures(order: Order, views: seq<View>, volumes: seq<(int, real)>, startNs: int, endNs: int, slices: int)
    requires RowOf(order, views, volumes, startNs, endNs, slices).Ok?
    ensures Simulated(order, views, startNs, endNs, slices).Ok?
    ensures var row := RowOf(order, views, volumes, startNs, endNs, slices).value;
            var fills := Simulated(order, views, startNs, endNs, slices).value;
            && row.startNs == startNs && row.targetQty == order.targetQty
            && row.filledQty == Quantity(fills) && row.fillCount == |fills|
            && (row.pricing.None? <==> fills == [])
            && (row.pricing.Some? ==> FiguresOf(row.pricing.value, order, fills, views, volumes, startNs, endNs))
  {
    var fills := Simulated(order, views, startNs, endNs, slices).value;
    if fills != [] {
      PricingFigures(order, fills, views, volumes, startNs, endNs, Priced(order, fills, views, volumes, startNs, endNs).value);
    }
  }

  /** A row that is priced was priced from the simulated fills of a positive order. */
  lemma RowFrom(order: Order, views: seq<View>, volumes: seq<(int, real)>, startNs: int, endNs: int, slices: int, row: Row)
    ensures RowOf(order, views, volumes, startNs, endNs, slices) == Ok(row) && row.pricing.Some? ==>
              && Simulated(order, views, startNs, endNs, slices).Ok? && order.targetQty > 0.0
              && var fills := Simulated(order, views, startNs, endNs, slices).value;
                 && Priced(order, fills, views, volumes, startNs, endNs).Ok?
                 && row.pricing.value == Priced(order, fills, views, volumes, startNs, endNs).value
                 && row.filledQty == Quantity(fills) && row.targetQty == order.targetQty
  {
  }

  /** The slippage of the average price against arrival, which looks only at totals, is the
      spread and timing layers, which look at every fill's own mid, scaled by the filled share. */
  lemma LayersMatchSlippage(order: Order, views: seq<View>, volumes: seq<(int, real)>, startNs: int, endNs: int, slices: int, row: Row)
    requires InOrder(views)
    ensures RowOf(order, views, volumes, startNs, endNs, slices) == Ok(row) && row.pricing.Some? ==>
              row.targetQty != 0.0 && LayersAgree(row.pricing.value, row.filledQty, row.targetQty)
  {
    RowFrom(order, views, volumes, startNs, endNs, slices, row);
    if RowOf(order, views, volumes, startNs, endNs, slices) == Ok(row) && row.pricing.Some? {
      PricedLayersMatch(order, Simulated(order, views, startNs, endNs, slices).value, views, volumes, startNs, endNs);
    }
  }
}
