/** What walking the opposite side costs: never less than the touch, never more than it must. */
module WalkLaws {
  import opened Market
  import opened Execution
  import opened Schedule
  import opened Costs
  import opened Replay

  // ---- the cheapest way to take a quantity ----

  /** A split of some quantity over `levels` that stays within each level. */
  predicate Split(levels: seq<Level>, x: seq<real>) {
    && |x| == |levels|
    && forall i :: 0 <= i < |x| ==> 0.0 <= x[i] && (x[i] <= levels[i].qty || x[i] == 0.0)
  }

  function SplitQty(x: seq<real>): real {
    if x == [] then 0.0 else x[0] + SplitQty(x[1..])
  }

  function SplitNotional(levels: seq<Level>, x: seq<real>): real
    requires |x| == |levels|
  {
    if x == [] then 0.0 else levels[0].price * x[0] + SplitNotional(levels[1..], x[1..])
  }

  /** Cost seen by an order of `side`: what it pays when buying, minus what it gets when selling. */
  function Paid(side: Side, price: real, qty: real): real {
    Signed(side, price) * qty
  }

  function WalkPaid(side: Side, levels: seq<Level>, need: real): real {
    if levels == [] || need <= 0.0 then 0.0
    else
      var take := MinReal(need, levels[0].qty);
      if take > 0.0 then Paid(side, levels[0].price, take) + WalkPaid(side, levels[1..], need - take)
      else WalkPaid(side, levels[1..], need)
  }

  /** The quantity a walk for `need` takes. */
  function Obtained(levels: seq<Level>, need: real): (qty: real)
    ensures qty >= 0.0
  {
    if need <= 0.0 then 0.0 else MinReal(need, Visible(levels))
  }

  function SplitPaid(side: Side, levels: seq<Level>, x: seq<real>): real
    requires |x| == |levels|
  {
    if x == [] then 0.0 else Paid(side, levels[0].price, x[0]) + SplitPaid(side, levels[1..], x[1..])
  }

  /** No level of `levels` costs an order of `side` less than `price`. */
  predicate NoCheaper(side: Side, levels: seq<Level>, price: real) {
    forall i :: 0 <= i < |levels| ==> Signed(side, levels[i].price) >= Signed(side, price)
  }

  lemma PaidMore(side: Side, p: real, b: real, qty: real)
    requires Signed(side, p) >= Signed(side, b) && qty >= 0.0
    ensures Paid(side, p, qty) >= Paid(side, b, qty)
  {
  }

  lemma PaidAdds(side: Side, p: real, a: real, b: real)
    ensures Paid(side, p, a + b) == Paid(side, p, a) + Paid(side, p, b)
  {
  }

  lemma TailCosts(side: Side, levels: seq<Level>)
    requires BestFirstOrder(Opposite(side), levels) && levels != []
    ensures BestFirstOrder(Opposite(side), levels[1..]) && NoCheaper(side, levels[1..], levels[0].price)
  {
  }

  /** Every split of at least the walked quantity costs the walk plus `b` for each unit more,
      when no level is cheaper than `b`. */
  lemma {:induction false} WalkBeatsSplit(side: Side, levels: seq<Level>, need: real, x: seq<real>, b: real)
    requires BestFirstOrder(Opposite(side), levels) && NoCheaper(side, levels, b)
    requires Split(levels, x) && SplitQty(x) >= Obtained(levels, need)
    ensures SplitPaid(side, levels, x) >= WalkPaid(side, levels, need) + Paid(side, b, SplitQty(x) - Obtained(levels, need))
  {
    if levels != [] {
      var p, rest, y := levels[0].price, levels[1..], x[1..];
      TailCosts(side, levels);
      assert Split(rest, y);
      var take := if need <= 0.0 then 0.0 else MinReal(need, levels[0].qty);
      var left := if take > 0.0 then need - take else need;
      var excess := SplitQty(y) - Obtained(rest, left);
      if need <= 0.0 {
        NothingNeeded(side, rest, left);
      }
      HeadFits(levels, need, x);
      WalkBeatsSplit(side, rest, left, y, p);
      Exchange(side, p, b, x[0], if take > 0.0 then take else 0.0, excess);
    }
  }

  lemma NothingNeeded(side: Side, levels: seq<Level>, need: real)
    requires need <= 0.0
    ensures Obtained(levels, need) == 0.0 && WalkPaid(side, levels, need) == 0.0
  {
  }

  /** Taking less than the walk from the first level leaves more for the others. */
  lemma HeadFits(levels: seq<Level>, need: real, x: seq<real>)
    requires levels != [] && Split(levels, x) && SplitQty(x) >= Obtained(levels, need)
    ensures var take := if need <= 0.0 then 0.0 else MinReal(need, levels[0].qty);
            SplitQty(x[1..]) >= Obtained(levels[1..], if take > 0.0 then need - take else need)
  {
    if need <= 0.0 || (levels[0].qty > 0.0 && need <= levels[0].qty) {
      assert Obtained(levels[1..], 0.0) == 0.0;
      NonNegative(levels[1..], x[1..]);
    }
  }

  lemma {:induction false} NonNegative(levels: seq<Level>, x: seq<real>)
    requires Split(levels, x)
    ensures SplitQty(x) >= 0.0
  {
    if x != [] {
      NonNegative(levels[1..], x[1..]);
    }
  }

  /** Moving quantity from the walk's share of the first level to later levels. */
  lemma Exchange(side: Side, p: real, b: real, x0: real, take: real, excess: real)
    requires Signed(side, p) >= Signed(side, b) && excess + x0 - take >= 0.0
    ensures Paid(side, p, x0) + Paid(side, p, excess) >= Paid(side, p, take) + Paid(side, b, x0 + excess - take)
  {
    PaidAdds(side, p, x0 + excess - take, take);
    PaidAdds(side, p, x0, excess);
    PaidMore(side, p, b, x0 + excess - take);
  }

  // ---- in the source's own sums ----

  lemma {:induction false} NotionalAppend(a: seq<Fill>, b: seq<Fill>)
    ensures Notional(a + b) == Notional(a) + Notional(b)
  {
    if b == [] {
      assert a + b == a;
    } else {
      var n := |b| - 1;
      assert (a + b)[..|a + b| - 1] == a + b[..n];
      NotionalAppend(a, b[..n]);
    }
  }

  lemma PaidIs(side: Side, price: real, qty: real)
    ensures Paid(side, price, qty) == Signed(side, price * qty)
  {
  }

  lemma PaidCons(side: Side, f: Fill, rest: seq<Fill>)
    ensures Signed(side, Notional([f] + rest)) == Paid(side, f.price, f.qty) + Signed(side, Notional(rest))
  {
    NotionalAppend([f], rest);
    assert [f][..0] == [];
    assert Notional([f]) == f.price * f.qty;
    PaidIs(side, f.price, f.qty);
  }

  lemma WalkQuantity(levels: seq<Level>, need: real, ts: int)
    ensures Quantity(Walk(levels, need, ts)) == Obtained(levels, need)
  {
    if need > 0.0 {
      WalkTakes(levels, need, ts);
    }
  }

  lemma {:induction false} WalkNotional(side: Side, levels: seq<Level>, need: real, ts: int)
    ensures Signed(side, Notional(Walk(levels, need, ts))) == WalkPaid(side, levels, need)
  {
    if levels != [] && need > 0.0 {
      var take := MinReal(need, levels[0].qty);
      if take > 0.0 {
        WalkNotional(side, levels[1..], need - take, ts);
        PaidCons(side, Fill(levels[0].price, take, ts, 0.0), Walk(levels[1..], need - take, ts));
      } else {
        WalkNotional(side, levels[1..], need, ts);
      }
    }
  }

  lemma {:induction false} SplitSums(side: Side, levels: seq<Level>, x: seq<real>)
    requires |x| == |levels|
    ensures Signed(side, SplitNotional(levels, x)) == SplitPaid(side, levels, x)
  {
    if x != [] {
      SplitSums(side, levels[1..], x[1..]);
      PaidIs(side, levels[0].price, x[0]);
    }
  }

  /** Among all splits of the quantity it fills, a slice's walk pays the least when buying
      and receives the most when selling. */
  lemma WalkIsCheapest(side: Side, levels: seq<Level>, need: real, ts: int, x: seq<real>)
    requires BestFirstOrder(Opposite(side), levels)
    requires Split(levels, x) && SplitQty(x) == Quantity(Walk(levels, need, ts))
    ensures side == Bid ==> Notional(Walk(levels, need, ts)) <= SplitNotional(levels, x)
    ensures side == Ask ==> Notional(Walk(levels, need, ts)) >= SplitNotional(levels, x)
  {
    WalkQuantity(levels, need, ts);
    WalkNotional(side, levels, need, ts);
    SplitSums(side, levels, x);
    if levels != [] {
      var b := levels[0].price;
      WalkBeatsSplit(side, levels, need, x, b);
      assert Paid(side, b, 0.0) == 0.0;
    }
  }

  // ---- the spread layer ----

  /** Half the quoted spread of a two-sided view. */
  function HalfSpread(v: View): real
    requires v.bids != [] && v.asks != []
  {
    (v.asks[0].price - v.bids[0].price) / 2.0
  }

  predicate TwoSidedAt(views: seq<View>, t: int) {
    AsOf(views, t).Some? && AsOf(views, t).value.bids != [] && AsOf(views, t).value.asks != []
  }

  /** A fill's quantity times the half spread standing when it happened. */
  function HalfSpreadPart(views: seq<View>, f: Fill): real {
    if TwoSidedAt(views, f.tsNs) then f.qty * HalfSpread(AsOf(views, f.tsNs).value) else 0.0
  }

  function HalfSpreads(views: seq<View>, fills: seq<Fill>): real {
    if fills == [] then 0.0
    else HalfSpreads(views, fills[..|fills| - 1]) + HalfSpreadPart(views, fills[|fills| - 1])
  }

  /** A fill of positive quantity at the opposite touch of its view, or deeper. */
  predicate BeyondTouch(side: Side, views: seq<View>, f: Fill) {
    && f.qty > 0.0
    && AsOf(views, f.tsNs).Some?
    && var levels := Taken(side, AsOf(views, f.tsNs).value);
       levels != [] && Signed(side, f.price) >= Signed(side, levels[0].price)
  }

  lemma {:induction false} WalkBeyond(side: Side, levels: seq<Level>, need: real, ts: int, price: real)
    requires NoCheaper(side, levels, price)
    ensures forall f :: f in Walk(levels, need, ts) ==>
              f.qty > 0.0 && f.tsNs == ts && Signed(side, f.price) >= Signed(side, price)
  {
    if levels != [] && need > 0.0 {
      var take := MinReal(need, levels[0].qty);
      WalkBeyond(side, levels[1..], if take > 0.0 then need - take else need, ts, price);
    }
  }

  predicate BestFirstViews(views: seq<View>) {
    forall v :: v in views ==> BestFirstOrder(Bid, v.bids) && BestFirstOrder(Ask, v.asks)
  }

  lemma SliceBeyondTouch(side: Side, views: seq<View>, t: int, need: real)
    requires BestFirstViews(views)
    ensures forall f :: f in Walk(ShownAt(side, views, t), need, t) ==> BeyondTouch(side, views, f)
  {
    var levels := ShownAt(side, views, t);
    if levels != [] {
      assert AsOf(views, t).value in views;
      WalkBeyond(side, levels, need, t, levels[0].price);
    }
  }

  lemma {:induction false} FillsBeyondTouch(order: Order, views: seq<View>, j: Job, k: nat)
    requires BestFirstViews(views) && WellCut(j) && k <= |j.shown|
    requires j.shown == SlicesShown(order.side, views, j.times)
    ensures forall f :: f in FillsAfter(j, k) ==> BeyondTouch(order.side, views, f)
  {
    if k > 0 {
      FillsBeyondTouch(order, views, j, k - 1);
      SliceBeyondTouch(order.side, views, j.times[k - 1], Owed(j, k, FillsAfter(j, k - 1)));
    }
  }

  lemma PartAboveHalfSpread(side: Side, v: View, f: Fill)
    requires v.bids != [] && v.asks != [] && f.qty >= 0.0
    requires Signed(side, f.price) >= Signed(side, Taken(side, v)[0].price)
    ensures SpreadPart(side, f, Mid(v).value) >= f.qty * HalfSpread(v)
  {
    var m := Mid(v).value;
    assert Signed(side, f.price - m) >= HalfSpread(v);
    assert SpreadPart(side, f, m) == f.qty * Signed(side, f.price - m);
    ScaleReal(HalfSpread(v), Signed(side, f.price - m), f.qty);
  }

  lemma {:induction false} LayerAboveHalfSpreads(side: Side, p0: real, views: seq<View>, fills: seq<Fill>)
    requires Layered(side, p0, views, fills).Ok?
    requires forall f :: f in fills ==> BeyondTouch(side, views, f)
    ensures forall f :: f in fills ==> TwoSidedAt(views, f.tsNs)
    ensures Layered(side, p0, views, fills).value.spread >= HalfSpreads(views, fills)
  {
    if fills != [] {
      var n := |fills| - 1;
      InitIn(fills);
      LayerAboveHalfSpreads(side, p0, views, fills[..n]);
      assert fills == fills[..n] + [fills[n]];
      FillAboveHalfSpread(side, views, fills[n]);
    }
  }

  lemma FillAboveHalfSpread(side: Side, views: seq<View>, f: Fill)
    requires MidAt(f.tsNs, views).Ok? && BeyondTouch(side, views, f)
    ensures TwoSidedAt(views, f.tsNs)
    ensures SpreadPart(side, f, MidAt(f.tsNs, views).value) >= HalfSpreadPart(views, f)
  {
    PartAboveHalfSpread(side, AsOf(views, f.tsNs).value, f);
  }

  /** Every simulated execution pays at least half the quoted spread on every unit it fills. */
  lemma SpreadLayerFloor(order: Order, views: seq<View>, startNs: int, endNs: int, slices: int)
    requires BestFirstViews(views)
    requires Simulated(order, views, startNs, endNs, slices).Ok?
    requires ShortfallOf(order, Simulated(order, views, startNs, endNs, slices).value, views).Ok?
    ensures var fills := Simulated(order, views, startNs, endNs, slices).value;
            && (forall f :: f in fills ==> TwoSidedAt(views, f.tsNs) && f.qty > 0.0)
            && ShortfallOf(order, fills, views).value.spread >= HalfSpreads(views, fills)
  {
    var fills := Simulated(order, views, startNs, endNs, slices).value;
    if fills != [] {
      FillsBeyondTouch(order, views, Plan(order, views, startNs, endNs, slices), slices);
    }
    LayerAboveHalfSpreads(order.side, MidAt(order.decisionNs, views).value, views, fills);
  }

  /** The spread in basis points of the target's notional covers those half spreads. */
  predicate CoversHalfSpreads(a: Attribution, notional: real, halfSpreads: real) {
    a.spreadBps * notional >= 10000.0 * halfSpreads
  }

  lemma CoversWhen(a: Attribution, notional: real, spread: real, timing: real, fees: real, opportunity: real, halfSpreads: real)
    requires InCurrency(a, notional, spread, timing, fees, opportunity) && spread >= halfSpreads
    ensures CoversHalfSpreads(a, notional, halfSpreads)
    ensures notional > 0.0 && halfSpreads > 0.0 ==> a.spreadBps > 0.0
  {
    if notional > 0.0 && halfSpreads > 0.0 {
      SameOrder(a.spreadBps, 0.0, notional);
    }
  }

  /** What the backtest reports as spread is at least that floor, in basis points. */
  lemma ReportedSpreadFloor(order: Order, views: seq<View>, startNs: int, endNs: int, slices: int)
    requires BestFirstViews(views)
    requires Simulated(order, views, startNs, endNs, slices).Ok?
    requires Attributed(order, Simulated(order, views, startNs, endNs, slices).value, views).Ok?
    ensures var fills, notional := Simulated(order, views, startNs, endNs, slices).value, TargetAt(order, MidAt(order.decisionNs, views).value);
            && CoversHalfSpreads(Attributed(order, fills, views).value, notional, HalfSpreads(views, fills))
            && (notional > 0.0 && HalfSpreads(views, fills) > 0.0 ==> Attributed(order, fills, views).value.spreadBps > 0.0)
  {
    var fills, p0 := Simulated(order, views, startNs, endNs, slices).value, MidAt(order.decisionNs, views).value;
    EachLayer(order, fills, views);
    LayersApart(order.side, p0, views, fills);
    SpreadLayerFloor(order, views, startNs, endNs, slices);
    CoversWhen(Attributed(order, fills, views).value, TargetAt(order, p0), BeyondMids(order.side, views, fills),
               MidMoves(order.side, p0, views, fills), Fees(fills), LeftUndone(order, fills, p0, Mid(views[|views| - 1]).value),
               HalfSpreads(views, fills));
  }

  lemma ReportedSpreadPositive(order: Order, views: seq<View>, startNs: int, endNs: int, slices: int)
    requires forall v :: v in views ==> GoodView(v)
    requires Simulated(order, views, startNs, endNs, slices).Ok?
    requires Attributed(order, Simulated(order, views, startNs, endNs, slices).value, views).Ok?
    ensures var fills := Simulated(order, views, startNs, endNs, slices).value;
            fills != [] && TargetAt(order, MidAt(order.decisionNs, views).value) > 0.0 ==> Attributed(order, fills, views).value.spreadBps > 0.0
  {
    SpreadLayerFloor(order, views, startNs, endNs, slices);
    HalfSpreadsCost(views, Simulated(order, views, startNs, endNs, slices).value);
    ReportedSpreadFloor(order, views, startNs, endNs, slices);
  }

  lemma HalfSpreadCosts(views: seq<View>, f: Fill)
    requires forall v :: v in views ==> GoodView(v)
    requires TwoSidedAt(views, f.tsNs) && f.qty > 0.0
    ensures HalfSpreadPart(views, f) > 0.0
  {
    var v := AsOf(views, f.tsNs).value;
    assert v in views;
    PositiveProduct(f.qty, HalfSpread(v));
  }

  /** With good views the floor is not negative: crossing the spread is never free. */
  lemma {:induction false} HalfSpreadsCost(views: seq<View>, fills: seq<Fill>)
    requires forall v :: v in views ==> GoodView(v)
    requires forall f :: f in fills ==> TwoSidedAt(views, f.tsNs) && f.qty > 0.0
    ensures fills != [] ==> HalfSpreads(views, fills) > 0.0
  {
    if fills != [] {
      var n := |fills| - 1;
      InitIn(fills);
      HalfSpreadsCost(views, fills[..n]);
      HalfSpreadCosts(views, fills[n]);
    }
  }
}
