/** Decomposing what an execution cost, and what the decomposition guarantees. */
module Costs {
  import opened Market
  import opened Execution

  /** Positive means cost on both sides of the market: `x` times +1 for a buy, -1 for a sell. */
  function Signed(side: Side, x: real): real {
    if side == Bid then x else -x
  }

  /** What a fill paid beyond the mid standing at its stamp. */
  function SpreadPart(side: Side, f: Fill, m: real): real {
    Signed(side, f.qty * (f.price - m))
  }

  /** What the mid had moved since arrival when a fill happened. */
  function TimingPart(side: Side, f: Fill, m: real, p0: real): real {
    Signed(side, f.qty * (m - p0))
  }

  /** What leaving `qty` undone cost by the end. */
  function OpportunityPart(side: Side, qty: real, p0: real, pEnd: real): real {
    Signed(side, qty * (pEnd - p0))
  }

  /** Running sums in currency, and the quantity they cover. */
  datatype Layers = Layers(spread: real, timing: real, fees: real, filled: real)

  const NO_LAYERS: Layers := Layers(0.0, 0.0, 0.0, 0.0)

  function AddFill(l: Layers, side: Side, p0: real, views: seq<View>, f: Fill): Result<Layers> {
    match MidAt(f.tsNs, views)
    case Err(e) => Err(e)
    case Ok(m) =>
      Ok(Layers(l.spread + SpreadPart(side, f, m),
                l.timing + TimingPart(side, f, m, p0),
                l.fees + f.fee,
                l.filled + f.qty))
  }

  function Layered(side: Side, p0: real, views: seq<View>, fills: seq<Fill>): Result<Layers> {
    if fills == [] then Ok(NO_LAYERS)
    else
      match Layered(side, p0, views, fills[..|fills| - 1])
      case Err(e) => Err(e)
      case Ok(l) => AddFill(l, side, p0, views, fills[|fills| - 1])
  }

  /** The four layers in currency, with the notional they are measured against. */
  datatype Shortfall = Shortfall(spread: real, timing: real, fees: real, opportunity: real, notional: real)

  function Assembled(order: Order, l: Layers, p0: real, pEnd: real): Shortfall {
    Shortfall(l.spread, l.timing, l.fees,
              OpportunityPart(order.side, order.targetQty - l.filled, p0, pEnd),
              order.targetQty * p0)
  }

  function ShortfallOf(order: Order, fills: seq<Fill>, views: seq<View>): Result<Shortfall> {
    if views == [] then Err(ValueError)
    else
      match MidAt(order.decisionNs, views)
      case Err(e) => Err(e)
      case Ok(p0) =>
        match Mid(views[|views| - 1])
        case Err(e) => Err(e)
        case Ok(pEnd) =>
          match Layered(order.side, p0, views, fills)
          case Err(e) => Err(e)
          case Ok(l) =>
            Ok(Assembled(order, l, p0, pEnd))
  }

  datatype Attribution = Attribution(spreadBps: real, timingBps: real, feesBps: real, opportunityBps: real, totalBps: real)

  function InBps(s: Shortfall): Result<Attribution> {
    if s.notional == 0.0 then Err(ArithmeticError)
    else
      var scale := 10000.0 / s.notional;
      Ok(Attribution(s.spread * scale, s.timing * scale, s.fees * scale, s.opportunity * scale,
                     s.spread * scale + s.timing * scale + s.fees * scale + s.opportunity * scale))
  }

  function Attributed(order: Order, fills: seq<Fill>, views: seq<View>): Result<Attribution> {
    match ShortfallOf(order, fills, views)
    case Err(e) => Err(e)
    case Ok(s) => InBps(s)
  }

  lemma {:induction false} LayeredFails(side: Side, p0: real, views: seq<View>, fills: seq<Fill>, i: nat)
    requires i <= |fills| && Layered(side, p0, views, fills[..i]).Err?
    ensures Layered(side, p0, views, fills) == Layered(side, p0, views, fills[..i])
  {
    if i == |fills| {
      assert fills[..i] == fills;
    } else {
      var init := fills[..|fills| - 1];
      assert init[..i] == fills[..i];
      LayeredFails(side, p0, views, init, i);
    }
  }

  method SumLayers(side: Side, p0: real, fills: seq<Fill>, views: seq<View>) returns (r: Result<Layers>)
    ensures r == Layered(side, p0, views, fills)
  {
    var spread, timing, fees, filled := 0.0, 0.0, 0.0, 0.0;
    assert fills[..0] == [];
    for i := 0 to |fills|
      invariant Layered(side, p0, views, fills[..i]).Ok?
      invariant Layered(side, p0, views, fills[..i]).value == Layers(spread, timing, fees, filled)
    {
      assert fills[..i + 1][..i] == fills[..i];
      var f := fills[i];
      var mid := MidAt(f.tsNs, views);
      if mid.Err? {
        LayeredFails(side, p0, views, fills, i + 1);
        return Err(mid.error);
      }
      spread := spread + SpreadPart(side, f, mid.value);
      timing := timing + TimingPart(side, f, mid.value, p0);
      fees := fees + f.fee;
      filled := filled + f.qty;
    }
    assert fills[..|fills|] == fills;
    r := Ok(Layers(spread, timing, fees, filled));
  }

  method AttributeSlippage(order: Order, fills: seq<Fill>, views: seq<View>) returns (r: Result<Attribution>)
    ensures r == Attributed(order, fills, views)
  {
    if views == [] {
      return Err(ValueError);
    }
    var p0 := MidAt(order.decisionNs, views);
    if p0.Err? {
      return Err(p0.error);
    }
    var pEnd := Mid(views[|views| - 1]);
    if pEnd.Err? {
      return Err(pEnd.error);
    }
    var sums := SumLayers(order.side, p0.value, fills, views);
    if sums.Err? {
      return Err(sums.error);
    }
    r := InBps(Assembled(order, sums.value, p0.value, pEnd.value));
  }

  // ---- the layers add up ----

  /** What a fill paid beyond the arrival price. */
  function ArrivalPart(side: Side, f: Fill, p0: real): real {
    Signed(side, f.qty * (f.price - p0))
  }

  /** Whatever the mid was, it cancels. */
  lemma MidCancels(side: Side, f: Fill, m: real, p0: real)
    ensures SpreadPart(side, f, m) + TimingPart(side, f, m, p0) == ArrivalPart(side, f, p0)
  {
  }

  function AgainstArrival(side: Side, fills: seq<Fill>, p0: real): real {
    if fills == [] then 0.0
    else AgainstArrival(side, fills[..|fills| - 1], p0) + ArrivalPart(side, fills[|fills| - 1], p0)
  }

  /** The cost against arrival of buying or selling `q` for `notional`. */
  function FilledCost(side: Side, notional: real, q: real, p0: real): real {
    Signed(side, notional - q * p0)
  }

  lemma FilledCostGrows(side: Side, notional: real, q: real, f: Fill, p0: real)
    ensures FilledCost(side, notional + f.price * f.qty, q + f.qty, p0) == FilledCost(side, notional, q, p0) + ArrivalPart(side, f, p0)
  {
    assert (q + f.qty) * p0 == q * p0 + f.qty * p0;
    assert f.qty * (f.price - p0) == f.price * f.qty - f.qty * p0;
  }

  lemma {:induction false} AgainstArrivalIs(side: Side, fills: seq<Fill>, p0: real)
    ensures AgainstArrival(side, fills, p0) == FilledCost(side, Notional(fills), Quantity(fills), p0)
  {
    if fills != [] {
      var n := |fills| - 1;
      AgainstArrivalIs(side, fills[..n], p0);
      FilledCostGrows(side, Notional(fills[..n]), Quantity(fills[..n]), fills[n], p0);
    }
  }

  /** Whatever the mids were, spread and timing add up to the cost against arrival. */
  lemma {:induction false} LayersTelescope(side: Side, p0: real, views: seq<View>, fills: seq<Fill>)
    requires Layered(side, p0, views, fills).Ok?
    ensures var l := Layered(side, p0, views, fills).value;
            l.filled == Quantity(fills) && l.spread + l.timing == AgainstArrival(side, fills, p0)
  {
    if fills != [] {
      var n := |fills| - 1;
      LayersTelescope(side, p0, views, fills[..n]);
      MidCancels(side, fills[n], MidAt(fills[n].tsNs, views).value, p0);
    }
  }

  function Fees(fills: seq<Fill>): real {
    if fills == [] then 0.0 else Fees(fills[..|fills| - 1]) + fills[|fills| - 1].fee
  }

  lemma {:induction false} LayersFees(side: Side, p0: real, views: seq<View>, fills: seq<Fill>)
    requires Layered(side, p0, views, fills).Ok?
    ensures Layered(side, p0, views, fills).value.fees == Fees(fills)
  {
    if fills != [] {
      LayersFees(side, p0, views, fills[..|fills| - 1]);
    }
  }

  /** The order as it went, `q` done for `notional` and the rest of `t` at `pEnd`, against doing it all at `p0`. */
  function PaperCost(side: Side, notional: real, q: real, t: real, p0: real, pEnd: real): real {
    Signed(side, notional + (t - q) * pEnd - t * p0)
  }

  /** No residual: the four layers are the paper cost of the whole order, filled part at
      its fill prices and the rest at the closing mid, plus fees. */
  lemma LayersSumToShortfall(order: Order, fills: seq<Fill>, views: seq<View>)
    requires ShortfallOf(order, fills, views).Ok?
    ensures var s := ShortfallOf(order, fills, views).value;
            var p0, pEnd := MidAt(order.decisionNs, views).value, Mid(views[|views| - 1]).value;
            s.spread + s.timing + s.fees + s.opportunity
            == PaperCost(order.side, Notional(fills), Quantity(fills), order.targetQty, p0, pEnd) + Fees(fills)
  {
    var p0, pEnd := MidAt(order.decisionNs, views).value, Mid(views[|views| - 1]).value;
    LayersTelescope(order.side, p0, views, fills);
    AgainstArrivalIs(order.side, fills, p0);
    LayersFees(order.side, p0, views, fills);
    Complete(order.side, Notional(fills), Quantity(fills), order.targetQty, p0, pEnd);
  }

  lemma Complete(side: Side, notional: real, q: real, t: real, p0: real, pEnd: real)
    ensures FilledCost(side, notional, q, p0) + OpportunityPart(side, t - q, p0, pEnd)
            == PaperCost(side, notional, q, t, p0, pEnd)
  {
    assert (t - q) * (pEnd - p0) == (t - q) * pEnd - (t - q) * p0;
    assert (t - q) * p0 == t * p0 - q * p0;
  }

  // ---- layer by layer ----

  /** The mid standing at a fill. */
  function MidOf(f: Fill, views: seq<View>): real {
    if MidAt(f.tsNs, views).Ok? then MidAt(f.tsNs, views).value else 0.0
  }

  function Beyond(f: Fill, mid: real): real {
    f.qty * (f.price - mid)
  }

  function Moves(f: Fill, mid: real, p0: real): real {
    f.qty * (mid - p0)
  }

  /** What the fills paid, unit by unit, beyond the mid standing at each. */
  function BeyondMids(side: Side, views: seq<View>, fills: seq<Fill>): real {
    if fills == [] then 0.0
    else
      var n := |fills| - 1;
      BeyondMids(side, views, fills[..n]) + Signed(side, Beyond(fills[n], MidOf(fills[n], views)))
  }

  /** What the mid had moved from `p0` by each fill, unit by unit. */
  function MidMoves(side: Side, p0: real, views: seq<View>, fills: seq<Fill>): real {
    if fills == [] then 0.0
    else
      var n := |fills| - 1;
      MidMoves(side, p0, views, fills[..n]) + Signed(side, Moves(fills[n], MidOf(fills[n], views), p0))
  }

  lemma {:induction false} LayersApart(side: Side, p0: real, views: seq<View>, fills: seq<Fill>)
    requires Layered(side, p0, views, fills).Ok?
    ensures var l := Layered(side, p0, views, fills).value;
            && l.spread == BeyondMids(side, views, fills)
            && l.timing == MidMoves(side, p0, views, fills)
            && l.fees == Fees(fills)
            && l.filled == Quantity(fills)
  {
    if fills != [] {
      var n := |fills| - 1;
      LayersApart(side, p0, views, fills[..n]);
      FillApart(Layered(side, p0, views, fills[..n]).value, side, p0, views, fills[n]);
    }
  }

  lemma FillApart(l: Layers, side: Side, p0: real, views: seq<View>, f: Fill)
    requires AddFill(l, side, p0, views, f).Ok?
    ensures var l' := AddFill(l, side, p0, views, f).value;
            && l'.spread == l.spread + Signed(side, Beyond(f, MidOf(f, views)))
            && l'.timing == l.timing + Signed(side, Moves(f, MidOf(f, views), p0))
            && l'.fees == l.fees + f.fee
            && l'.filled == l.filled + f.qty
  {
  }

  /** A figure in basis points of `notional` gives back the amount. */
  lemma BpsBack(amount: real, notional: real)
    requires notional != 0.0
    ensures amount * (10000.0 / notional) * notional == 10000.0 * amount
  {
    assert 10000.0 / notional * notional == 10000.0;
    Commute(amount, 10000.0 / notional, notional);
  }

  lemma Commute(a: real, b: real, c: real)
    ensures a * b * c == a * (b * c)
  {
  }

  /** An attribution in basis points of `notional`, put back into currency. */
  predicate InCurrency(a: Attribution, notional: real, spread: real, timing: real, fees: real, opportunity: real) {
    && a.spreadBps * notional == 10000.0 * spread
    && a.timingBps * notional == 10000.0 * timing
    && a.feesBps * notional == 10000.0 * fees
    && a.opportunityBps * notional == 10000.0 * opportunity
    && a.totalBps == a.spreadBps + a.timingBps + a.feesBps + a.opportunityBps
  }

  lemma BpsOfShortfall(s: Shortfall)
    requires s.notional != 0.0
    ensures InBps(s).Ok? && InCurrency(InBps(s).value, s.notional, s.spread, s.timing, s.fees, s.opportunity)
  {
    BpsBack(s.spread, s.notional);
    BpsBack(s.timing, s.notional);
    BpsBack(s.fees, s.notional);
    BpsBack(s.opportunity, s.notional);
  }

  /** The target valued at `p0`. */
  function TargetAt(order: Order, p0: real): real {
    order.targetQty * p0
  }

  /** The mids an attribution needs are there. */
  predicate MidsThere(order: Order, fills: seq<Fill>, views: seq<View>) {
    && views != [] && MidAt(order.decisionNs, views).Ok? && Mid(views[|views| - 1]).Ok?
    && forall f :: f in fills ==> MidAt(f.tsNs, views).Ok?
  }

  /** What the unfilled part lost by the close. */
  function LeftUndone(order: Order, fills: seq<Fill>, p0: real, pEnd: real): real {
    Signed(order.side, (order.targetQty - Quantity(fills)) * (pEnd - p0))
  }

  lemma AttributedIs(order: Order, fills: seq<Fill>, views: seq<View>)
    ensures Attributed(order, fills, views).Ok? <==>
            MidsThere(order, fills, views) && TargetAt(order, MidAt(order.decisionNs, views).value) != 0.0
    ensures Attributed(order, fills, views).Ok? ==>
              var p0 := MidAt(order.decisionNs, views).value;
              Layered(order.side, p0, views, fills).Ok? &&
              var r := InBps(Assembled(order, Layered(order.side, p0, views, fills).value, p0, Mid(views[|views| - 1]).value));
              r.Ok? && Attributed(order, fills, views).value == r.value
  {
    if views != [] && MidAt(order.decisionNs, views).Ok? {
      LayeredNeedsMids(order.side, MidAt(order.decisionNs, views).value, views, fills);
    }
  }

  /** Each layer under its own name, in basis points of the target at the arrival mid: spread is
      what the fills paid beyond the mids standing at them, timing is how far those mids had moved
      since arrival, fees are the fills' fees, and opportunity is what was left undone at the
      closing mid. It fails exactly when that notional is zero or a mid it needs is missing. */
  lemma EachLayer(order: Order, fills: seq<Fill>, views: seq<View>)
    ensures Attributed(order, fills, views).Ok? <==>
            MidsThere(order, fills, views) && TargetAt(order, MidAt(order.decisionNs, views).value) != 0.0
    ensures Attributed(order, fills, views).Ok? ==>
              var p0, pEnd := MidAt(order.decisionNs, views).value, Mid(views[|views| - 1]).value;
              InCurrency(Attributed(order, fills, views).value, TargetAt(order, p0),
                         BeyondMids(order.side, views, fills), MidMoves(order.side, p0, views, fills),
                         Fees(fills), LeftUndone(order, fills, p0, pEnd))
  {
    AttributedIs(order, fills, views);
    if Attributed(order, fills, views).Ok? {
      var p0 := MidAt(order.decisionNs, views).value;
      LayersApart(order.side, p0, views, fills);
      BpsOfAssembled(order, fills, Layered(order.side, p0, views, fills).value, p0, Mid(views[|views| - 1]).value,
                     Attributed(order, fills, views).value, BeyondMids(order.side, views, fills), MidMoves(order.side, p0, views, fills));
    }
  }

  lemma BpsOfAssembled(order: Order, fills: seq<Fill>, l: Layers, p0: real, pEnd: real, a: Attribution, spread: real, timing: real)
    requires TargetAt(order, p0) != 0.0 && l == Layers(spread, timing, Fees(fills), Quantity(fills))
    requires InBps(Assembled(order, l, p0, pEnd)).Ok? && a == InBps(Assembled(order, l, p0, pEnd)).value
    ensures InCurrency(a, TargetAt(order, p0), spread, timing, Fees(fills), LeftUndone(order, fills, p0, pEnd))
  {
    BpsOfShortfall(Assembled(order, l, p0, pEnd));
  }

  lemma {:induction false} LayeredNeedsMids(side: Side, p0: real, views: seq<View>, fills: seq<Fill>)
    ensures Layered(side, p0, views, fills).Ok? <==> forall f :: f in fills ==> MidAt(f.tsNs, views).Ok?
  {
    if fills != [] {
      var n := |fills| - 1;
      InitIn(fills);
      LayeredNeedsMids(side, p0, views, fills[..n]);
      assert fills == fills[..n] + [fills[n]];
    }
  }

  lemma {:induction false} NoMoves(side: Side, p0: real, views: seq<View>, fills: seq<Fill>)
    requires forall f :: f in fills ==> MidOf(f, views) == p0
    ensures MidMoves(side, p0, views, fills) == 0.0
  {
    if fills != [] {
      InitIn(fills);
      NoMoves(side, p0, views, fills[..|fills| - 1]);
      assert Moves(fills[|fills| - 1], p0, p0) == 0.0;
    }
  }

  /** When the mid is the arrival mid at every fill there is no timing cost; when the order is
      filled there is no opportunity cost. */
  lemma LayersThatVanish(order: Order, fills: seq<Fill>, views: seq<View>)
    requires Attributed(order, fills, views).Ok?
    ensures (forall f :: f in fills ==> MidAt(f.tsNs, views) == MidAt(order.decisionNs, views)) ==>
              Attributed(order, fills, views).value.timingBps == 0.0
    ensures Quantity(fills) == order.targetQty ==> Attributed(order, fills, views).value.opportunityBps == 0.0
  {
    EachLayer(order, fills, views);
    var p0, pEnd := MidAt(order.decisionNs, views).value, Mid(views[|views| - 1]).value;
    VanishingLayers(Attributed(order, fills, views).value, TargetAt(order, p0),
                    BeyondMids(order.side, views, fills), MidMoves(order.side, p0, views, fills), Fees(fills), LeftUndone(order, fills, p0, pEnd));
    if forall f :: f in fills ==> MidAt(f.tsNs, views) == MidAt(order.decisionNs, views) {
      NoMoves(order.side, p0, views, fills);
    }
    if Quantity(fills) == order.targetQty {
      NothingLeft(order, fills, p0, pEnd);
    }
  }

  lemma NothingLeft(order: Order, fills: seq<Fill>, p0: real, pEnd: real)
    requires Quantity(fills) == order.targetQty
    ensures LeftUndone(order, fills, p0, pEnd) == 0.0
  {
  }

  lemma VanishingLayers(a: Attribution, notional: real, spread: real, timing: real, fees: real, opportunity: real)
    requires notional != 0.0 && InCurrency(a, notional, spread, timing, fees, opportunity)
    ensures timing == 0.0 ==> a.timingBps == 0.0
    ensures opportunity == 0.0 ==> a.opportunityBps == 0.0
  {
  }

  /** The total in basis points is the whole shortfall over the target notional. */
  lemma TotalIsShortfallInBps(s: Shortfall)
    requires s.notional != 0.0
    ensures InBps(s).Ok?
    ensures InBps(s).value.totalBps == (s.spread + s.timing + s.fees + s.opportunity) * (10000.0 / s.notional)
  {
    var scale := 10000.0 / s.notional;
    Distribute(s.spread, s.timing, scale);
    Distribute(s.spread + s.timing, s.fees, scale);
    Distribute(s.spread + s.timing + s.fees, s.opportunity, scale);
  }

  // ---- the interval benchmark ----

  /** A bucket that counts: it lies in the window, and some view stands by then. */
  predicate Counts(views: seq<View>, b: (int, real), startNs: int, endNs: int) {
    startNs <= b.0 <= endNs && AsOf(views, b.0).Some?
  }

  function MidAtBucket(views: seq<View>, b: (int, real)): real {
    if MidAt(b.0, views).Ok? then MidAt(b.0, views).value else 0.0
  }

  /** The volume of the buckets that count ... */
  function VolumeIn(views: seq<View>, volumes: seq<(int, real)>, startNs: int, endNs: int): real {
    if volumes == [] then 0.0
    else
      var n := |volumes| - 1;
      VolumeIn(views, volumes[..n], startNs, endNs) + if Counts(views, volumes[n], startNs, endNs) then volumes[n].1 else 0.0
  }

  function Turnover(mid: real, volume: real): real {
    mid * volume
  }

  /** ... and that volume at the mid standing at each. */
  function TurnoverIn(views: seq<View>, volumes: seq<(int, real)>, startNs: int, endNs: int): real {
    if volumes == [] then 0.0
    else
      var n := |volumes| - 1;
      TurnoverIn(views, volumes[..n], startNs, endNs)
      + if Counts(views, volumes[n], startNs, endNs) then Turnover(MidAtBucket(views, volumes[n]), volumes[n].1) else 0.0
  }

  predicate CountsIn(w: Weights, views: seq<View>, volumes: seq<(int, real)>, startNs: int, endNs: int) {
    && w.pv == TurnoverIn(views, volumes, startNs, endNs)
    && w.volume == VolumeIn(views, volumes, startNs, endNs)
    && (w.buckets == 0 <==> forall b :: b in volumes ==> !Counts(views, b, startNs, endNs))
  }

  lemma BucketCounts(w: Weights, views: seq<View>, b: (int, real), startNs: int, endNs: int)
    requires AddBucket(w, AsOf(views, b.0), b, startNs, endNs).Ok?
    ensures AddBucket(w, AsOf(views, b.0), b, startNs, endNs).value
            == if Counts(views, b, startNs, endNs) then Weights(w.pv + Turnover(MidAtBucket(views, b), b.1), w.volume + b.1, w.buckets + 1) else w
  {
  }

  lemma {:induction false} WeightsAre(views: seq<View>, volumes: seq<(int, real)>, startNs: int, endNs: int)
    ensures Weighted(views, volumes, startNs, endNs).Ok? <==>
            forall b :: b in volumes && Counts(views, b, startNs, endNs) ==> MidAt(b.0, views).Ok?
    ensures Weighted(views, volumes, startNs, endNs).Ok? ==>
              CountsIn(Weighted(views, volumes, startNs, endNs).value, views, volumes, startNs, endNs)
  {
    if volumes != [] {
      var n := |volumes| - 1;
      InitIn(volumes);
      WeightsAre(views, volumes[..n], startNs, endNs);
      assert forall b :: b in volumes <==> b in volumes[..n] || b == volumes[n];
      if Weighted(views, volumes, startNs, endNs).Ok? {
        BucketCounts(Weighted(views, volumes[..n], startNs, endNs).value, views, volumes[n], startNs, endNs);
      }
    }
  }

  /** The benchmark times the volume that counts is that volume at its mids. There is one exactly
      when the window is not empty, some bucket counts, those that do add up to some volume, and
      none of them meets a view without a mid. */
  lemma VwapIs(views: seq<View>, volumes: seq<(int, real)>, startNs: int, endNs: int)
    ensures Vwap(views, volumes, startNs, endNs).Ok? <==>
            && startNs < endNs
            && (exists b :: b in volumes && Counts(views, b, startNs, endNs))
            && VolumeIn(views, volumes, startNs, endNs) != 0.0
            && (forall b :: b in volumes && Counts(views, b, startNs, endNs) ==> MidAt(b.0, views).Ok?)
    ensures Vwap(views, volumes, startNs, endNs).Ok? ==>
              Turnover(Vwap(views, volumes, startNs, endNs).value, VolumeIn(views, volumes, startNs, endNs))
              == TurnoverIn(views, volumes, startNs, endNs)
  {
    WeightsAre(views, volumes, startNs, endNs);
    if b :| b in volumes && Counts(views, b, startNs, endNs) {
      assert views != [];
    }
    if Vwap(views, volumes, startNs, endNs).Ok? {
      AverageTimes(Weighted(views, volumes, startNs, endNs).value);
    }
  }

  lemma AverageTimes(w: Weights)
    requires w.volume != 0.0
    ensures Turnover(Average(w), w.volume) == w.pv
  {
  }

  /** Every mid the buckets can meet lies in [lo, hi], and no bucket has negative volume. */
  predicate MidsWithin(views: seq<View>, volumes: seq<(int, real)>, lo: real, hi: real) {
    && (forall b :: b in volumes ==> b.1 >= 0.0)
    && forall b :: b in volumes ==> MidAt(b.0, views).Ok? ==> lo <= MidAt(b.0, views).value <= hi
  }

  predicate AverageWithin(w: Weights, lo: real, hi: real) {
    w.volume >= 0.0 && lo * w.volume <= w.pv <= hi * w.volume
  }

  lemma {:induction false} WeightsBetween(views: seq<View>, volumes: seq<(int, real)>, startNs: int, endNs: int, lo: real, hi: real)
    requires MidsWithin(views, volumes, lo, hi) && Weighted(views, volumes, startNs, endNs).Ok?
    ensures var w := Weighted(views, volumes, startNs, endNs).value;
            AverageWithin(w, lo, hi)
  {
    if volumes != [] {
      var n := |volumes| - 1;
      assert forall b :: b in volumes[..n] ==> b in volumes;
      WeightsBetween(views, volumes[..n], startNs, endNs, lo, hi);
      var before, bucket := Weighted(views, volumes[..n], startNs, endNs).value, volumes[n];
      BucketBetween(before, AsOf(views, bucket.0), bucket, startNs, endNs, lo, hi);
    }
  }

  lemma BucketBetween(w: Weights, at: Option<View>, bucket: (int, real), startNs: int, endNs: int, lo: real, hi: real)
    requires AverageWithin(w, lo, hi) && bucket.1 >= 0.0
    requires at.Some? && Mid(at.value).Ok? ==> lo <= Mid(at.value).value <= hi
    requires AddBucket(w, at, bucket, startNs, endNs).Ok?
    ensures var w' := AddBucket(w, at, bucket, startNs, endNs).value;
            AverageWithin(w', lo, hi)
  {
    if startNs <= bucket.0 <= endNs && at.Some? {
      ScaleReal(lo, Mid(at.value).value, bucket.1);
      ScaleReal(Mid(at.value).value, hi, bucket.1);
      Distribute(w.volume, bucket.1, lo);
      Distribute(w.volume, bucket.1, hi);
    }
  }

  /** The benchmark is an average: it lies between the mids it is made of. */
  lemma VwapIsAverage(views: seq<View>, volumes: seq<(int, real)>, startNs: int, endNs: int, lo: real, hi: real)
    requires MidsWithin(views, volumes, lo, hi) && Vwap(views, volumes, startNs, endNs).Ok?
    ensures lo <= Vwap(views, volumes, startNs, endNs).value <= hi
  {
    WeightsBetween(views, volumes, startNs, endNs, lo, hi);
    AverageBetween(Weighted(views, volumes, startNs, endNs).value, lo, hi);
  }

  lemma AverageBetween(w: Weights, lo: real, hi: real)
    requires AverageWithin(w, lo, hi) && w.volume != 0.0
    ensures lo <= Average(w) <= hi
  {
    assert Average(w) * w.volume == w.pv;
    SameOrder(lo, Average(w), w.volume);
    SameOrder(Average(w), hi, w.volume);
  }

  // ---- the two sides of the market ----

  predicate Mirrored(l: Layers, m: Layers) {
    l.spread == -m.spread && l.timing == -m.timing && l.fees == m.fees && l.filled == m.filled
  }

  lemma {:induction false} LayersMirror(p0: real, views: seq<View>, fills: seq<Fill>)
    ensures Layered(Bid, p0, views, fills).Ok? <==> Layered(Ask, p0, views, fills).Ok?
    ensures Layered(Bid, p0, views, fills).Ok? ==>
              Mirrored(Layered(Bid, p0, views, fills).value, Layered(Ask, p0, views, fills).value)
  {
    if fills != [] {
      LayersMirror(p0, views, fills[..|fills| - 1]);
    }
  }

  /** The other side of the market. */
  function Swapped(order: Order): Order {
    order.(side := Opposite(order.side))
  }

  predicate Opposed(s: Shortfall, o: Shortfall) {
    && o.spread == -s.spread && o.timing == -s.timing && o.opportunity == -s.opportunity
    && o.fees == s.fees && o.notional == s.notional
  }

  lemma AssembledMirror(order: Order, l: Layers, m: Layers, p0: real, pEnd: real)
    requires Mirrored(l, m)
    ensures Opposed(Assembled(order, l, p0, pEnd), Assembled(Swapped(order), m, p0, pEnd))
  {
  }

  /** Measured from the other side, every layer changes sign and the fees stay. */
  lemma SwappingSidesNegates(order: Order, fills: seq<Fill>, views: seq<View>)
    requires ShortfallOf(order, fills, views).Ok?
    ensures ShortfallOf(Swapped(order), fills, views).Ok?
    ensures Opposed(ShortfallOf(order, fills, views).value, ShortfallOf(Swapped(order), fills, views).value)
  {
    var p0, pEnd := MidAt(order.decisionNs, views).value, Mid(views[|views| - 1]).value;
    LayersMirror(p0, views, fills);
    AssembledMirror(order, Layered(order.side, p0, views, fills).value, Layered(Swapped(order).side, p0, views, fills).value, p0, pEnd);
  }
}
