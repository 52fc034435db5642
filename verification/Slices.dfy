/** Which slices of an order fill, when, and from which levels. */
module Slices {
  import opened Market
  import opened Execution
  import opened Schedule

  /** Slice `k` meets some quantity on the other side. */
  predicate Supplied(j: Job, k: nat) {
    k < |j.shown| && Visible(j.shown[k]) > 0.0
  }

  lemma {:induction false} WalkPositive(levels: seq<Level>, need: real, ts: int)
    ensures forall f :: f in Walk(levels, need, ts) ==> f.qty > 0.0 && f.tsNs == ts
  {
    if levels != [] && need > 0.0 {
      var take := MinReal(need, levels[0].qty);
      WalkPositive(levels[1..], if take > 0.0 then need - take else need, ts);
    }
  }

  lemma {:induction false} PositiveQuantity(fills: seq<Fill>)
    requires forall f :: f in fills ==> f.qty > 0.0
    ensures Quantity(fills) >= 0.0 && (fills != [] ==> Quantity(fills) > 0.0)
  {
    if fills != [] {
      var n := |fills| - 1;
      assert fills[n] in fills;
      PositiveQuantity(fills[..n]);
    }
  }

  lemma WalkFills(levels: seq<Level>, need: real, ts: int)
    requires need > 0.0
    ensures Walk(levels, need, ts) != [] <==> Visible(levels) > 0.0
  {
    WalkTakes(levels, need, ts);
    WalkPositive(levels, need, ts);
    PositiveQuantity(Walk(levels, need, ts));
  }

  /** What slice `k` adds to the fills before it. */
  function SliceFills(j: Job, k: nat): seq<Fill>
    requires WellCut(j) && k < |j.shown|
  {
    Walk(j.shown[k], Owed(j, k + 1, FillsAfter(j, k)), j.times[k])
  }

  lemma SliceSupplied(j: Job, k: nat)
    requires WellCut(j) && j.share > 0.0 && k < |j.shown|
    ensures FillsAfter(j, k + 1) == FillsAfter(j, k) + SliceFills(j, k)
    ensures SliceFills(j, k) != [] <==> Supplied(j, k)
    ensures forall f :: f in SliceFills(j, k) ==> f.qty > 0.0 && f.tsNs == j.times[k]
  {
    FilledIsReached(j, k);
    ReachedWithin(j, k);
    assert Scheduled(j, k + 1) == Scheduled(j, k) + j.share;
    var due := Owed(j, k + 1, FillsAfter(j, k));
    WalkFills(j.shown[k], due, j.times[k]);
    WalkPositive(j.shown[k], due, j.times[k]);
  }

  predicate FilledAt(fills: seq<Fill>, t: int) {
    exists f :: f in fills && f.tsNs == t
  }

  predicate FromSlice(j: Job, f: Fill, k: nat)
    requires WellCut(j) && k <= |j.shown|
  {
    f.qty > 0.0 && exists i :: 0 <= i < k && Supplied(j, i) && j.times[i] == f.tsNs
  }

  /** Every fill is positive and comes from a slice that met some quantity ... */
  lemma {:induction false} FillsAreSupplied(j: Job, k: nat)
    requires WellCut(j) && j.share > 0.0 && k <= |j.shown|
    ensures forall f :: f in FillsAfter(j, k) ==> FromSlice(j, f, k)
  {
    if k > 0 {
      FillsAreSupplied(j, k - 1);
      SliceSupplied(j, k - 1);
      forall f | f in FillsAfter(j, k)
        ensures FromSlice(j, f, k)
      {
        if f in FillsAfter(j, k - 1) {
          assert FromSlice(j, f, k - 1);
        } else {
          assert f in SliceFills(j, k - 1) && Supplied(j, k - 1);
        }
      }
    }
  }

  /** ... and every such slice fills. */
  lemma {:induction false} SuppliedSliceFills(j: Job, k: nat, i: nat)
    requires WellCut(j) && j.share > 0.0 && i < k <= |j.shown| && Supplied(j, i)
    ensures FilledAt(FillsAfter(j, k), j.times[i])
  {
    SliceSupplied(j, k - 1);
    var before, added := FillsAfter(j, k - 1), SliceFills(j, k - 1);
    if i < k - 1 {
      SuppliedSliceFills(j, k - 1, i);
      var f :| f in before && f.tsNs == j.times[i];
      assert f in before + added;
    } else {
      assert added[0] in added && added[0] in before + added;
    }
  }

  // ---- levels ----

  /** A fill takes some of what one level shows, at its price. */
  predicate TakenFrom(f: Fill, levels: seq<Level>) {
    exists i :: 0 <= i < |levels| && levels[i].price == f.price && 0.0 < f.qty <= levels[i].qty
  }

  lemma {:induction false} WalkTakesLevels(levels: seq<Level>, need: real, ts: int)
    ensures forall f :: f in Walk(levels, need, ts) ==> TakenFrom(f, levels)
  {
    if levels != [] && need > 0.0 {
      var take := MinReal(need, levels[0].qty);
      var left := if take > 0.0 then need - take else need;
      WalkTakesLevels(levels[1..], left, ts);
      forall f | f in Walk(levels[1..], left, ts)
        ensures TakenFrom(f, levels)
      {
        TakenLater(f, levels);
      }
      if take > 0.0 {
        assert TakenFrom(Fill(levels[0].price, take, ts, 0.0), levels);
      }
    }
  }

  lemma TakenLater(f: Fill, levels: seq<Level>)
    requires levels != [] && TakenFrom(f, levels[1..])
    ensures TakenFrom(f, levels)
  {
    var i :| 0 <= i < |levels[1..]| && levels[1..][i].price == f.price && 0.0 < f.qty <= levels[1..][i].qty;
    assert levels[i + 1] == levels[1..][i];
  }

  /** The quantity of the first `i` levels. */
  function QuantityOfFirst(levels: seq<Level>, i: nat): real
    requires i <= |levels|
  {
    if i == 0 then 0.0 else QuantityOfFirst(levels, i - 1) + levels[i - 1].qty
  }

  lemma {:induction false} FirstAndRest(levels: seq<Level>, i: nat)
    requires 0 < i <= |levels|
    ensures QuantityOfFirst(levels, i) == levels[0].qty + QuantityOfFirst(levels[1..], i - 1)
  {
    if i > 1 {
      FirstAndRest(levels, i - 1);
    }
  }

  /** One fill for each level reached, in turn: the whole level, except that the last one
      gives only what is still needed; and the walk goes on until nothing is. */
  predicate TakesInTurn(levels: seq<Level>, need: real, ts: int, fills: seq<Fill>) {
    && |fills| <= |levels|
    && (forall i :: 0 <= i < |fills| ==> FillOfLevel(levels, need, ts, fills[i], i))
    && (|fills| < |levels| ==> need <= QuantityOfFirst(levels, |fills|))
  }

  predicate FillOfLevel(levels: seq<Level>, need: real, ts: int, f: Fill, i: nat)
    requires i < |levels|
  {
    && need > QuantityOfFirst(levels, i)
    && f == Fill(levels[i].price, MinReal(levels[i].qty, need - QuantityOfFirst(levels, i)), ts, 0.0)
  }

  lemma {:induction false} WalkTakesInTurn(levels: seq<Level>, need: real, ts: int)
    requires forall i :: 0 <= i < |levels| ==> levels[i].qty > 0.0
    ensures TakesInTurn(levels, need, ts, Walk(levels, need, ts))
  {
    if levels != [] && need > 0.0 {
      var take := MinReal(need, levels[0].qty);
      var rest := Walk(levels[1..], need - take, ts);
      WalkTakesInTurn(levels[1..], need - take, ts);
      InTurnLater(levels, need, ts, rest);
      assert Walk(levels, need, ts) == [Fill(levels[0].price, take, ts, 0.0)] + rest;
    }
  }

  lemma InTurnLater(levels: seq<Level>, need: real, ts: int, rest: seq<Fill>)
    requires levels != [] && need > 0.0 && forall i :: 0 <= i < |levels| ==> levels[i].qty > 0.0
    requires TakesInTurn(levels[1..], need - MinReal(need, levels[0].qty), ts, rest)
    ensures TakesInTurn(levels, need, ts, [Fill(levels[0].price, MinReal(need, levels[0].qty), ts, 0.0)] + rest)
  {
    var fills := [Fill(levels[0].price, MinReal(need, levels[0].qty), ts, 0.0)] + rest;
    var left := need - MinReal(need, levels[0].qty);
    if rest != [] {
      assert FillOfLevel(levels[1..], left, ts, rest[0], 0);
    }
    forall i | 0 < i < |fills|
      ensures FillOfLevel(levels, need, ts, fills[i], i)
    {
      assert FillOfLevel(levels[1..], left, ts, rest[i - 1], i - 1);
      FirstAndRest(levels, i);
    }
    FirstAndRest(levels, |fills|);
  }

  /** The levels that show a quantity. */
  function Showing(levels: seq<Level>): seq<Level> {
    if levels == [] then []
    else if levels[0].qty > 0.0 then [levels[0]] + Showing(levels[1..]) else Showing(levels[1..])
  }

  /** Levels that show nothing are passed over. */
  lemma {:induction false} WalkPassesOver(levels: seq<Level>, need: real, ts: int)
    ensures Walk(levels, need, ts) == Walk(Showing(levels), need, ts)
    ensures forall i :: 0 <= i < |Showing(levels)| ==> Showing(levels)[i].qty > 0.0
  {
    if levels != [] {
      var take := MinReal(need, levels[0].qty);
      WalkPassesOver(levels[1..], if need > 0.0 && take > 0.0 then need - take else need, ts);
      if levels[0].qty > 0.0 {
        assert Showing(levels)[1..] == Showing(levels[1..]);
      } else if need <= 0.0 {
        assert Walk(levels, need, ts) == [] == Walk(Showing(levels), need, ts);
      }
    }
  }

  // ---- a simulated order ----

  predicate FilledFrom(fills: seq<Fill>, t: int, levels: seq<Level>) {
    exists f :: f in fills && f.tsNs == t && TakenFrom(f, levels)
  }

  predicate FromSomeSlice(f: Fill, side: Side, views: seq<View>, startNs: int, gap: nat, slices: nat) {
    exists k :: 0 <= k < slices && f.tsNs == InstantOf(startNs, gap, k) && TakenFrom(f, ShownAt(side, views, InstantOf(startNs, gap, k)))
  }

  /** What a slice adds: fills stamped with it, at levels it meets, and some if it meets quantity. */
  predicate SliceTraced(j: Job, k: nat, added: seq<Fill>)
    requires WellCut(j) && k < |j.shown|
  {
    && (forall f :: f in added ==> f.tsNs == j.times[k] && TakenFrom(f, j.shown[k]))
    && (Supplied(j, k) ==> FilledFrom(added, j.times[k], j.shown[k]))
  }

  lemma SliceTakes(j: Job, k: nat)
    requires WellCut(j) && j.share > 0.0 && k < |j.shown|
    ensures SliceTraced(j, k, SliceFills(j, k))
  {
    SliceSupplied(j, k);
    WalkTakesLevels(j.shown[k], Owed(j, k + 1, FillsAfter(j, k)), j.times[k]);
    if Supplied(j, k) {
      assert SliceFills(j, k)[0] in SliceFills(j, k);
    }
  }

  /** After `k` slices: where every fill comes from, and which slices have filled. */
  ghost predicate FillsTraced(j: Job, k: nat, fills: seq<Fill>)
    requires WellCut(j) && k <= |j.shown|
  {
    && (forall f :: f in fills ==> exists i :: 0 <= i < k && f.tsNs == j.times[i] && TakenFrom(f, j.shown[i]))
    && (forall i: nat :: i < k && Supplied(j, i) ==> FilledFrom(fills, j.times[i], j.shown[i]))
  }

  lemma {:induction false} FillsAreTraced(j: Job, k: nat)
    requires WellCut(j) && j.share > 0.0 && k <= |j.shown|
    ensures FillsTraced(j, k, FillsAfter(j, k))
  {
    if k > 0 {
      FillsAreTraced(j, k - 1);
      SliceTakes(j, k - 1);
      SliceSupplied(j, k - 1);
      TracedStep(j, k, FillsAfter(j, k - 1), SliceFills(j, k - 1));
    }
  }

  lemma TracedStep(j: Job, k: nat, before: seq<Fill>, added: seq<Fill>)
    requires WellCut(j) && 0 < k <= |j.shown| && FillsTraced(j, k - 1, before)
    requires SliceTraced(j, k - 1, added)
    ensures FillsTraced(j, k, before + added)
  {
    forall i: nat | i < k && Supplied(j, i)
      ensures FilledFrom(before + added, j.times[i], j.shown[i])
    {
      var part := if i < k - 1 then before else added;
      assert FilledFrom(part, j.times[i], j.shown[i]);
      var f :| f in part && f.tsNs == j.times[i] && TakenFrom(f, j.shown[i]);
      assert f in before + added;
    }
    forall f | f in before + added
      ensures exists i :: 0 <= i < k && f.tsNs == j.times[i] && TakenFrom(f, j.shown[i])
    {
      if f in before {
        var i :| 0 <= i < k - 1 && f.tsNs == j.times[i] && TakenFrom(f, j.shown[i]);
      } else {
        assert f in added;
      }
    }
  }

  /** When and at what prices an order fills, in its own terms: at instants evenly spaced from
      the start, as far apart as fit before the end; every one at which the other side shows some
      quantity leaves a fill stamped with it and priced at a level of the view standing then, and
      there are no other fills. */
  lemma FillsBySlice(order: Order, views: seq<View>, startNs: int, endNs: int, slices: nat) returns (gap: nat)
    requires views != [] && startNs < endNs && order.targetQty > 0.0 && slices > 0
    ensures slices * gap <= endNs - startNs < slices * (gap + 1)
    ensures var fills := Simulated(order, views, startNs, endNs, slices).value;
            && (forall k: nat :: k < slices && Visible(ShownAt(order.side, views, InstantOf(startNs, gap, k))) > 0.0 ==>
                  FilledFrom(fills, InstantOf(startNs, gap, k), ShownAt(order.side, views, InstantOf(startNs, gap, k))))
            && (forall f :: f in fills ==> FromSomeSlice(f, order.side, views, startNs, gap, slices))
  {
    var j := Plan(order, views, startNs, endNs, slices);
    PlanIsWorkable(order, views, startNs, endNs, slices);
    gap := PlanIsEven(order, views, startNs, endNs, slices);
    FillsAreTraced(j, slices);
    forall f | f in FillsAfter(j, slices)
      ensures FromSomeSlice(f, order.side, views, startNs, gap, slices)
    {
      var i :| 0 <= i < slices && f.tsNs == j.times[i] && TakenFrom(f, j.shown[i]);
      assert j.times[i] == InstantOf(startNs, gap, i);
    }
    forall k: nat | k < slices && Visible(ShownAt(order.side, views, InstantOf(startNs, gap, k))) > 0.0
      ensures FilledFrom(FillsAfter(j, slices), InstantOf(startNs, gap, k), ShownAt(order.side, views, InstantOf(startNs, gap, k)))
    {
      assert Supplied(j, k);
    }
  }
}
