/** What the read accessors of a book return. */
module BookReads {
  import opened Market
  import opened SortedDictionary
  import opened BookModel
  import opened BookLaws

  /** The listing starts at the touch. */
  lemma BestFirstFrom(side: Side, m: Ladder, p: real)
    requires IsTouch(side, m, p)
    ensures (m - {p}).Keys == m.Keys - {p}
    ensures BestFirst(side, m) == [m[p]] + BestFirst(side, m - {p})
  {
    assert forall q :: IsTouch(side, m, q) ==> q == p;
  }

  lemma EndsAreTouches(keys: seq<real>, m: Ladder)
    requires Lists(keys, m) && keys != []
    ensures IsTouch(Ask, m, keys[0])
    ensures IsTouch(Bid, m, keys[|keys| - 1])
  {
  }

  /** The first key's level, and then what the others list. */
  lemma ReadForwards(keys: seq<real>, m: Ladder, levels: seq<Level>)
    requires Lists(keys, m) && keys != [] && |levels| == |keys| - 1
    requires forall i :: 0 <= i < |levels| ==> keys[1..][i] in m && levels[i] == m[keys[1..][i]]
    ensures var all := [m[keys[0]]] + levels;
            forall i :: 0 <= i < |keys| ==> all[i] == m[keys[i]]
  {
  }

  /** The last key's level, and then what the others list from the tail. */
  lemma ReadBackwards(keys: seq<real>, m: Ladder, levels: seq<Level>)
    requires Lists(keys, m) && keys != [] && |levels| == |keys| - 1
    requires forall i :: 0 <= i < |levels| ==> levels[i] == m[keys[|keys| - 2 - i]]
    ensures var all := [m[keys[|keys| - 1]]] + levels;
            forall i :: 0 <= i < |keys| ==> all[i] == m[keys[|keys| - 1 - i]]
  {
  }

  /** An ascending listing is the asks best first ... */
  lemma {:induction false} ListedAsks(keys: seq<real>, m: Ladder)
    requires Lists(keys, m)
    ensures |keys| == |m|
    ensures forall i :: 0 <= i < |keys| ==> BestFirst(Ask, m)[i] == m[keys[i]]
  {
    ListingLength(keys, m);
    if keys != [] {
      ListsTail(keys, m);
      var tail, rest := keys[1..], m - {keys[0]};
      ListedAsks(tail, rest);
      EndsAreTouches(keys, m);
      BestFirstFrom(Ask, m, keys[0]);
      ReadForwards(keys, m, BestFirst(Ask, rest));
    }
  }

  /** ... and, read from the tail, the bids best first. */
  lemma {:induction false} ListedBids(keys: seq<real>, m: Ladder)
    requires Lists(keys, m)
    ensures |keys| == |m|
    ensures forall i :: 0 <= i < |keys| ==> BestFirst(Bid, m)[i] == m[keys[|keys| - 1 - i]]
  {
    ListingLength(keys, m);
    if keys != [] {
      var n := |keys| - 1;
      var init, rest := keys[..n], m - {keys[n]};
      ListsInit(keys, m);
      ListedBids(init, rest);
      EndsAreTouches(keys, m);
      BestFirstFrom(Bid, m, keys[n]);
      ReadBackwards(keys, m, BestFirst(Bid, rest));
    }
  }

  // ---- best-first listings ----

  /** `BestFirst` lists exactly the entries of a side, each strictly better than the next. */
  lemma {:induction false} BestFirstListsSide(side: Side, m: Ladder)
    requires SideOk(m)
    ensures BestFirstOrder(side, BestFirst(side, m))
    ensures forall l :: l in BestFirst(side, m) <==> l.price in m && m[l.price] == l
    decreases |m|
  {
    if m != map[] {
      TouchExists(side, m);
      var p :| IsTouch(side, m, p);
      var rest := m - {p};
      BestFirstFrom(side, m, p);
      BestFirstListsSide(side, rest);
      forall j | 0 <= j < |BestFirst(side, rest)|
        ensures Better(side, p, BestFirst(side, rest)[j].price)
      {
        assert BestFirst(side, rest)[j] in BestFirst(side, rest);
      }
      forall l: Level
        ensures l in BestFirst(side, m) <==> l.price in m && m[l.price] == l
      {
        assert l in BestFirst(side, m) <==> l == m[p] || l in BestFirst(side, rest);
      }
    }
  }

  /** There is one way to list some levels best first. */
  lemma {:induction false} ListingUnique(side: Side, a: seq<Level>, b: seq<Level>)
    requires BestFirstOrder(side, a) && BestFirstOrder(side, b)
    requires forall l :: l in a <==> l in b
    ensures a == b
  {
    if a == [] {
      assert forall i :: 0 <= i < |b| ==> b[i] in b;
    } else {
      assert a[0] in b && b[0] in a;
      assert a[0] == b[0];
      forall l
        ensures l in a[1..] <==> l in b[1..]
      {
        TailHolds(side, a, l);
        TailHolds(side, b, l);
      }
      ListingUnique(side, a[1..], b[1..]);
      assert a == [a[0]] + a[1..] && b == [b[0]] + b[1..];
    }
  }

  lemma TailHolds(side: Side, a: seq<Level>, l: Level)
    requires BestFirstOrder(side, a) && a != []
    ensures l in a[1..] <==> l in a && l != a[0]
  {
    assert a == [a[0]] + a[1..];
  }

  /** A side loaded from levels that come best first lists them as they came. */
  lemma LoadedListing(side: Side, levels: seq<Level>)
    requires BestFirstOrder(side, levels) && AllPositive(levels)
    ensures BestFirst(side, Fold(map[], levels)) == levels && |Fold(map[], levels)| == |levels|
  {
    var m := Fold(map[], levels);
    FoldKeepsSide(map[], levels);
    BestFirstListsSide(side, m);
    forall l: Level
      ensures l in BestFirst(side, m) <==> l in levels
    {
      FoldAt(map[], levels, l.price);
      if i: nat :| i < |levels| && levels[i].price == l.price {
        assert LastMention(levels, l.price, i);
      }
    }
    ListingUnique(side, BestFirst(side, m), levels);
  }

  /** Asking for more levels extends the answer and never changes it. */
  lemma TopIsPrefix(side: Side, m: Ladder, n: int, k: int)
    requires n <= k
    ensures Top(side, m, n) <= Top(side, m, k)
    ensures n >= 0 ==> |Top(side, m, n)| == Min(n, |m|)
  {
  }

  /** The top `n` levels are the `n` best entries: the ranking by sets and the
      listing agree. */
  lemma {:induction false} TopListsBest(side: Side, m: Ladder, n: nat)
    ensures Top(side, m, n) == BestFirst(side, Best(side, m, n))
    decreases |m|
  {
    if |m| <= n {
      BestOfShort(side, m, n);
    } else {
      WorstExists(side, m);
      var w :| IsWorst(side, m, w);
      TrimStep(side, m, n, w);
      TopListsBest(side, m - {w}, n);
      TopWithoutWorst(side, m, n, w);
    }
  }

  /** What the top `n` levels of a side are: the entries with fewer than `n` ahead of them, best first. */
  lemma TopHoldsBest(side: Side, m: Ladder, n: nat)
    requires SideOk(m)
    ensures BestFirstOrder(side, Top(side, m, n))
    ensures forall l :: l in Top(side, m, n) <==> l.price in m && m[l.price] == l && |Ahead(side, m, l.price)| < n
  {
    TopListsBest(side, m, n);
    BestFirstListsSide(side, Best(side, m, n));
  }

  lemma TopWithoutWorst(side: Side, m: Ladder, n: nat, w: real)
    requires IsWorst(side, m, w) && n < |m|
    ensures Top(side, m - {w}, n) == Top(side, m, n)
  {
    DropWorst(side, m, w);
    var all := BestFirst(side, m);
    assert all[..|m| - 1][..n] == all[..n];
  }

  /** Removing the worst price removes the last line of the listing. */
  lemma {:induction false} DropWorst(side: Side, m: Ladder, w: real)
    requires IsWorst(side, m, w)
    ensures |m - {w}| == |m| - 1
    ensures BestFirst(side, m - {w}) == BestFirst(side, m)[..|m| - 1]
    decreases |m|
  {
    var rest := m - {w};
    assert rest.Keys == m.Keys - {w};
    if rest == map[] {
      assert forall q :: q in m ==> q == w || q in rest;
      BestFirstFrom(side, m, w);
    } else {
      TouchExists(side, rest);
      var t :| IsTouch(side, rest, t);
      SameTouch(side, m, w, t);
      DropWorst(side, m - {t}, w);
      DropWorstStep(side, m, w, t);
    }
  }

  lemma DropWorstStep(side: Side, m: Ladder, w: real, t: real)
    requires IsTouch(side, m, t) && IsTouch(side, m - {w}, t) && w in m && w != t
    requires BestFirst(side, (m - {t}) - {w}) == BestFirst(side, m - {t})[..|m - {t}| - 1]
    ensures BestFirst(side, m - {w}) == BestFirst(side, m)[..|m| - 1]
  {
    BestFirstFrom(side, m, t);
    BestFirstFrom(side, m - {w}, t);
    MinusCommutes(m, w, t);
    InitOfCons(m[t], BestFirst(side, m - {t}));
  }

  lemma InitOfCons(x: Level, s: seq<Level>)
    requires s != []
    ensures ([x] + s)[..|s|] == [x] + s[..|s| - 1]
  {
  }

  lemma MinusCommutes(m: Ladder, p: real, q: real)
    ensures (m - {p}) - {q} == (m - {q}) - {p}
  {
  }

  lemma SameTouch(side: Side, m: Ladder, w: real, t: real)
    requires IsWorst(side, m, w) && IsTouch(side, m - {w}, t)
    ensures IsTouch(side, m, t) && t != w
    ensures IsWorst(side, m - {t}, w)
  {
  }

  // ---- quantity at or better than a limit ----

  /** Length of the longest prefix that stands at or better than `limit`. */
  function Reach(side: Side, levels: seq<Level>, limit: real): (n: nat)
    ensures n <= |levels|
  {
    if levels == [] || !AtOrBetter(side, levels[0].price, limit) then 0
    else 1 + Reach(side, levels[1..], limit)
  }

  /** The quantity of every level at or better than `limit`, wherever it stands. */
  function QtyAtOrBetter(side: Side, levels: seq<Level>, limit: real): real {
    if levels == [] then 0.0
    else (if AtOrBetter(side, levels[0].price, limit) then levels[0].qty else 0.0)
         + QtyAtOrBetter(side, levels[1..], limit)
  }

  lemma {:induction false} QtyAppend(side: Side, a: seq<Level>, l: Level, limit: real)
    ensures QtyAtOrBetter(side, a + [l], limit)
            == QtyAtOrBetter(side, a, limit) + if AtOrBetter(side, l.price, limit) then l.qty else 0.0
  {
    if a == [] {
      assert a + [l] == [l];
    } else {
      assert (a + [l])[1..] == a[1..] + [l];
      QtyAppend(side, a[1..], l, limit);
    }
  }

  lemma {:induction false} NothingBeyond(side: Side, levels: seq<Level>, limit: real)
    requires forall i :: 0 <= i < |levels| ==> !AtOrBetter(side, levels[i].price, limit)
    ensures QtyAtOrBetter(side, levels, limit) == 0.0
  {
    if levels != [] {
      NothingBeyond(side, levels[1..], limit);
    }
  }

  /** In a best-first listing the levels at or better than a limit are a prefix,
      so filtering and walking from the touch give the same quantity. */
  lemma {:induction false} ReachIsPrefix(side: Side, levels: seq<Level>, limit: real)
    requires BestFirstOrder(side, levels)
    ensures forall i :: 0 <= i < |levels| ==> (i < Reach(side, levels, limit) <==> AtOrBetter(side, levels[i].price, limit))
    ensures QtyAtOrBetter(side, levels, limit) == TotalQty(levels[..Reach(side, levels, limit)])
  {
    if levels == [] {
    } else if AtOrBetter(side, levels[0].price, limit) {
      var n := Reach(side, levels, limit);
      ReachIsPrefix(side, levels[1..], limit);
      assert levels[..n][1..] == levels[1..][..n - 1];
      forall i | 0 <= i < |levels|
        ensures i < n <==> AtOrBetter(side, levels[i].price, limit)
      {
        if i > 0 { assert levels[i] == levels[1..][i - 1]; }
      }
    } else {
      NothingBeyond(side, levels, limit);
    }
  }
}
