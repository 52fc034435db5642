/** What an order book is and does, on values. `OrderBook` is proved against this. */
module BookModel {
  import opened Market
  import opened SortedDictionary

  datatype Book = Book(bids: Ladder, asks: Ladder, seqno: nat)

  const EMPTY: Book := Book(map[], map[], 0)

  // ---- one side ----

  /** Absolute quantities: zero removes the price, anything else replaces it. */
  function Put(m: Ladder, level: Level): Ladder {
    if level.qty == 0.0 then m - {level.price} else m[level.price := level]
  }

  function Fold(m: Ladder, levels: seq<Level>): Ladder {
    if levels == [] then m
    else Put(Fold(m, levels[..|levels| - 1]), levels[|levels| - 1])
  }

  /** The prices of `m` that stand ahead of `p`. */
  function Ahead(side: Side, m: Ladder, p: real): set<real> {
    set q | q in m && Better(side, q, p)
  }

  /** The `depth` best-priced entries of `m`: those with fewer than `depth` ahead of them. */
  function Best(side: Side, m: Ladder, depth: nat): Ladder {
    map p | p in m && |Ahead(side, m, p)| < depth :: m[p]
  }

  ghost predicate IsTouch(side: Side, m: Ladder, p: real) {
    p in m && forall q :: q in m && q != p ==> Better(side, p, q)
  }

  /** The prices on the two sides meet or overlap. */
  ghost predicate Crossed(bids: Ladder, asks: Ladder) {
    exists b, a :: b in bids && a in asks && b >= a
  }

  ghost predicate SideOk(m: Ladder) {
    forall p :: p in m ==> m[p].price == p && m[p].qty > 0.0
  }

  /** What every reachable book satisfies. */
  ghost predicate Sound(b: Book) {
    SideOk(b.bids) && SideOk(b.asks) && !Crossed(b.bids, b.asks)
  }

  ghost predicate WithinDepth(b: Book, depth: nat) {
    |b.bids| <= depth && |b.asks| <= depth
  }

  predicate AllPositive(levels: seq<Level>) {
    forall i :: 0 <= i < |levels| ==> levels[i].qty > 0.0
  }

  predicate NoneNegative(levels: seq<Level>) {
    forall i :: 0 <= i < |levels| ==> levels[i].qty >= 0.0
  }

  // ---- the operations ----

  ghost function ApplySnapshot(b: Book, s: Snapshot): Result<Book> {
    var bids, asks := Fold(map[], s.bids), Fold(map[], s.asks);
    if AllPositive(s.bids) && AllPositive(s.asks) && !Crossed(bids, asks)
    then Ok(Book(bids, asks, b.seqno + 1))
    else Err(ValueError)
  }

  ghost function ApplyUpdate(b: Book, depth: nat, u: Update): Result<Book> {
    var bids := Best(Bid, Fold(b.bids, u.bids), depth);
    var asks := Best(Ask, Fold(b.asks, u.asks), depth);
    if NoneNegative(u.bids) && NoneNegative(u.asks) && !Crossed(bids, asks)
    then Ok(Book(bids, asks, b.seqno + 1))
    else Err(ValueError)
  }

  function Clear(b: Book): Book {
    Book(map[], map[], b.seqno)
  }

  // ---- reading ----

  /** All of one side, best level first. */
  ghost function BestFirst(side: Side, m: Ladder): (levels: seq<Level>)
    ensures |levels| == |m|
    decreases |m|
  {
    if m == map[] then []
    else
      TouchExists(side, m);
      var p :| IsTouch(side, m, p);
      assert |(m - {p}).Keys| < |m.Keys| by { assert (m - {p}).Keys == m.Keys - {p}; }
      [m[p]] + BestFirst(side, m - {p})
  }

  ghost function Top(side: Side, m: Ladder, n: int): seq<Level> {
    if n <= 0 then [] else BestFirst(side, m)[..Min(n, |m|)]
  }

  function TotalQty(levels: seq<Level>): real {
    if levels == [] then 0.0 else levels[0].qty + TotalQty(levels[1..])
  }

  predicate AtOrBetter(side: Side, p: real, limit: real) {
    p == limit || Better(side, p, limit)
  }

  lemma {:induction false} TouchExists(side: Side, m: Ladder)
    requires m != map[]
    ensures exists p :: IsTouch(side, m, p)
    decreases |m|
  {
    assert m.Keys != {};
    var q := Pick(m.Keys);
    var rest := m - {q};
    assert rest.Keys == m.Keys - {q};
    if rest == map[] {
      assert forall x :: x in m ==> x == q || x in rest;
      assert IsTouch(side, m, q);
    } else {
      TouchExists(side, rest);
      var r :| IsTouch(side, rest, r);
      var p := if Better(side, q, r) then q else r;
      forall x | x in m && x != p
        ensures Better(side, p, x)
      {
        assert x == q || x in rest;
      }
      assert IsTouch(side, m, p);
    }
  }

  lemma FoldStep(m: Ladder, levels: seq<Level>, i: nat)
    requires i < |levels|
    ensures Fold(m, levels[..i + 1]) == Put(Fold(m, levels[..i]), levels[i])
  {
    assert levels[..i + 1][..i] == levels[..i];
  }

  lemma TouchUnique(side: Side, m: Ladder, p: real, q: real)
    requires IsTouch(side, m, p) && IsTouch(side, m, q)
    ensures p == q
  {
  }
}
