/** Value types shared by every component: prices, levels, frames and views. */
module Market {
  datatype Option<+T> = None | Some(value: T)

  /** The exception families the code tells apart. `ValueError` is the one that
      callers catch; the other two escape them. */
  datatype Error = ValueError | IndexError | ArithmeticError

  datatype Result<+T> = Ok(value: T) | Err(error: Error) {
    predicate IsFailure() {
      Err?
    }

    function PropagateFailure<U>(): Result<U>
      requires Err?
    {
      Err(error)
    }

    function Extract(): T
      requires Ok?
    {
      value
    }
  }

  datatype Side = Bid | Ask

  /** A price with a quantity, on the wire or resting in a book. */
  datatype Level = Level(price: real, qty: real)

  datatype Snapshot = Snapshot(bids: seq<Level>, asks: seq<Level>)

  datatype Update = Update(bids: seq<Level>, asks: seq<Level>, checksum: Option<nat>)

  datatype Frame = SnapshotFrame(snapshot: Snapshot) | UpdateFrame(update: Update)

  /** The top of a book at an instant, best level first on both sides. */
  datatype View = View(seqno: nat, recvNs: int, bids: seq<Level>, asks: seq<Level>, checksumOk: Option<bool>)

  /** `p` is a strictly better price than `q` for an order resting on `side`. */
  predicate Better(side: Side, p: real, q: real) {
    if side == Bid then p > q else p < q
  }

  function Opposite(side: Side): Side {
    if side == Bid then Ask else Bid
  }

  predicate BestFirstOrder(side: Side, levels: seq<Level>) {
    forall i, j :: 0 <= i < j < |levels| ==> Better(side, levels[i].price, levels[j].price)
  }

  function Min(a: int, b: int): int {
    if a <= b then a else b
  }

  function MinReal(a: real, b: real): real {
    if a <= b then a else b
  }

  // ---- products ----

  lemma Distribute(a: real, b: real, k: real)
    ensures a * k + b * k == (a + b) * k
  {
  }

  lemma ScaleReal(a: real, b: real, k: real)
    requires a <= b && k >= 0.0
    ensures a * k <= b * k
  {
  }

  lemma Scale(a: nat, b: nat, step: int)
    requires a <= b && step >= 0
    ensures 0 <= a * step <= b * step
    ensures a < b && step >= 1 ==> a * step < b * step
  {
  }

  lemma LargestGap(span: nat, slices: nat)
    requires slices > 0
    ensures var gap := span / slices;
            gap >= 0 && slices * gap <= span < slices * (gap + 1)
  {
    assert slices * (span / slices + 1) == slices * (span / slices) + slices;
  }

  lemma StepOn(k: nat, gap: nat)
    requires k > 0
    ensures k * gap == (k - 1) * gap + gap
  {
  }

  /** Scaling by something positive keeps the order. */
  lemma SameOrder(a: real, b: real, d: real)
    requires d > 0.0
    ensures (a < b <==> a * d < b * d) && (a > b <==> a * d > b * d)
  {
    assert a * d - b * d == (a - b) * d;
  }

  lemma PositiveProduct(a: real, b: real)
    requires a > 0.0 && b > 0.0
    ensures a * b > 0.0
  {
  }

  lemma SameFactor(a: real, b: real, t: real)
    requires t != 0.0 && a * t == b * t
    ensures a == b
  {
    assert (a - b) * t == 0.0;
  }

  // ---- slices ----

  lemma InitIn<T>(s: seq<T>)
    requires s != []
    ensures s[|s| - 1] in s && forall x :: x in s[..|s| - 1] ==> x in s
  {
  }

  lemma InitLast<T>(s: seq<T>)
    requires s != []
    ensures s == s[..|s| - 1] + [s[|s| - 1]]
  {
  }

  lemma SliceSnoc<T>(s: seq<T>, p: nat, q: nat)
    requires p < q <= |s|
    ensures s[p..q] == s[p..q - 1] + [s[q - 1]]
  {
  }

  lemma MoveOne<T>(a: seq<T>, x: T, b: seq<T>)
    ensures a + ([x] + b) == (a + [x]) + b
  {
  }

  lemma InitSlice<T>(s: seq<T>, p: nat, q: nat)
    requires p <= q < |s|
    ensures s[..|s| - 1][p..q] == s[p..q]
  {
  }

  // ---- finite sets ----

  lemma Pick<T>(s: set<T>) returns (x: T)
    requires s != {}
    ensures x in s
  {
    x :| x in s;
  }

  lemma Outside<T>(a: set<T>, b: set<T>) returns (x: T)
    requires !(a <= b)
    ensures x in a && x !in b
  {
    x :| x in a && x !in b;
  }

  lemma SubsetSize<T>(a: set<T>, b: set<T>)
    requires a <= b
    ensures |a| <= |b|
    ensures a != b ==> |a| < |b|
  {
    assert b == a + (b - a);
    assert a * (b - a) == {};
  }
}
