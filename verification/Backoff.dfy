/** Capped exponential delays with full jitter. */
module Backoff {
  import opened Market

  function Power(base: real, n: nat): real {
    if n == 0 then 1.0 else base * Power(base, n - 1)
  }

  /** The part of `bound` that a draw from [0, 1] picks. */
  function Share(chance: real, bound: real): real {
    chance * bound
  }

  datatype Ladder = Ladder(initial: real, maximum: real, multiplier: real, jitter: bool) {
    /** What the configuration insists on. */
    predicate Sensible() {
      0.0 < initial <= maximum && multiplier > 1.0
    }

    /** The bound on the delay before retry number `attempt`, counted from one. */
    function Bound(attempt: nat): real
      requires attempt >= 1
    {
      MinReal(maximum, initial * Power(multiplier, attempt - 1))
    }

    /** The delay before retry number `attempt` when the draw in [0, 1] comes out as `chance`. */
    function Delay(attempt: nat, chance: real): real
      requires attempt >= 1
    {
      if jitter then Share(chance, Bound(attempt)) else Bound(attempt)
    }

    /** A delay the ladder may answer for retry number `attempt`. */
    predicate Allows(attempt: nat, delay: real)
      requires attempt >= 1
    {
      0.0 <= delay <= Bound(attempt) && (!jitter ==> delay == Bound(attempt))
    }
  }

  lemma {:induction false} PowerGrows(base: real, n: nat)
    requires base > 1.0
    ensures Power(base, n + 1) > Power(base, n) >= 1.0
  {
    if n > 0 {
      PowerGrows(base, n - 1);
    }
    Grow(base, Power(base, n));
  }

  lemma Grow(base: real, p: real)
    requires base > 1.0 && p >= 1.0
    ensures base * p > p
  {
  }

  lemma Grown(initial: real, a: real, b: real)
    requires initial > 0.0 && 1.0 <= a <= b
    ensures initial <= initial * a <= initial * b
  {
  }

  lemma {:induction false} PowerOrdered(base: real, m: nat, n: nat)
    requires base > 1.0 && m <= n
    ensures 1.0 <= Power(base, m) <= Power(base, n)
    decreases n
  {
    if m < n {
      PowerOrdered(base, m, n - 1);
    }
    PowerGrows(base, m);
    if n > 0 {
      PowerGrows(base, n - 1);
    }
  }

  /** Bounds start at the initial delay, never shrink from one retry to a later one, and never pass the cap. */
  lemma BoundsClimb(ladder: Ladder, m: nat, n: nat)
    requires ladder.Sensible() && 1 <= m <= n
    ensures ladder.Bound(1) == ladder.initial
    ensures ladder.initial <= ladder.Bound(m) <= ladder.Bound(n) <= ladder.maximum
  {
    PowerOrdered(ladder.multiplier, m - 1, n - 1);
    Grown(ladder.initial, Power(ladder.multiplier, m - 1), Power(ladder.multiplier, n - 1));
    assert Power(ladder.multiplier, 0) == 1.0;
  }

  /** Each bound is the one before it times the multiplier, until the cap. */
  lemma NextBound(ladder: Ladder, attempt: nat)
    requires ladder.Sensible() && attempt >= 1
    ensures ladder.Bound(attempt + 1) == MinReal(ladder.maximum, ladder.multiplier * ladder.Bound(attempt))
  {
    var p, q := Power(ladder.multiplier, attempt - 1), Power(ladder.multiplier, attempt);
    var x := ladder.initial * p;
    var y := ladder.multiplier * x;
    Reassociate(ladder.initial, ladder.multiplier, p, q, x, y);
    BoundIs(ladder, attempt, p, x);
    BoundIs(ladder, attempt + 1, q, y);
    MultiplyCapped(ladder.maximum, ladder.multiplier, x, y, ladder.Bound(attempt));
  }

  lemma BoundIs(ladder: Ladder, attempt: nat, p: real, x: real)
    requires attempt >= 1 && p == Power(ladder.multiplier, attempt - 1) && x == ladder.initial * p
    ensures ladder.Bound(attempt) == MinReal(ladder.maximum, x)
  {
  }

  lemma Reassociate(initial: real, multiplier: real, p: real, q: real, x: real, y: real)
    requires q == multiplier * p && x == initial * p && y == multiplier * x
    ensures y == initial * q
  {
  }

  lemma MultiplyCapped(maximum: real, multiplier: real, x: real, y: real, capped: real)
    requires maximum > 0.0 && multiplier > 1.0 && y == multiplier * x && capped == MinReal(maximum, x)
    ensures MinReal(maximum, y) == MinReal(maximum, multiplier * capped)
  {
    if x > maximum {
      SameOrder(maximum, x, multiplier);
      Grown(maximum, 1.0, multiplier);
    }
  }

  /** With jitter every delay up to the bound can come out of a draw, and zero and one give its ends. */
  lemma DelayCovers(ladder: Ladder, attempt: nat, delay: real) returns (chance: real)
    requires ladder.Sensible() && attempt >= 1 && ladder.jitter && 0.0 <= delay <= ladder.Bound(attempt)
    ensures 0.0 <= chance <= 1.0 && ladder.Delay(attempt, chance) == delay
    ensures ladder.Delay(attempt, 0.0) == 0.0 && ladder.Delay(attempt, 1.0) == ladder.Bound(attempt)
  {
    BoundsClimb(ladder, attempt, attempt);
    chance := delay / ladder.Bound(attempt);
    FractionOf(delay, ladder.Bound(attempt));
  }

  lemma FractionOf(part: real, whole: real)
    requires 0.0 <= part <= whole && whole > 0.0
    ensures 0.0 <= part / whole <= 1.0 && Share(part / whole, whole) == part
  {
    SameOrder(part / whole, 1.0, whole);
    SameOrder(0.0, part / whole, whole);
  }

  lemma ShareWithin(chance: real, bound: real)
    requires 0.0 <= chance <= 1.0 && bound >= 0.0
    ensures 0.0 <= Share(chance, bound) <= bound
  {
    assert bound - chance * bound == (1.0 - chance) * bound;
  }

  /** However the draw comes out, the delay is one the ladder allows. */
  lemma DelayAllowed(ladder: Ladder, attempt: nat, chance: real)
    requires ladder.Sensible() && attempt >= 1 && 0.0 <= chance <= 1.0
    ensures ladder.Allows(attempt, ladder.Delay(attempt, chance))
  {
    BoundsClimb(ladder, attempt, attempt);
    ShareWithin(chance, ladder.Bound(attempt));
  }

  /** A source of randomness: its draws, all in [0, 1], and how many have been made. */
  class RandomSource {
    const chance: nat -> real
    var drawn: nat

    ghost predicate Valid() {
      forall n :: 0.0 <= chance(n) <= 1.0
    }

    constructor (chance: nat -> real)
      ensures this.chance == chance && drawn == 0
    {
      this.chance := chance;
      drawn := 0;
    }

    /** A draw from [0, bound]. */
    method Uniform(bound: real) returns (x: real)
      modifies this
      ensures x == Share(chance(old(drawn)), bound) && drawn == old(drawn) + 1
    {
      x := Share(chance(drawn), bound);
      drawn := drawn + 1;
    }
  }

  /** The generator of delays: it counts its own attempts, and draws when there is jitter. */
  class Delays {
    const ladder: Ladder
    const source: RandomSource
    var attempt: nat

    ghost predicate Valid()
      reads this
    {
      ladder.Sensible() && source.Valid() && attempt >= 1
    }

    constructor (ladder: Ladder, source: RandomSource)
      requires ladder.Sensible() && source.Valid()
      ensures Valid() && attempt == 1 && this.ladder == ladder && this.source == source
    {
      this.ladder, this.source := ladder, source;
      attempt := 1;
    }

    /** The next delay: the bound, or anything uniform below it. */
    method Next() returns (delay: real)
      requires Valid()
      modifies this, source
      ensures Valid() && attempt == old(attempt) + 1
      ensures delay == ladder.Delay(old(attempt), source.chance(old(source.drawn)))
      ensures source.drawn == if ladder.jitter then old(source.drawn) + 1 else old(source.drawn)
      ensures ladder.Allows(old(attempt), delay)
    {
      DelayAllowed(ladder, attempt, source.chance(source.drawn));
      delay := ladder.Bound(attempt);
      if ladder.jitter {
        delay := source.Uniform(delay);
      }
      attempt := attempt + 1;
    }
  }
}
