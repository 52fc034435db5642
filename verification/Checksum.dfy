/** The string the exchange hashes, and the comparison made with its checksum. */
module Checksum {
  import opened Market
  import opened Digits

  const CHECKSUM_LEVELS := 10

  /** Rounding to the nearest integer, ties to even. */
  function RoundHalfEven(x: real): int {
    var f := x.Floor;
    var rest := x - f as real;
    if rest < 0.5 then f
    else if rest > 0.5 then f + 1
    else if f % 2 == 0 then f else f + 1
  }

  function Abs(x: real): real {
    if x < 0.0 then -x else x
  }

  function Scaled(value: real, places: nat): (r: real)
    ensures value >= 0.0 ==> r >= 0.0
  {
    value * Pow10(places) as real
  }

  /** `value` in units of the last of `places` decimals, without its sign. */
  function Units(value: real, places: nat): nat {
    RoundHalfEven(Scaled(Abs(value), places))
  }

  /** `units` with the point before the last `places` digits, if there are any. */
  function PointBefore(units: nat, places: nat): string {
    var (whole, part) := Cut(units, places);
    Written(whole) + if places == 0 then "" else "." + Padded(part, places)
  }

  /** Fixed point at exactly `places` decimals. */
  function FixedPoint(value: real, places: nat): string {
    if value < 0.0 then "-" + PointBefore(Units(value, places), places) else PointBefore(Units(value, places), places)
  }

  function Render(value: real, places: nat): string {
    WithoutLeadingZeros(WithoutDots(FixedPoint(value, places)))
  }

  function Ratio(n: nat, d: nat): (r: real)
    requires d > 0
    ensures r >= 0.0
  {
    n as real / d as real
  }

  /** A number as it came on the wire: its digits, trailing zeros and all, and an exponent of ten. */
  datatype Decimal = Decimal(coefficient: nat, exponent: int) {
    function Value(): real {
      if exponent >= 0 then coefficient as real * Pow10(exponent) as real
      else Ratio(coefficient, Pow10(-exponent))
    }
  }

  /** `n / d` rounded to the nearest integer, ties to even, without leaving the integers. */
  function HalfEven(n: nat, d: nat): nat
    requires d > 0
  {
    var q, rest := n / d, n % d;
    if 2 * rest < d then q else if 2 * rest > d then q + 1 else if q % 2 == 0 then q else q + 1
  }

  /** `c` with so many zeros written after it. */
  function WithZeros(c: nat, zeros: nat): nat {
    if zeros == 0 then c else 10 * WithZeros(c, zeros - 1)
  }

  /** `c` times ten to the `shift`, rounded if that leaves the integers. */
  function Moved(c: nat, shift: int): nat {
    if shift >= 0 then WithZeros(c, shift) else HalfEven(c, Pow10(-shift))
  }

  /** What formatting makes of the digits on the wire. */
  function RenderWire(d: Decimal, places: nat): string {
    WithoutLeadingZeros(WithoutDots(PointBefore(Moved(d.coefficient, d.exponent + places), places)))
  }

  function LevelText(l: Level, pp: nat, qp: nat): string {
    Render(l.price, pp) + Render(l.qty, qp)
  }

  function Joined(texts: seq<string>): string {
    if texts == [] then "" else texts[0] + Joined(texts[1..])
  }

  function LevelTexts(levels: seq<Level>, pricePlaces: nat, qtyPlaces: nat): (texts: seq<string>)
    ensures |texts| == |levels| && forall i :: 0 <= i < |levels| ==> texts[i] == LevelText(levels[i], pricePlaces, qtyPlaces)
  {
    seq(|levels|, i requires 0 <= i < |levels| => LevelText(levels[i], pricePlaces, qtyPlaces))
  }

  function SideText(levels: seq<Level>, pricePlaces: nat, qtyPlaces: nat): string {
    Joined(LevelTexts(levels, pricePlaces, qtyPlaces))
  }

  function FirstTen(levels: seq<Level>): seq<Level> {
    levels[..Min(CHECKSUM_LEVELS, |levels|)]
  }

  /** Asks first, then bids, at most ten levels of each. */
  function Payload(bids: seq<Level>, asks: seq<Level>, pricePlaces: nat, qtyPlaces: nat): string {
    SideText(FirstTen(asks), pricePlaces, qtyPlaces) + SideText(FirstTen(bids), pricePlaces, qtyPlaces)
  }

  /** How a checksum is computed: the hash is a parameter, the precisions are the pair's. */
  datatype Scheme = Scheme(crc: string -> nat, pricePlaces: nat, qtyPlaces: nat) {
    predicate Verify(bids: seq<Level>, asks: seq<Level>, expected: nat) {
      crc(Payload(bids, asks, pricePlaces, qtyPlaces)) == expected
    }
  }

  // ---- rendering ----

  /** A value that has no more than `places` decimals. */
  predicate Exact(value: real, places: nat) {
    Scaled(value, places).Floor as real == Scaled(value, places)
  }

  /** Dropping the point and the leading zeros keeps the number. */
  lemma JoinedText(whole: string, part: string, text: string)
    requires AllDigits(whole) && AllDigits(part) && (text == whole + part || text == whole + "." + part)
    ensures var stripped := WithoutLeadingZeros(WithoutDots(text));
            Stripped(stripped) && Read(stripped) == Read(whole) * Pow10(|part|) + Read(part)
  {
    NoDots(whole + part);
    DotGone(whole, part);
    ReadAppend(whole, part);
    StripKeepsValue(whole + part);
  }

  lemma CutReads(n: nat, places: nat)
    ensures var (w, f) := Cut(n, places);
            Read(Written(w)) * Pow10(places) + Read(Padded(f, places)) == n
  {
    var (w, f) := Cut(n, places);
    ReadWritten(w);
    ReadPadded(f, places);
  }

  /** A rendered value has only digits, no leading zero, and reads back as the
      value in units of its last place. */
  lemma RenderReadsBack(value: real, places: nat)
    requires value >= 0.0
    ensures Stripped(Render(value, places))
    ensures Read(Render(value, places)) == Units(value, places)
  {
    var n := Units(value, places);
    var (w, f) := Cut(n, places);
    var whole, part := Written(w), Padded(f, places);
    assert FixedPoint(value, places) == if places == 0 then whole + part else whole + "." + part;
    JoinedText(whole, part, FixedPoint(value, places));
    CutReads(n, places);
  }

  /** No rounding happens to an exact value. */
  lemma ExactUnits(value: real, places: nat)
    requires value >= 0.0 && Exact(value, places)
    ensures Units(value, places) as real == Scaled(value, places)
  {
  }

  /** Any other value is rounded to the nearest number of units, and to the even one of two. */
  lemma UnitsAreNearest(value: real, places: nat)
    requires value >= 0.0
    ensures var rest := Scaled(value, places) - Units(value, places) as real;
            -0.5 <= rest <= 0.5 && (rest == 0.5 || rest == -0.5 ==> Units(value, places) % 2 == 0)
  {
  }

  /** A negative value keeps its sign in front, and with it its leading zeros. */
  lemma RenderNegative(value: real, places: nat)
    requires value < 0.0
    ensures var (whole, part) := Cut(Units(-value, places), places);
            Render(value, places) == "-" + (Written(whole) + Padded(part, places))
  {
    PointGone(Units(value, places), places);
    SignStays(PointBefore(Units(value, places), places));
  }

  lemma PointGone(units: nat, places: nat)
    ensures var (whole, part) := Cut(units, places);
            WithoutDots(PointBefore(units, places)) == Written(whole) + Padded(part, places)
  {
    var (w, f) := Cut(units, places);
    var whole, part := Written(w), Padded(f, places);
    NoDots(whole + part);
    DotGone(whole, part);
    PointParts(units, places, whole, part);
  }

  lemma PointParts(units: nat, places: nat, whole: string, part: string)
    requires whole == Written(Cut(units, places).0) && part == Padded(Cut(units, places).1, places)
    ensures PointBefore(units, places) == if places == 0 then whole + part else whole + "." + part
  {
    if places == 0 {
      assert whole + "" == whole;
    }
  }

  lemma SignStays(text: string)
    ensures WithoutLeadingZeros(WithoutDots("-" + text)) == "-" + WithoutDots(text)
  {
    assert ("-" + text)[1..] == text;
  }

  lemma ScaledInjective(v: real, w: real, places: nat)
    requires Scaled(v, places) == Scaled(w, places)
    ensures v == w
  {
    SameFactor(v, w, Pow10(places) as real);
  }

  /** Two exact values give the same text precisely when they are the same number. */
  lemma RenderInjective(v: real, w: real, places: nat)
    requires v >= 0.0 && w >= 0.0 && Exact(v, places) && Exact(w, places)
    ensures Render(v, places) == Render(w, places) <==> v == w
  {
    RenderReadsBack(v, places);
    RenderReadsBack(w, places);
    if Render(v, places) == Render(w, places) {
      ExactUnits(v, places);
      ExactUnits(w, places);
      ScaledInjective(v, w, places);
    }
  }

  /** An exact positive value is rendered as the plain decimal writing of its units. */
  lemma RenderIsDecimal(value: real, places: nat, units: nat)
    requires value > 0.0 && units as real == Scaled(value, places)
    ensures Render(value, places) == Written(units)
  {
    ExactUnits(value, places);
    RenderReadsBack(value, places);
    PositiveProduct(value, Pow10(places) as real);
    StrippedIsCanonical(Render(value, places));
  }

  // ---- from the wire ----

  lemma {:induction false} Pow10Adds(a: nat, b: nat)
    ensures Pow10(a + b) == Pow10(a) * Pow10(b)
  {
    if b > 0 {
      Pow10Adds(a, b - 1);
      assert Pow10(a + b) == 10 * Pow10(a + (b - 1));
    }
  }

  lemma DivModUnique(n: nat, d: nat, q: nat, r: nat)
    requires d > 0 && n == q * d + r && r < d
    ensures n / d == q && n % d == r
  {
    CutExact(n, d);
    var q', r' := n / d, n % d;
    if q < q' {
      NextMultiple(q, q', d);
    } else if q > q' {
      NextMultiple(q', q, d);
    }
  }

  lemma NextMultiple(a: nat, b: nat, d: nat)
    requires a < b
    ensures a * d + d <= b * d
  {
    Scale(a + 1, b, d);
    assert (a + 1) * d == a * d + d;
  }

  lemma TenTimes(n: nat, d: nat)
    requires d > 0
    ensures HalfEven(10 * n, 10 * d) == HalfEven(n, d)
  {
    CutExact(n, d);
    var q, r := n / d, n % d;
    assert q * (10 * d) == 10 * (q * d);
    DivModUnique(10 * n, 10 * d, q, 10 * r);
  }

  lemma {:induction false} ZerosRound(c: nat, down: nat, zeros: nat)
    ensures HalfEven(WithZeros(c, zeros), Pow10(down + zeros)) == HalfEven(c, Pow10(down))
  {
    if zeros > 0 {
      ZerosRound(c, down, zeros - 1);
      TenTimes(WithZeros(c, zeros - 1), Pow10(down + (zeros - 1)));
      assert Pow10(down + zeros) == 10 * Pow10(down + (zeros - 1));
    }
  }

  lemma {:induction false} ZerosAdd(c: nat, a: nat, b: nat)
    ensures WithZeros(WithZeros(c, a), b) == WithZeros(c, a + b)
  {
    if b > 0 {
      ZerosAdd(c, a, b - 1);
      assert WithZeros(c, a + b) == 10 * WithZeros(c, a + (b - 1));
    }
  }

  lemma OverOne(c: nat)
    ensures HalfEven(c, Pow10(0)) == c
  {
  }

  lemma MovedZeros(c: nat, shift: int, zeros: nat)
    ensures Moved(WithZeros(c, zeros), shift - zeros) == Moved(c, shift)
  {
    if shift >= zeros {
      ZerosAdd(c, zeros, shift - zeros);
    } else if shift >= 0 {
      ZerosAdd(c, shift, zeros - shift);
      ZerosRound(WithZeros(c, shift), 0, zeros - shift);
      OverOne(WithZeros(c, shift));
    } else {
      ZerosRound(c, -shift, zeros);
    }
  }

  /** Trailing zeros on the wire do not reach the text: the same number written with more of
      them, and the exponent to match, moves to the same digits, rounding included. */
  lemma TrailingZerosVanish(d: Decimal, zeros: nat, places: nat)
    ensures RenderWire(Decimal(WithZeros(d.coefficient, zeros), d.exponent - zeros), places) == RenderWire(d, places)
  {
    var longer := Decimal(WithZeros(d.coefficient, zeros), d.exponent - zeros);
    MovedZeros(d.coefficient, d.exponent + places, zeros);
    SameDigits(longer, d, places);
  }

  lemma SameDigits(a: Decimal, b: Decimal, places: nat)
    requires Moved(a.coefficient, a.exponent + places) == Moved(b.coefficient, b.exponent + places)
    ensures RenderWire(a, places) == RenderWire(b, places)
  {
  }

  /** Rounding a quotient of integers by its remainder is rounding it as a number. */
  lemma QuotientRounds(n: nat, d: nat)
    requires d > 0
    ensures RoundHalfEven(Ratio(n, d)) == HalfEven(n, d)
  {
    CutExact(n, d);
    var q, r := n / d, n % d;
    RatioParts(n, d, q, r);
    RatioHalf(r, d);
    assert Ratio(n, d).Floor == q;
  }

  lemma RatioTimes(n: nat, d: nat)
    requires d > 0
    ensures Ratio(n, d) * d as real == n as real
  {
  }

  lemma RatioParts(n: nat, d: nat, q: nat, r: nat)
    requires d > 0 && n == q * d + r && r < d
    ensures Ratio(n, d) == q as real + Ratio(r, d)
    ensures 0.0 <= Ratio(r, d) < 1.0
  {
    RatioTimes(n, d);
    RatioTimes(r, d);
    RealProduct(q, d);
    Distribute(q as real, Ratio(r, d), d as real);
    SameFactor(Ratio(n, d), q as real + Ratio(r, d), d as real);
    SameOrder(Ratio(r, d), 1.0, d as real);
  }

  lemma RatioHalf(r: nat, d: nat)
    requires d > 0
    ensures Ratio(r, d) < 0.5 <==> 2 * r < d
    ensures Ratio(r, d) > 0.5 <==> 2 * r > d
  {
    RatioTimes(r, d);
    AboutHalf(Ratio(r, d), r, d);
  }

  lemma AboutHalf(t: real, r: nat, d: nat)
    requires d > 0 && t * d as real == r as real
    ensures (t < 0.5 <==> 2 * r < d) && (t > 0.5 <==> 2 * r > d)
  {
    SameOrder(t, 0.5, d as real);
  }

  lemma RealProduct(a: nat, b: nat)
    ensures (a * b) as real == a as real * b as real
  {
  }

  lemma ThreeFactors(a: real, b: real, c: real)
    ensures a * (b * c) == (a * b) * c
  {
  }

  lemma {:induction false} ZerosScale(c: nat, zeros: nat)
    ensures WithZeros(c, zeros) as real == c as real * Pow10(zeros) as real
  {
    if zeros > 0 {
      ZerosScale(c, zeros - 1);
      RealProduct(10, Pow10(zeros - 1));
    }
  }

  lemma WholeValue(d: Decimal)
    requires d.exponent >= 0
    ensures d.Value() == WithZeros(d.coefficient, d.exponent) as real
  {
    ZerosScale(d.coefficient, d.exponent);
  }

  lemma ScaledWhole(c: nat, places: nat)
    ensures Scaled(c as real, places) == WithZeros(c, places) as real
  {
    ZerosScale(c, places);
  }

  lemma ScaledUp(d: Decimal, places: nat)
    requires d.exponent >= 0
    ensures Scaled(d.Value(), places) == Moved(d.coefficient, d.exponent + places) as real
  {
    WholeValue(d);
    ScaledWhole(WithZeros(d.coefficient, d.exponent), places);
    ZerosAdd(d.coefficient, d.exponent, places);
  }

  lemma TenTimesMore(value: real, places: nat)
    ensures Scaled(value, places + 1) == 10.0 * Scaled(value, places)
  {
    RealProduct(10, Pow10(places));
    ThreeFactors(value, 10.0, Pow10(places) as real);
  }

  lemma {:induction false} ScaledRatio(c: nat, down: nat, more: nat)
    ensures Scaled(Ratio(c, Pow10(down)), down + more) == WithZeros(c, more) as real
  {
    if more == 0 {
      RatioTimes(c, Pow10(down));
    } else {
      ScaledRatio(c, down, more - 1);
      TenTimesMore(Ratio(c, Pow10(down)), down + (more - 1));
    }
  }

  lemma ScaledBack(d: Decimal, places: nat)
    requires d.exponent < 0 <= d.exponent + places
    ensures Scaled(d.Value(), places) == Moved(d.coefficient, d.exponent + places) as real
  {
    ScaledRatio(d.coefficient, -d.exponent, d.exponent + places);
  }

  lemma ScaledPartly(d: Decimal, places: nat)
    requires d.exponent + places < 0
    ensures Scaled(d.Value(), places) == Ratio(d.coefficient, Pow10(-(d.exponent + places)))
  {
    var rest := -(d.exponent + places);
    Pow10Adds(rest, places);
    RatioCancels(d.coefficient, Pow10(rest), Pow10(places));
  }

  lemma RatioCancels(c: nat, d: nat, p: nat)
    requires d > 0 && p > 0
    ensures d * p > 0 && Ratio(c, d * p) * p as real == Ratio(c, d)
  {
    Scale(1, d, p);
    RealProduct(d, p);
    RatioTimes(c, d * p);
    RatioTimes(c, d);
    Reordered(Ratio(c, d * p), d as real, p as real);
    SameFactor(Ratio(c, d * p) * p as real, Ratio(c, d), d as real);
  }

  lemma Reordered(x: real, d: real, p: real)
    ensures x * p * d == x * (d * p)
  {
  }

  lemma WholeRounds(n: nat)
    ensures RoundHalfEven(n as real) == n
  {
  }

  lemma MovedIsUnits(d: Decimal, places: nat)
    ensures d.Value() >= 0.0
    ensures Units(d.Value(), places) == Moved(d.coefficient, d.exponent + places)
  {
    var c, shift := d.coefficient, d.exponent + places;
    if d.exponent >= 0 {
      ScaledUp(d, places);
      WholeRounds(Moved(c, shift));
    } else if shift >= 0 {
      ScaledBack(d, places);
      WholeRounds(Moved(c, shift));
    } else {
      ScaledPartly(d, places);
      QuotientRounds(c, Pow10(-shift));
    }
  }

  /** The text made from the digits as they came is the text of the number they stand for. */
  lemma WireRenders(d: Decimal, places: nat)
    ensures RenderWire(d, places) == Render(d.Value(), places)
  {
    MovedIsUnits(d, places);
  }

  // ---- payloads ----

  predicate ExactLevel(l: Level, pp: nat, qp: nat) {
    l.price >= 0.0 && l.qty >= 0.0 && Exact(l.price, pp) && Exact(l.qty, qp)
  }

  predicate ExactLevels(levels: seq<Level>, pp: nat, qp: nat) {
    forall i :: 0 <= i < |levels| ==> ExactLevel(levels[i], pp, qp)
  }

  predicate SameWidths(a: Level, b: Level, pp: nat, qp: nat) {
    |Render(a.price, pp)| == |Render(b.price, pp)| && |Render(a.qty, qp)| == |Render(b.qty, qp)|
  }

  /** Level by level, both texts have the same widths. */
  predicate SameShape(a: seq<Level>, b: seq<Level>, pp: nat, qp: nat) {
    |a| == |b| && forall i :: 0 <= i < |a| ==> SameWidths(a[i], b[i], pp, qp)
  }

  lemma SplitEqual(a: string, b: string, c: string, d: string)
    requires |a| == |c|
    ensures a + b == c + d <==> a == c && b == d
  {
    assert a == (a + b)[..|a|] && b == (a + b)[|a|..];
    assert c == (c + d)[..|c|] && d == (c + d)[|c|..];
  }

  lemma LevelTextDecides(a: Level, b: Level, pp: nat, qp: nat)
    requires ExactLevel(a, pp, qp) && ExactLevel(b, pp, qp) && SameWidths(a, b, pp, qp)
    ensures LevelText(a, pp, qp) == LevelText(b, pp, qp) <==> a == b
    ensures |LevelText(a, pp, qp)| == |LevelText(b, pp, qp)|
  {
    SplitEqual(Render(a.price, pp), Render(a.qty, qp), Render(b.price, pp), Render(b.qty, qp));
    RenderInjective(a.price, b.price, pp);
    RenderInjective(a.qty, b.qty, qp);
  }

  lemma {:induction false} JoinedDecides(a: seq<string>, b: seq<string>)
    requires |a| == |b| && forall i :: 0 <= i < |a| ==> |a[i]| == |b[i]|
    ensures |Joined(a)| == |Joined(b)|
    ensures Joined(a) == Joined(b) <==> a == b
  {
    if a != [] {
      JoinedDecides(a[1..], b[1..]);
      SplitEqual(a[0], Joined(a[1..]), b[0], Joined(b[1..]));
      assert a == [a[0]] + a[1..] && b == [b[0]] + b[1..];
    }
  }

  lemma SideTextDecides(a: seq<Level>, b: seq<Level>, pp: nat, qp: nat)
    requires ExactLevels(a, pp, qp) && ExactLevels(b, pp, qp) && SameShape(a, b, pp, qp)
    ensures |SideText(a, pp, qp)| == |SideText(b, pp, qp)|
    ensures SideText(a, pp, qp) == SideText(b, pp, qp) <==> a == b
  {
    var ta, tb := LevelTexts(a, pp, qp), LevelTexts(b, pp, qp);
    forall i | 0 <= i < |a|
      ensures |ta[i]| == |tb[i]| && (ta[i] == tb[i] <==> a[i] == b[i])
    {
      LevelTextDecides(a[i], b[i], pp, qp);
    }
    JoinedDecides(ta, tb);
  }

  lemma SameLevelsSameShape(a: seq<Level>, pp: nat, qp: nat)
    ensures SameShape(a, a, pp, qp)
  {
  }

  /** Two tops are equal precisely when their payloads are, and, level by level, their texts
      have the same widths. Nothing else is asked of either. */
  lemma PayloadDecidesTop(bids: seq<Level>, asks: seq<Level>, bids': seq<Level>, asks': seq<Level>, pp: nat, qp: nat)
    requires ExactLevels(FirstTen(bids), pp, qp) && ExactLevels(FirstTen(asks), pp, qp)
    requires ExactLevels(FirstTen(bids'), pp, qp) && ExactLevels(FirstTen(asks'), pp, qp)
    ensures FirstTen(bids) == FirstTen(bids') && FirstTen(asks) == FirstTen(asks')
            <==> Payload(bids, asks, pp, qp) == Payload(bids', asks', pp, qp)
                 && SameShape(FirstTen(bids), FirstTen(bids'), pp, qp) && SameShape(FirstTen(asks), FirstTen(asks'), pp, qp)
  {
    SameLevelsSameShape(FirstTen(bids), pp, qp);
    SameLevelsSameShape(FirstTen(asks), pp, qp);
    if SameShape(FirstTen(bids), FirstTen(bids'), pp, qp) && SameShape(FirstTen(asks), FirstTen(asks'), pp, qp) {
      SideTextDecides(FirstTen(bids), FirstTen(bids'), pp, qp);
      SideTextDecides(FirstTen(asks), FirstTen(asks'), pp, qp);
      SplitEqual(SideText(FirstTen(asks), pp, qp), SideText(FirstTen(bids), pp, qp),
                 SideText(FirstTen(asks'), pp, qp), SideText(FirstTen(bids'), pp, qp));
    }
  }

  /** Asks come first, then bids; nothing past the tenth level of a side is looked at. */
  lemma PayloadShape(bids: seq<Level>, asks: seq<Level>, pp: nat, qp: nat)
    ensures Payload(bids, asks, pp, qp) == Payload([], asks, pp, qp) + Payload(bids, [], pp, qp)
    ensures Payload(bids, asks, pp, qp) == Payload(FirstTen(bids), FirstTen(asks), pp, qp)
  {
    var b, a := SideText(FirstTen(bids), pp, qp), SideText(FirstTen(asks), pp, qp);
    assert FirstTen([]) == [] && SideText([], pp, qp) == "";
    assert Payload([], asks, pp, qp) == a + "" == a && Payload(bids, [], pp, qp) == "" + b == b;
    assert FirstTen(FirstTen(bids)) == FirstTen(bids) && FirstTen(FirstTen(asks)) == FirstTen(asks);
  }

  /** The first `n` levels written out, one after the other. */
  function Spelled(levels: seq<Level>, n: nat, pp: nat, qp: nat): string
    requires n <= |levels|
  {
    if n == 0 then ""
    else Spelled(levels, n - 1, pp, qp) + LevelText(levels[n - 1], pp, qp)
  }

  lemma {:induction false} JoinedSnoc(texts: seq<string>, text: string)
    ensures Joined(texts + [text]) == Joined(texts) + text
  {
    if texts == [] {
      assert [] + [text] == [text] && [text][1..] == [];
      assert "" + text == text == text + "";
    } else {
      JoinedSnoc(texts[1..], text);
      assert (texts + [text])[1..] == texts[1..] + [text];
      assert texts[0] + (Joined(texts[1..]) + text) == (texts[0] + Joined(texts[1..])) + text;
    }
  }

  lemma TextsSnoc(levels: seq<Level>, l: Level, pp: nat, qp: nat)
    ensures LevelTexts(levels + [l], pp, qp) == LevelTexts(levels, pp, qp) + [LevelText(l, pp, qp)]
  {
  }

  lemma SideSnoc(levels: seq<Level>, l: Level, pp: nat, qp: nat)
    ensures SideText(levels + [l], pp, qp) == SideText(levels, pp, qp) + LevelText(l, pp, qp)
  {
    TextsSnoc(levels, l, pp, qp);
    JoinedSnoc(LevelTexts(levels, pp, qp), LevelText(l, pp, qp));
  }

  lemma SpelledSnoc(levels: seq<Level>, n: nat, pp: nat, qp: nat)
    requires 0 < n <= |levels|
    ensures Spelled(levels, n, pp, qp) == Spelled(levels, n - 1, pp, qp) + LevelText(levels[n - 1], pp, qp)
  {
  }

  lemma {:induction false} SideSpelled(levels: seq<Level>, n: nat, pp: nat, qp: nat)
    requires n <= |levels|
    ensures SideText(levels[..n], pp, qp) == Spelled(levels, n, pp, qp)
  {
    if n > 0 {
      SideSpelled(levels, n - 1, pp, qp);
      SliceSnoc(levels, 0, n);
      SideSnoc(levels[..n - 1], levels[n - 1], pp, qp);
      SpelledSnoc(levels, n, pp, qp);
    }
  }

  /** The payload, written out: the asks' first ten levels and then the bids', level by level, price before quantity. */
  lemma PayloadSpells(bids: seq<Level>, asks: seq<Level>, pp: nat, qp: nat)
    ensures Payload(bids, asks, pp, qp) == Spelled(asks, Min(10, |asks|), pp, qp) + Spelled(bids, Min(10, |bids|), pp, qp)
  {
    SideSpelled(asks, Min(10, |asks|), pp, qp);
    SideSpelled(bids, Min(10, |bids|), pp, qp);
  }

  lemma SpelledPrefix(a: seq<Level>, b: seq<Level>, n: nat, pp: nat, qp: nat)
    requires n <= |a| && n <= |b| && forall i :: 0 <= i < n ==> a[i] == b[i]
    ensures Spelled(a, n, pp, qp) == Spelled(b, n, pp, qp)
  {
    SideSpelled(a, n, pp, qp);
    SideSpelled(b, n, pp, qp);
    assert a[..n] == b[..n];
  }

  lemma SpelledLonger(levels: seq<Level>, l: Level, pp: nat, qp: nat)
    ensures Spelled(levels + [l], |levels| + 1, pp, qp) == Spelled(levels + [l], |levels|, pp, qp) + LevelText(l, pp, qp)
  {
    SpelledSnoc(levels + [l], |levels| + 1, pp, qp);
  }

  lemma NothingAdded(text: string)
    ensures text + "" == text
  {
  }

  /** One level more at the end of a side adds its text, and nothing from the eleventh on. */
  lemma SpelledMore(levels: seq<Level>, l: Level, pp: nat, qp: nat)
    ensures Spelled(levels + [l], Min(10, |levels| + 1), pp, qp)
            == Spelled(levels, Min(10, |levels|), pp, qp) + if |levels| < 10 then LevelText(l, pp, qp) else ""
  {
    var n := Min(10, |levels|);
    SpelledPrefix(levels + [l], levels, n, pp, qp);
    if |levels| < 10 {
      SpelledLonger(levels, l, pp, qp);
    } else {
      NothingAdded(Spelled(levels, n, pp, qp));
    }
  }

  /** A further level adds its price text and then its quantity text at the end of its side's
      part of the payload while the side has fewer than ten, and nothing after that. */
  lemma LevelAdds(bids: seq<Level>, asks: seq<Level>, l: Level, pp: nat, qp: nat)
    ensures Payload(bids + [l], asks, pp, qp)
            == Payload(bids, asks, pp, qp) + if |bids| < 10 then Render(l.price, pp) + Render(l.qty, qp) else ""
    ensures Payload(bids, asks + [l], pp, qp)
            == Payload([], asks, pp, qp) + (if |asks| < 10 then Render(l.price, pp) + Render(l.qty, qp) else "") + Payload(bids, [], pp, qp)
  {
    BidAdds(bids, asks, l, pp, qp);
    AskAdds(bids, asks, l, pp, qp);
    assert LevelText(l, pp, qp) == Render(l.price, pp) + Render(l.qty, qp);
  }

  lemma BidAdds(bids: seq<Level>, asks: seq<Level>, l: Level, pp: nat, qp: nat)
    ensures Payload(bids + [l], asks, pp, qp) == Payload(bids, asks, pp, qp) + if |bids| < 10 then LevelText(l, pp, qp) else ""
  {
    PayloadSpells(bids, asks, pp, qp);
    PayloadSpells(bids + [l], asks, pp, qp);
    SpelledMore(bids, l, pp, qp);
    Rejoin(Spelled(asks, Min(10, |asks|), pp, qp), Spelled(bids, Min(10, |bids|), pp, qp), if |bids| < 10 then LevelText(l, pp, qp) else "");
  }

  lemma Rejoin(a: string, b: string, c: string)
    ensures a + (b + c) == (a + b) + c
  {
  }

  lemma AskAdds(bids: seq<Level>, asks: seq<Level>, l: Level, pp: nat, qp: nat)
    ensures Payload(bids, asks + [l], pp, qp)
            == Payload([], asks, pp, qp) + (if |asks| < 10 then LevelText(l, pp, qp) else "") + Payload(bids, [], pp, qp)
  {
    PayloadShape(bids, asks + [l], pp, qp);
    PayloadSpells([], asks, pp, qp);
    PayloadSpells([], asks + [l], pp, qp);
    SpelledMore(asks, l, pp, qp);
    assert Spelled([], 0, pp, qp) == "";
    assert Spelled(asks, Min(10, |asks|), pp, qp) + "" == Spelled(asks, Min(10, |asks|), pp, qp);
    assert Spelled(asks + [l], Min(10, |asks| + 1), pp, qp) + "" == Spelled(asks + [l], Min(10, |asks| + 1), pp, qp);
  }

  function Zeros(k: nat): string {
    if k == 0 then "" else Zeros(k - 1) + "0"
  }

  lemma {:induction false} WrittenZeros(n: nat, k: nat)
    requires n > 0
    ensures WithZeros(n, k) > 0 && Written(WithZeros(n, k)) == Written(n) + Zeros(k)
  {
    if k == 0 {
      assert Written(n) + "" == Written(n);
    } else {
      WrittenZeros(n, k - 1);
      var before := WithZeros(n, k - 1);
      assert Written(10 * before) == Written(before) + [DigitChar(0)];
    }
  }

  lemma RenderTenths(units: nat)
    requires units > 0
    ensures Render(units as real / 10.0, 1) == Written(units)
  {
    assert Scaled(units as real / 10.0, 1) == units as real;
    RenderIsDecimal(units as real / 10.0, 1, units);
  }

  lemma OneDigitMore(n: nat, d: nat)
    requires n > 0 && d < 10
    ensures Written(10 * n + d) == Written(n) + Written(d)
  {
  }

  lemma MovedBreak(a: string, b: string, c: string, zeros: string)
    ensures a + ((b + c) + zeros) == (a + b) + (c + zeros)
  {
  }

  /** Without separators, tops of different widths can spell one payload before any hash
      collides: at a pair's one and eight decimals, a price of 1.0 with quantity 23 and a
      price of 10.2 with quantity 3. */
  lemma PayloadsCollide()
    ensures Payload([Level(1.0, 23.0)], [], 1, 8) == Payload([Level(10.2, 3.0)], [], 1, 8)
  {
    RenderTenths(10);
    RenderTenths(102);
    RenderShifted(23, 8);
    RenderShifted(3, 8);
    OneDigitMore(10, 2);
    OneDigitMore(2, 3);
    MovedBreak(Written(10), Written(2), Written(3), Zeros(8));
    OneLevelPayload(Level(1.0, 23.0), 1, 8);
    OneLevelPayload(Level(10.2, 3.0), 1, 8);
  }

  lemma RenderShifted(n: nat, places: nat)
    requires n > 0
    ensures Render(n as real, places) == Written(n) + Zeros(places)
  {
    ZerosScale(n, places);
    RenderIsDecimal(n as real, places, WithZeros(n, places));
    WrittenZeros(n, places);
  }

  lemma OneLevelPayload(l: Level, pp: nat, qp: nat)
    ensures Payload([l], [], pp, qp) == Render(l.price, pp) + Render(l.qty, qp)
  {
    assert FirstTen([l]) == [l] && FirstTen([]) == [];
    var texts := LevelTexts([l], pp, qp);
    assert texts == [LevelText(l, pp, qp)] && texts[1..] == [];
  }
}
