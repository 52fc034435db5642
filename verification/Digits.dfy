/** Decimal digit strings: writing, padding, stripping and reading back. */
module Digits {
  function Pow10(p: nat): (r: nat)
    ensures r >= 1
  {
    if p == 0 then 1 else 10 * Pow10(p - 1)
  }

  lemma CutExact(n: nat, p: nat)
    requires p > 0
    ensures n / p >= 0 && 0 <= n % p < p && n == n / p * p + n % p
  {
  }

  /** `n` cut before its last `places` digits. */
  function Cut(n: nat, places: nat): (parts: (nat, nat))
    ensures n == parts.0 * Pow10(places) + parts.1 && parts.1 < Pow10(places)
  {
    CutExact(n, Pow10(places));
    (n / Pow10(places), n % Pow10(places))
  }

  function DigitChar(d: nat): (c: char)
    requires d < 10
    ensures IsDigit(c) && c as int - '0' as int == d
  {
    ('0' as int + d) as char
  }

  predicate IsDigit(c: char) {
    '0' <= c <= '9'
  }

  predicate AllDigits(s: string) {
    forall i :: 0 <= i < |s| ==> IsDigit(s[i])
  }

  /** The usual decimal writing of `n`; zero is "0". */
  function Written(n: nat): (s: string)
    ensures s != "" && AllDigits(s)
  {
    if n < 10 then [DigitChar(n)] else Written(n / 10) + [DigitChar(n % 10)]
  }

  /** The last `width` digits of `n`, padded with zeros. */
  function Padded(n: nat, width: nat): (s: string)
    ensures |s| == width && AllDigits(s)
  {
    if width == 0 then "" else Padded(n / 10, width - 1) + [DigitChar(n % 10)]
  }

  function Read(s: string): nat
    requires AllDigits(s)
  {
    if s == "" then 0
    else 10 * Read(s[..|s| - 1]) + (s[|s| - 1] as int - '0' as int)
  }

  function WithoutDots(s: string): string {
    if s == "" then "" else (if s[0] == '.' then "" else [s[0]]) + WithoutDots(s[1..])
  }

  function WithoutLeadingZeros(s: string): string {
    if s != "" && s[0] == '0' then WithoutLeadingZeros(s[1..]) else s
  }

  predicate Stripped(s: string) {
    AllDigits(s) && (s != "" ==> s[0] != '0')
  }

  lemma {:induction false} ReadWritten(n: nat)
    ensures Read(Written(n)) == n
  {
    if n >= 10 {
      ReadWritten(n / 10);
    }
  }

  lemma {:induction false} ReadPadded(n: nat, width: nat)
    requires n < Pow10(width)
    ensures Read(Padded(n, width)) == n
  {
    if width > 0 {
      ReadPadded(n / 10, width - 1);
    }
  }

  lemma {:induction false} ReadAppend(a: string, b: string)
    requires AllDigits(a) && AllDigits(b)
    ensures AllDigits(a + b) && Read(a + b) == Read(a) * Pow10(|b|) + Read(b)
  {
    if b == "" {
      assert a + b == a;
    } else {
      var n := |b| - 1;
      assert (a + b)[..|a + b| - 1] == a + b[..n];
      ReadAppend(a, b[..n]);
      Shift(Read(a), Pow10(n), Read(b[..n]));
    }
  }

  lemma Shift(r: nat, p: nat, x: nat)
    ensures 10 * (r * p + x) == r * (10 * p) + 10 * x
  {
  }

  lemma {:induction false} NoDots(s: string)
    requires AllDigits(s)
    ensures WithoutDots(s) == s
  {
    if s != "" {
      NoDots(s[1..]);
      assert s == [s[0]] + s[1..];
    }
  }

  lemma {:induction false} DotGone(a: string, b: string)
    requires AllDigits(a) && AllDigits(b)
    ensures WithoutDots(a + "." + b) == a + b
  {
    var s := a + "." + b;
    if a == "" {
      NoDots(b);
      assert s[1..] == b && a + b == b;
    } else {
      DotGone(a[1..], b);
      assert s[1..] == a[1..] + "." + b;
      assert a + b == [a[0]] + (a[1..] + b);
    }
  }

  lemma {:induction false} StripKeepsValue(s: string)
    requires AllDigits(s)
    ensures Stripped(WithoutLeadingZeros(s)) && Read(WithoutLeadingZeros(s)) == Read(s)
  {
    if s != "" && s[0] == '0' {
      StripKeepsValue(s[1..]);
      assert s == "0" + s[1..];
      ReadAppend("0", s[1..]);
      assert Read("0") == 0;
    }
  }

  /** A stripped digit string is determined by the number it reads as. */
  lemma {:induction false} StrippedIsCanonical(s: string)
    requires Stripped(s)
    ensures Read(s) == 0 <==> s == ""
    ensures s != "" ==> s == Written(Read(s))
  {
    if s != "" {
      var init := s[..|s| - 1];
      StrippedIsCanonical(init);
      assert s == init + [s[|s| - 1]];
    }
  }
}
