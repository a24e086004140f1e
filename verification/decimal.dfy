/**
 Decimal rendering of naturals, as Go's fmt package prints a non-negative
 integer with the verb `%d` (shortest form) and `%0Nd` (right-aligned in a
 field of N characters, filled with leading zeros), together with the
 decoder that reads such a rendering back.
 */
module Decimal {
  import opened Strings

  predicate IsDigit(c: char) {
    '0' <= c <= '9'
  }

  predicate AllDigits(s: string) {
    forall i :: 0 <= i < |s| ==> IsDigit(s[i])
  }

  function DigitChar(d: nat): (c: char)
    requires d < 10
    ensures IsDigit(c)
  {
    (d + '0' as int) as char
  }

  function DigitValue(c: char): (d: nat)
    requires IsDigit(c)
    ensures d < 10
  {
    c as int - '0' as int
  }

  function Pow10(k: nat): (p: nat)
    ensures p >= 1
  {
    if k == 0 then 1 else 10 * Pow10(k - 1)
  }

  function Max(a: nat, b: nat): nat {
    if a < b then b else a
  }

  /** A run of `k` zero digits. */
  function Zeros(k: nat): (z: string)
    ensures |z| == k
    ensures forall i :: 0 <= i < k ==> z[i] == '0'
  {
    seq(k, _ => '0')
  }

  /** `%d` of a non-negative integer: decimal digits only, no leading zero
      except for zero itself. */
  function NatToString(n: nat): (s: string)
    ensures |s| >= 1 && AllDigits(s)
    ensures s[0] == '0' ==> n == 0
    decreases n
  {
    if n < 10 then [DigitChar(n)] else NatToString(n / 10) + [DigitChar(n % 10)]
  }

  /** The value of a string of decimal digits (the empty string reads as 0). */
  function ParseDecimal(s: string): (n: nat)
    requires AllDigits(s)
    ensures n < Pow10(|s|)
  {
    if |s| == 0 then 0
    else
      var p := ParseDecimal(s[..|s| - 1]);
      var d := DigitValue(s[|s| - 1]);
      assert 10 * p + d < 10 * Pow10(|s| - 1) by {
        assert p + 1 <= Pow10(|s| - 1);
      }
      10 * p + d
  }

  /** Reading back `%d` gives the number printed. */
  lemma {:induction false} ParseNatToString(n: nat)
    ensures ParseDecimal(NatToString(n)) == n
    decreases n
  {
    var s := NatToString(n);
    if n >= 10 {
      ParseNatToString(n / 10);
      assert s[..|s| - 1] == NatToString(n / 10);
    }
  }

  /** `%d` never prints two numbers the same way. */
  lemma NatToStringInjective(a: nat, b: nat)
    ensures NatToString(a) == NatToString(b) <==> a == b
  {
    ParseNatToString(a);
    ParseNatToString(b);
  }

  lemma {:induction false} Pow10Monotone(j: nat, k: nat)
    requires j <= k
    ensures Pow10(j) <= Pow10(k)
    decreases k
  {
    if j < k {
      Pow10Monotone(j, k - 1);
    }
  }

  /** A number fits in `k >= 1` digits exactly when it is below 10^k. */
  lemma {:induction false} NatToStringLength(n: nat, k: nat)
    requires k >= 1
    ensures n < Pow10(k) <==> |NatToString(n)| <= k
    decreases n
  {
    var s := NatToString(n);
    if n < Pow10(k) {
      if n >= 10 {
        assert k >= 2;
        assert n / 10 < Pow10(k - 1);
        NatToStringLength(n / 10, k - 1);
      }
    } else {
      ParseNatToString(n);
      if |s| <= k {
        Pow10Monotone(|s|, k);
        assert n < Pow10(|s|);
      }
    }
  }

  /** Leading zeros do not change the value read back. */
  lemma {:induction false} ParseLeadingZeros(k: nat, s: string)
    requires AllDigits(s)
    ensures AllDigits(Zeros(k) + s)
    ensures ParseDecimal(Zeros(k) + s) == ParseDecimal(s)
    decreases |s|
  {
    var z := Zeros(k) + s;
    if |s| == 0 {
      assert z == Zeros(k);
      ParseZeros(k);
    } else {
      assert z[..|z| - 1] == Zeros(k) + s[..|s| - 1];
      ParseLeadingZeros(k, s[..|s| - 1]);
    }
  }

  lemma {:induction false} ParseZeros(k: nat)
    ensures ParseDecimal(Zeros(k)) == 0
    decreases k
  {
    if k > 0 {
      assert Zeros(k)[..k - 1] == Zeros(k - 1);
      ParseZeros(k - 1);
    }
  }

  /** `%0Nd` of a non-negative integer: the `%d` digits right-aligned in a
      field of `width` characters filled with '0'; a number wider than the
      field is printed in full. */
  function PadDecimal(n: nat, width: nat): (s: string)
    ensures AllDigits(s)
    ensures |s| == Max(width, |NatToString(n)|)
    ensures s[|s| - |NatToString(n)|..] == NatToString(n)
    ensures forall i :: 0 <= i < |s| - |NatToString(n)| ==> s[i] == '0'
    ensures ParseDecimal(s) == n
  {
    var d := NatToString(n);
    ParseNatToString(n);
    if |d| >= width then d
    else
      ParseLeadingZeros(width - |d|, d);
      Zeros(width - |d|) + d
  }

  /** For a number below 10^width the padded field is exactly `width`
      characters wide. */
  lemma PadDecimalWidth(n: nat, width: nat)
    requires width >= 1 && n < Pow10(width)
    ensures |PadDecimal(n, width)| == width
  {
    NatToStringLength(n, width);
  }

  /** Distinct numbers get distinct fields, at every width. */
  lemma PadDecimalInjective(a: nat, b: nat, width: nat)
    ensures PadDecimal(a, width) == PadDecimal(b, width) <==> a == b
  {
  }

  /** The leading digit weighs 10^(n-1). */
  lemma {:induction false} ParseFront(s: string)
    requires |s| >= 1 && AllDigits(s)
    ensures ParseDecimal(s) == DigitValue(s[0]) * Pow10(|s| - 1) + ParseDecimal(s[1..])
    decreases |s|
  {
    var n := |s|;
    if n >= 2 {
      var init, rest := s[..n - 1], s[1..];
      assert init[0] == s[0];
      assert rest[..n - 2] == init[1..] && rest[n - 2] == s[n - 1];
      ParseFront(init);
      FrontStep(ParseDecimal(s), ParseDecimal(init), ParseDecimal(rest),
        DigitValue(s[0]), DigitValue(s[n - 1]), Pow10(n - 2), ParseDecimal(init[1..]), Pow10(n - 1));
    }
  }

  /** The arithmetic of one step of `ParseFront`. */
  lemma FrontStep(ps: int, pinit: int, prest: int, d0: int, last: int, x: int, y: int, px: int)
    requires ps == 10 * pinit + last && pinit == d0 * x + y
    requires prest == 10 * y + last && px == 10 * x
    ensures ps == d0 * px + prest
  {
  }

  /** A leading digit below another outweighs everything after it. */
  lemma LeadingDigitDominates(ds: nat, dt: nat, rs: nat, rt: nat, p: nat)
    requires ds < dt && rs < p
    ensures ds * p + rs < dt * p + rt
  {
    assert (ds + 1) * p <= dt * p;
  }

  /** Among digit strings of one length, string order is numeric order. */
  lemma {:induction false} DigitStringOrder(s: string, t: string)
    requires |s| == |t| && AllDigits(s) && AllDigits(t)
    ensures ParseDecimal(s) < ParseDecimal(t) <==> LexLess(s, t)
    decreases |s|
  {
    if |s| > 0 {
      ParseFront(s);
      ParseFront(t);
      var p := Pow10(|s| - 1);
      var ds, dt := DigitValue(s[0]), DigitValue(t[0]);
      var rs, rt := ParseDecimal(s[1..]), ParseDecimal(t[1..]);
      assert rs < p && rt < p;
      if ds < dt {
        LeadingDigitDominates(ds, dt, rs, rt, p);
        assert s[0] < t[0];
        assert LexLess(s, t);
      } else if dt < ds {
        LeadingDigitDominates(dt, ds, rt, rs, p);
        assert t[0] < s[0];
        assert !LexLess(s, t);
      } else {
        assert s[0] == t[0];
        DigitStringOrder(s[1..], t[1..]);
        assert LexLess(s, t) <==> LexLess(s[1..], t[1..]);
      }
    }
  }

  /** Zero-padded fields of one width sort as the numbers they hold. */
  lemma PadDecimalOrder(a: nat, b: nat, width: nat)
    requires width >= 1 && a < Pow10(width) && b < Pow10(width)
    ensures a < b <==> LexLess(PadDecimal(a, width), PadDecimal(b, width))
  {
    PadDecimalWidth(a, width);
    PadDecimalWidth(b, width);
    DigitStringOrder(PadDecimal(a, width), PadDecimal(b, width));
  }
}
