/**
 * `Scale._getRoundNum`, the scale bar's "nice number": from 2 upwards, the
 * largest of 1, 2, 3 and 5 times the power of ten at or below the leading
 * digit that does not exceed the length; below 2, the length rounded to
 * hundredths and printed with one decimal (a string, not a number).
 */
module Scale {
  import opened Text
  import opened JsValues
  import opened JsMath
  import opened Wrappers

  /** The nice multipliers, chosen by the leading part `i` of the length. */
  function Bucket(i: real): (b: real)
    ensures b == 1.0 || b == 2.0 || b == 3.0 || b == 5.0 || b == 10.0
    ensures i >= 1.0 ==> b <= i
    ensures 1.0 <= i < 10.0 ==> i / 2.0 < b
  {
    if i >= 10.0 then 10.0 else if i >= 5.0 then 5.0 else if i >= 3.0 then 3.0
    else if i >= 2.0 then 2.0 else 1.0
  }

  /** `Math.pow(10, (Math.floor(t) + '').length - 1)`: the place value of the leading digit. */
  function LeadingPlace(t: real): (e: nat)
    requires t >= 2.0
  {
    Pow10(|Decimal(t.Floor)| - 1)
  }

  /** `Number.prototype.toFixed(1)` of `k / 100`, halves rounded up. */
  function Tenths(k: int): (s: string)
  {
    var a := if k < 0 then -k else k;
    var digits := OneDecimal((a + 5) / 10);
    if k < 0 then "-" + digits else digits
  }

  /** A count of tenths printed as a whole part, a point and one digit. */
  function OneDecimal(n: nat): string
  {
    Decimal(n / 10) + "." + [DigitChar(n % 10)]
  }

  /** `_getRoundNum(t)`. */
  function RoundNum(t: real): JsValue
  {
    if t >= 2.0 then Num(Scaled(t, LeadingPlace(t)))
    else Str(Tenths(Round(100.0 * t)))
  }

  /** The nice multiplier for `t` over the place value `p`, scaled back up. */
  function Scaled(t: real, p: nat): real
    requires p >= 1
  {
    var e := p as real;
    e * Bucket(t / e)
  }

  /** A positive integer lies between the place value of its leading digit and ten times that. */
  lemma {:induction false} DecimalLength(n: nat)
    requires n >= 1
    ensures |Decimal(n)| >= 1
    ensures Pow10(|Decimal(n)| - 1) <= n < Pow10(|Decimal(n)|)
    decreases n
  {
    if n >= 10 {
      DecimalLength(n / 10);
      assert Decimal(n) == Decimal(n / 10) + [DigitChar(n % 10)];
    }
  }

  /** The length divided by the leading place value lies in `[1, 10)`. */
  lemma LeadingPart(t: real)
    requires t >= 2.0
    ensures var e := LeadingPlace(t) as real; e >= 1.0 && e <= t < 10.0 * e
  {
    DecimalLength(t.Floor);
  }

  /** `r` is 1, 2, 3 or 5 times the power of ten `p`. */
  predicate NiceMultiple(r: real, p: nat)
  {
    r == p as real || r == 2.0 * p as real || r == 3.0 * p as real || r == 5.0 * p as real
  }

  /**
   * From 2 upwards the nice number never exceeds the length and is more
   * than half of it, and it is 1, 2, 3 or 5 times a power of ten; no
   * other such number up to the length is larger.
   */
  lemma RoundNumBounds(t: real)
    requires t >= 2.0
    ensures RoundNum(t).Num?
    ensures t / 2.0 < RoundNum(t).n <= t
    ensures exists k: nat :: NiceMultiple(RoundNum(t).n, Pow10(k))
    ensures forall k: nat, r: real :: NiceMultiple(r, Pow10(k)) && r <= t ==> r <= RoundNum(t).n
  {
    LeadingPart(t);
    ScaledBucket(t, LeadingPlace(t));
    forall k: nat, r: real | NiceMultiple(r, Pow10(k))
      ensures r <= t ==> r <= RoundNum(t).n
    {
      RoundNumLargest(t, k, r);
    }
  }

  /**
   * A nice multiple of a larger power of ten exceeds the length, and one
   * of a smaller power is below the leading place value.
   */
  lemma RoundNumLargest(t: real, k: nat, r: real)
    requires t >= 2.0 && NiceMultiple(r, Pow10(k))
    ensures r <= t ==> r <= RoundNum(t).n
  {
    var j := |Decimal(t.Floor)| - 1;
    var p := LeadingPlace(t);
    var e := p as real;
    LeadingPart(t);
    assert Scaled(t, p) >= e by {
      assert e * Bucket(t / e) - e == e * (Bucket(t / e) - 1.0);
    }
    if k > j {
      Pow10Below(j, k);
      assert r >= Pow10(k) as real >= 10.0 * e > t;
    } else if k < j {
      Pow10Below(k, j);
      assert r <= 5.0 * Pow10(k) as real < e;
    } else {
      ScaledBucketLargestIf(t, p, r);
    }
  }

  /** A larger exponent gives at least ten times the power. */
  lemma {:induction false} Pow10Below(i: nat, k: nat)
    requires i < k
    ensures 10 * Pow10(i) <= Pow10(k)
    decreases k
  {
    if i < k - 1 {
      Pow10Below(i, k - 1);
    }
  }

  /** No nice multiple of `p` up to `t` exceeds the chosen one. */
  lemma ScaledBucketLargestIf(t: real, p: nat, r: real)
    requires 1.0 <= p as real <= t < 10.0 * p as real
    requires NiceMultiple(r, p)
    ensures r <= t ==> r <= Scaled(t, p)
  {
    var e := p as real;
    DivCompare(t, e, 5.0);
    DivCompare(t, e, 3.0);
    DivCompare(t, e, 2.0);
  }

  lemma ScaledBucket(t: real, p: nat)
    requires 1.0 <= p as real <= t < 10.0 * p as real
    ensures t / 2.0 < Scaled(t, p) <= t && NiceMultiple(Scaled(t, p), p)
  {
    var e := p as real;
    var i := t / e;
    DivCompare(t, e, 10.0);
    DivCompare(t, e, 5.0);
    DivCompare(t, e, 3.0);
    DivCompare(t, e, 2.0);
  }

  /** For a positive divisor, comparing the quotient with `c` is comparing the dividend with `c` times it. */
  lemma DivCompare(t: real, e: real, c: real)
    requires e > 0.0
    ensures t / e >= c <==> t >= c * e
  {
    var i := t / e;
    assert i * e == t;
    assert (i - c) * e == t - c * e;
    if i >= c {
      assert (i - c) * e >= 0.0;
    } else {
      assert (c - i) * e > 0.0;
    }
  }

  /** A one-decimal string reads back as its number. */
  lemma TenthsValue(q: nat, d: nat)
    requires d < 10
    ensures ToNumber(Decimal(q) + "." + [DigitChar(d)]) == Some(q as real + d as real / 10.0)
  {
    var s := Decimal(q);
    DecimalIsPlain(q);
    var c := DigitChar(d);
    var t := s + "." + [c];
    assert t[0] == s[0];
    assert PlainChars(t) by {
      assert '0' <= c <= '9';
      assert forall k :: 0 <= k < |s| ==> t[k] == s[k];
    }
    ToNumberPlain(t);
    UnsignedTenths(q, d);
  }

  lemma UnsignedTenths(q: nat, d: nat)
    requires d < 10
    ensures Unsigned(Decimal(q) + "." + [DigitChar(d)]) == Some(q as real + d as real / 10.0)
  {
    var s := Decimal(q);
    var c := DigitChar(d);
    var t := s + "." + [c];
    assert '.' !in s by {
      forall k | 0 <= k < |s| ensures s[k] != '.' {
        assert IsDigitOf(s[k], 10);
      }
    }
    assert t == s + ['.'] + [c];
    SplitAppend(s, '.', [c]);
    SplitNoSeparator([c], '.');
    assert Split(t, '.') == [s, [c]];
    assert AllDigits([c], 10);
    ParseDigitsOfDigits(q, 10);
    assert ParseDigits([c], 10) == d by {
      assert [c][..0] == [];
    }
  }

  /** A count of tenths, printed with one decimal, reads back as that many tenths. */
  lemma OneDecimalReads(n: nat)
    ensures ToNumber(OneDecimal(n)) == Some(n as real / 10.0)
  {
    var q, d := n / 10, n % 10;
    assert OneDecimal(n) == Decimal(q) + "." + [DigitChar(d)];
    TenthsValue(q, d);
    TenthsSplit(n);
    assert q as real + d as real / 10.0 == n as real / 10.0;
  }

  /** Whole part plus one decimal make up the number of tenths. */
  lemma TenthsSplit(n: nat)
    ensures (n / 10) as real + (n % 10) as real / 10.0 == n as real / 10.0
  {
    assert n == (n / 10) * 10 + n % 10;
  }

  /** Rounding `t` to hundredths and then to tenths moves it by at most 0.055. */
  lemma TenthsClose(t: real, k: int)
    requires t >= 0.0
    requires (k as real) - 0.5 <= 100.0 * t < (k as real) + 0.5
    ensures k >= 0
    ensures var x := ((k + 5) / 10) as real / 10.0; t - 0.055 <= x <= t + 0.055
  {
    var n := (k + 5) / 10;
    assert 10 * n <= k + 5 < 10 * n + 10;
  }

  /**
   * Below 2 (and from 0) the result is a string that reads back as a
   * number of tenths within 0.055 of the length: rounding to hundredths
   * moves it by at most 0.005, and printing one decimal by at most 0.05.
   */
  lemma RoundNumSmall(t: real)
    requires 0.0 <= t < 2.0
    ensures RoundNum(t).Str?
    ensures var x := ToNumber(RoundNum(t).s);
      x.Some? && t - 0.055 <= x.value <= t + 0.055
  {
    var k := Round(100.0 * t);
    TenthsClose(t, k);
    SmallRoundNum(t, k);
    OneDecimalReads((k + 5) / 10);
  }

  /** Below 2 the nice number is the hundredths count, rounded to tenths and printed. */
  lemma SmallRoundNum(t: real, k: int)
    requires t < 2.0 && k == Round(100.0 * t) && k >= 0
    ensures RoundNum(t) == Str(OneDecimal((k + 5) / 10))
  {
    assert RoundNum(t) == Str(Tenths(k));
  }
}
