/**
 * String helpers shared by the model: the digit strings produced by
 * `Number.prototype.toString(radix)` for non-negative integers, the
 * zero-padding loops, `String.prototype.split` on one character, and
 * ASCII case mapping.
 */
module Text {

  /** The digit character JavaScript uses for `d` (lower case). */
  function DigitChar(d: nat): (c: char)
    requires d < 16
    ensures IsDigitOf(c, 16)
    ensures DigitValue(c) == d
  {
    "0123456789abcdef"[d]
  }

  /** The value of a lower-case hexadecimal or decimal digit character. */
  function DigitValue(c: char): nat
  {
    if '0' <= c <= '9' then c as nat - '0' as nat
    else if 'a' <= c <= 'f' then c as nat - 'a' as nat + 10
    else 0
  }

  predicate IsDigitOf(c: char, base: nat)
  {
    ('0' <= c <= '9' || 'a' <= c <= 'f') && DigitValue(c) < base
  }

  predicate AllDigits(s: string, base: nat)
  {
    forall k :: 0 <= k < |s| ==> IsDigitOf(s[k], base)
  }

  /** `n.toString(base)` for a non-negative integer `n`. */
  function Digits(n: nat, base: nat): (s: string)
    requires 2 <= base <= 16
    ensures 1 <= |s|
    ensures AllDigits(s, base)
    decreases n
  {
    if n < base then [DigitChar(n)]
    else Digits(n / base, base) + [DigitChar(n % base)]
  }

  /** A digit string has no leading zero: only `0` itself starts with `0`. */
  lemma DigitsCanonical(n: nat, base: nat)
    requires 2 <= base <= 16
    ensures |Digits(n, base)| > 1 ==> Digits(n, base)[0] != '0'
  {
    if n > 0 {
      DigitsLeading(n, base);
    }
  }

  lemma {:induction false} DigitsLeading(n: nat, base: nat)
    requires 2 <= base <= 16 && n > 0
    ensures Digits(n, base)[0] != '0'
    decreases n
  {
    if n >= base {
      var q := n / base;
      DivPositive(n, base);
      DigitsLeading(q, base);
      assert Digits(n, base) == Digits(q, base) + [DigitChar(n % base)];
    } else {
      assert DigitValue(Digits(n, base)[0]) == n;
    }
  }

  lemma DivPositive(n: nat, base: nat)
    requires 1 <= base <= n
    ensures n / base >= 1
  {
    assert n == (n / base) * base + n % base;
  }

  /** The number a digit string denotes in `base` (most significant first). */
  function ParseDigits(s: string, base: nat): nat
  {
    if |s| == 0 then 0
    else ParseDigits(s[..|s| - 1], base) * base + DigitValue(s[|s| - 1])
  }

  function Decimal(n: nat): string { Digits(n, 10) }
  function Hex(n: nat): string { Digits(n, 16) }

  /** `String(i)` for an integer. */
  function IntToString(i: int): (s: string)
    ensures 1 <= |s|
  {
    if i < 0 then "-" + Decimal(-i) else Decimal(i)
  }

  /** Reading the digits back gives the number: `parseInt(n.toString(b), b) == n`. */
  lemma {:induction false} ParseDigitsOfDigits(n: nat, base: nat)
    requires 2 <= base <= 16
    ensures ParseDigits(Digits(n, base), base) == n
    decreases n
  {
    var s := Digits(n, base);
    if n < base {
      assert s[..0] == [];
    } else {
      var q, d := n / base, n % base;
      DivMod(n, base);
      ParseDigitsOfDigits(q, base);
      ParseDigitsSnoc(Digits(q, base), DigitChar(d), base);
    }
  }

  lemma DivMod(n: nat, b: nat)
    requires 2 <= b
    ensures n / b < n || n == 0
    ensures n == (n / b) * b + n % b
  {
  }

  lemma ParseDigitsSnoc(t: string, c: char, base: nat)
    ensures ParseDigits(t + [c], base) == ParseDigits(t, base) * base + DigitValue(c)
  {
    assert (t + [c])[..|t|] == t;
  }

  /** Distinct numbers have distinct digit strings. */
  lemma DigitsInjective(m: nat, n: nat, base: nat)
    requires 2 <= base <= 16
    requires Digits(m, base) == Digits(n, base)
    ensures m == n
  {
    ParseDigitsOfDigits(m, base);
    ParseDigitsOfDigits(n, base);
  }

  /** Reading an integer's string back: an optional `-`, then decimal digits. */
  function ParseSigned(s: string): int
  {
    if |s| > 0 && s[0] == '-' then -(ParseDigits(s[1..], 10) as int) else ParseDigits(s, 10)
  }

  /** `String(i)` reads back as `i`. */
  lemma ParseIntToString(i: int)
    ensures ParseSigned(IntToString(i)) == i
  {
    if i < 0 {
      ParseNegative(-i);
    } else {
      ParseNonNegative(i);
    }
  }

  lemma ParseNegative(n: nat)
    ensures ParseSigned("-" + Decimal(n)) == -(n as int)
  {
    var d := Decimal(n);
    assert ("-" + d)[1..] == d;
    ParseDigitsOfDigits(n, 10);
  }

  lemma ParseNonNegative(n: nat)
    ensures ParseSigned(Decimal(n)) == n
  {
    assert IsDigitOf(Decimal(n)[0], 10);
    ParseDigitsOfDigits(n, 10);
  }

  /** Distinct integers have distinct decimal strings. */
  lemma IntToStringInjective(i: int, j: int)
    requires IntToString(i) == IntToString(j)
    ensures i == j
  {
    ParseIntToString(i);
    ParseIntToString(j);
  }

  /** `c` repeated `n` times. */
  function Repeat(c: char, n: nat): (s: string)
    ensures |s| == n
    ensures forall k :: 0 <= k < n ==> s[k] == c
  {
    if n == 0 then "" else [c] + Repeat(c, n - 1)
  }

  /** `s` with `c` prepended until it is at least `n` characters long. */
  function LeftPad(s: string, n: nat, c: char): string
  {
    if |s| >= n then s else Repeat(c, n - |s|) + s
  }

  /**
   * The padding loop used by `Util.tileFileUrlFormat`, `ColorUtil.rgbToHex`
   * and `ColorUtil.toHexColor`: prepend "0" while the string is shorter
   * than `n`.
   */
  method PadZeros(s: string, n: nat) returns (r: string)
    ensures r == LeftPad(s, n, '0')
    ensures |r| == if |s| >= n then |s| else n
    ensures r[|r| - |s|..] == s
  {
    r := s;
    var z: nat := 0;
    while |r| < n
      invariant r == Repeat('0', z) + s
      invariant |r| == z + |s|
      invariant |s| < n ==> |r| <= n
      invariant |s| >= n ==> z == 0
      decreases n - |r|
    {
      r := "0" + r;
      z := z + 1;
    }
    assert r[z..] == s;
  }

  /** Leading zeros do not change the value of a digit string. */
  lemma {:induction false} ParseDigitsLeftPad(s: string, n: nat, base: nat)
    ensures ParseDigits(LeftPad(s, n, '0'), base) == ParseDigits(s, base)
    decreases n
  {
    if |s| < n {
      ParseDigitsZeroPrefix(s, n - |s|, base);
    }
  }

  lemma {:induction false} ParseDigitsZeroPrefix(s: string, z: nat, base: nat)
    ensures ParseDigits(Repeat('0', z) + s, base) == ParseDigits(s, base)
    decreases |s|
  {
    var t := Repeat('0', z) + s;
    if |s| == 0 {
      ParseDigitsZeros(z, base);
      assert t == Repeat('0', z);
    } else {
      assert t[..|t| - 1] == Repeat('0', z) + s[..|s| - 1];
      ParseDigitsZeroPrefix(s[..|s| - 1], z, base);
    }
  }

  lemma {:induction false} ParseDigitsZeros(z: nat, base: nat)
    ensures ParseDigits(Repeat('0', z), base) == 0
  {
    if z > 0 {
      assert Repeat('0', z)[..z - 1] == Repeat('0', z - 1);
      ParseDigitsZeros(z - 1, base);
    }
  }

  /** ASCII `toUpperCase`; other characters are left alone. */
  function UpperChar(c: char): char
  {
    if 'a' <= c <= 'z' then (c as int - 32) as char else c
  }

  function LowerChar(c: char): char
  {
    if 'A' <= c <= 'Z' then (c as int + 32) as char else c
  }

  function ToUpper(s: string): (r: string)
    ensures |r| == |s|
    ensures forall k :: 0 <= k < |s| ==> r[k] == UpperChar(s[k])
  {
    seq(|s|, k requires 0 <= k < |s| => UpperChar(s[k]))
  }

  function ToLower(s: string): (r: string)
    ensures |r| == |s|
    ensures forall k :: 0 <= k < |s| ==> r[k] == LowerChar(s[k])
  {
    seq(|s|, k requires 0 <= k < |s| => LowerChar(s[k]))
  }

  /** `s.split(c)` for a one-character separator. */
  function Split(s: string, c: char): (parts: seq<string>)
    ensures 1 <= |parts|
    ensures forall p :: p in parts ==> c !in p
  {
    if |s| == 0 then [""]
    else
      var rest := Split(s[1..], c);
      if s[0] == c then [""] + rest
      else [[s[0]] + rest[0]] + rest[1..]
  }

  /** `parts.join(c)`. */
  function Join(parts: seq<string>, c: char): string
    requires 1 <= |parts|
  {
    if |parts| == 1 then parts[0] else parts[0] + [c] + Join(parts[1..], c)
  }

  /** Splitting and joining again gives back the string. */
  lemma {:induction false} JoinSplit(s: string, c: char)
    ensures Join(Split(s, c), c) == s
    decreases |s|
  {
    if |s| > 0 {
      var rest := Split(s[1..], c);
      JoinSplit(s[1..], c);
      if s[0] != c {
        var parts := Split(s, c);
        if |rest| > 1 {
          assert parts[1..] == rest[1..];
        }
      }
    }
  }

  /** A part free of the separator comes out of the split whole. */
  lemma {:induction false} SplitAppend(s: string, c: char, t: string)
    requires c !in s
    ensures Split(s + [c] + t, c) == [s] + Split(t, c)
    decreases |s|
  {
    if |s| == 0 {
      assert s + [c] + t == [c] + t;
      assert ([c] + t)[1..] == t;
    } else {
      assert (s + [c] + t)[1..] == s[1..] + [c] + t;
      SplitAppend(s[1..], c, t);
      assert [s[0]] + s[1..] == s;
    }
  }

  /** A string free of the separator splits into itself alone. */
  lemma {:induction false} SplitNoSeparator(s: string, c: char)
    requires c !in s
    ensures Split(s, c) == [s]
    decreases |s|
  {
    if |s| > 0 {
      SplitNoSeparator(s[1..], c);
      assert [s[0]] + s[1..] == s;
    }
  }

  /** A number below `16^k` has at most `k` hex digits. */
  lemma {:induction false} HexLength(n: nat, k: nat)
    requires 1 <= k && n < Pow16(k)
    ensures |Hex(n)| <= k
    decreases k
  {
    if n >= 16 {
      DivMod(n, 16);
      HexLength(n / 16, k - 1);
    }
  }

  function Pow16(k: nat): nat
  {
    if k == 0 then 1 else 16 * Pow16(k - 1)
  }

  /** Quotient and remainder are the only ones: `n == q * d + r` with `0 <= r < d` fixes both. */
  lemma DivModUnique(n: int, d: nat, q: int, r: int)
    requires d >= 1 && n == q * d + r && 0 <= r < d
    ensures n / d == q && n % d == r
  {
    var q0, r0 := n / d, n % d;
    assert n == q0 * d + r0;
    var k := q - q0;
    assert k * d == r0 - r by {
      assert q * d - q0 * d == (q - q0) * d;
    }
    if k >= 1 {
      MulAtLeastFactor(k, d);
    } else if k <= -1 {
      MulAtLeastFactor(-k, d);
    }
  }

  lemma MulAtLeastFactor(k: int, d: nat)
    requires k >= 1
    ensures k * d >= d
  {
    assert k * d == (k - 1) * d + d;
  }

  /** Hex digits read left to right: the value of `a + b` is `a`'s shifted past `b`'s digits, plus `b`'s. */
  lemma {:induction false} ParseHexAppend(a: string, b: string)
    ensures ParseDigits(a + b, 16) == ParseDigits(a, 16) * Pow16(|b|) + ParseDigits(b, 16)
    decreases |b|
  {
    if |b| == 0 {
      assert a + b == a;
    } else {
      var b', c := b[..|b| - 1], b[|b| - 1];
      assert a + b == (a + b') + [c];
      assert b == b' + [c];
      ParseDigitsSnoc(a + b', c, 16);
      ParseDigitsSnoc(b', c, 16);
      ParseHexAppend(a, b');
      assert Pow16(|b|) == 16 * Pow16(|b'|);
      ShiftOneDigit(ParseDigits(a, 16), Pow16(|b'|), ParseDigits(b', 16), DigitValue(c));
    }
  }

  lemma ShiftOneDigit(x: int, k: int, y: int, d: int)
    ensures (x * k + y) * 16 + d == x * (16 * k) + (y * 16 + d)
  {
  }
}
