/**
 * `ColorUtil`'s hex helpers: `rgbToHex` packs three channels with shifts
 * and a bitwise or and prints them as `#` and at least six hex digits,
 * `toHexColor` does the same for a number, and `colorToRgb` reads `#rgb`
 * or `#rrggbb` back into channels, as an `RGB(r,g,b)` string or as an
 * array.
 */
module ColorUtil {
  import opened Wrappers
  import opened Text
  import opened JsValues

  // ---------------------------------------------------------------------
  // 32-bit shifts and or

  function Pow2(k: nat): (r: nat)
    ensures r >= 1
  {
    if k == 0 then 1 else 2 * Pow2(k - 1)
  }

  const TwoTo32: nat := 0x1_0000_0000

  /** The bit pattern `ToInt32` gives an integer, as an unsigned number. */
  function Uint32(n: int): (u: nat)
    ensures u < TwoTo32
  {
    n % TwoTo32
  }

  /** `x << k` on a bit pattern: bits shifted past bit 31 are lost. */
  function ShiftLeft(u: nat, k: nat): (v: nat)
    ensures v < TwoTo32
  {
    (u * Pow2(k)) % TwoTo32
  }

  /** The bitwise or of the low `w` bits of two bit patterns. */
  function BitOr(a: nat, b: nat, w: nat): nat
  {
    if w == 0 then 0
    else 2 * BitOr(a / 2, b / 2, w - 1) + (if a % 2 == 1 || b % 2 == 1 then 1 else 0)
  }

  /** A bit pattern read as a signed 32-bit integer, as `|` returns it. */
  function Signed(u: nat): int
  {
    if u < 0x8000_0000 then u else u - TwoTo32
  }

  /** `(r << 16) | (g << 8) | b` for integers `r`, `g`, `b`. */
  function Pack(r: int, g: int, b: int): int
  {
    Signed(BitOr(BitOr(ShiftLeft(Uint32(r), 16), ShiftLeft(Uint32(g), 8), 32), Uint32(b), 32))
  }

  /**
   * An or of two patterns whose set bits cannot meet, `a` a multiple of
   * `2^k` and `b` below `2^k`, is their sum.
   */
  lemma {:induction false} BitOrDisjoint(a: nat, b: nat, w: nat, k: nat)
    requires a < Pow2(w) && b < Pow2(k) && k <= w && a % Pow2(k) == 0
    ensures BitOr(a, b, w) == a + b
    decreases w
  {
    if w > 0 {
      HalfBelow(a, Pow2(w - 1));
      if k == 0 {
        BitOrDisjoint(a / 2, 0, w - 1, 0);
      } else {
        HalfBelow(b, Pow2(k - 1));
        EvenMultiple(a, k);
        BitOrDisjoint(a / 2, b / 2, w - 1, k - 1);
      }
    }
  }

  lemma HalfBelow(x: nat, p: nat)
    requires x < 2 * p
    ensures x / 2 < p
  {
  }

  lemma EvenMultiple(a: nat, k: nat)
    requires k >= 1 && a % Pow2(k) == 0
    ensures a % 2 == 0 && (a / 2) % Pow2(k - 1) == 0
  {
    var p := Pow2(k - 1);
    var m := a / (2 * p);
    assert a == m * (2 * p);
    assert a == (m * p) * 2;
    DivModUnique(a, 2, m * p, 0);
    DivModUnique(a / 2, p, m, 0);
  }

  lemma Pow2Values()
    ensures Pow2(8) == 256 && Pow2(16) == 65536 && Pow2(32) == TwoTo32
  {
    assert Pow2(8) == 256;
    assert Pow2(16) == 256 * 256 by {
      assert Pow2(16) == Pow2(8) * Pow2(8) by { Pow2Add(8, 8); }
    }
    Pow2Add(16, 16);
  }

  lemma {:induction false} Pow2Add(i: nat, j: nat)
    ensures Pow2(i + j) == Pow2(i) * Pow2(j)
    decreases i
  {
    if i > 0 {
      Pow2Add(i - 1, j);
    }
  }

  /** For channels in 0..255, packing is `r * 65536 + g * 256 + b`. */
  lemma PackChannels(r: int, g: int, b: int)
    requires 0 <= r < 256 && 0 <= g < 256 && 0 <= b < 256
    ensures Pack(r, g, b) == r * 65536 + g * 256 + b
  {
    Pow2Values();
    var hi, mid := r * 65536, g * 256;
    Uint32Small(r);
    Uint32Small(g);
    Uint32Small(b);
    ShiftSmall(r, 16);
    ShiftSmall(g, 8);
    DivModUnique(hi, 65536, r, 0);
    OrAligned(hi, mid, 16);
    DivModUnique(hi + mid, 256, r * 256 + g, 0);
    OrAligned(hi + mid, b, 8);
  }

  /** A non-negative integer below `2^32` is its own bit pattern. */
  lemma Uint32Small(n: int)
    requires 0 <= n < TwoTo32
    ensures Uint32(n) == n
  {
    DivModUnique(n, TwoTo32, 0, n);
  }

  /** A shift that loses no bits multiplies by the power of two. */
  lemma ShiftSmall(u: nat, k: nat)
    requires u * Pow2(k) < TwoTo32
    ensures ShiftLeft(u, k) == u * Pow2(k)
  {
    DivModUnique(u * Pow2(k), TwoTo32, 0, u * Pow2(k));
  }

  /** The 32-bit or of a multiple of `2^k` and a number below `2^k` is their sum. */
  lemma OrAligned(a: nat, b: nat, k: nat)
    requires k <= 32 && a < TwoTo32 && a % Pow2(k) == 0 && b < Pow2(k)
    ensures BitOr(a, b, 32) == a + b
  {
    Pow2Values();
    BitOrDisjoint(a, b, 32, k);
  }

  // ---------------------------------------------------------------------
  // Printing

  /** `n.toString(16)` for an integer: a minus sign before the digits of a negative one. */
  function HexString(n: int): string
  {
    if n < 0 then "-" + Hex(-n) else Hex(n)
  }

  /** `'#'` and the hex string, zero-padded on the left to six characters. */
  function HexColor(num: int): string
  {
    "#" + LeftPad(HexString(num), 6, '0')
  }

  /** `ColorUtil.toHexColor(num)` for an integer. */
  method ToHexColor(num: int) returns (s: string)
    ensures s == HexColor(num)
    ensures |s| >= 7 && s[0] == '#'
    ensures num >= 0 ==> AllDigits(s[1..], 16) && ParseDigits(s[1..], 16) == num
  {
    var t := HexString(num);
    t := PadZeros(t, 6);
    s := "#" + t;
    assert s[1..] == t;
    if num >= 0 {
      PaddedHex(num);
    }
  }

  /** `ColorUtil.rgbToHex(r, g, b)` for integers. */
  method RgbToHex(r: int, g: int, b: int) returns (s: string)
    ensures s == HexColor(Pack(r, g, b))
    ensures 0 <= r < 256 && 0 <= g < 256 && 0 <= b < 256 ==>
              |s| == 7 && ColorValue(s, Num(1.0)) == Arr([Num(r as real), Num(g as real), Num(b as real)])
  {
    var t := HexString(Pack(r, g, b));
    t := PadZeros(t, 6);
    s := "#" + t;
    if 0 <= r < 256 && 0 <= g < 256 && 0 <= b < 256 {
      RgbHexRoundTrip(r, g, b);
    }
  }

  /** A non-negative number pads to hex digits that read back as the number. */
  lemma PaddedHex(n: nat)
    ensures AllDigits(LeftPad(Hex(n), 6, '0'), 16)
    ensures ParseDigits(LeftPad(Hex(n), 6, '0'), 16) == n
    ensures n < 0x100_0000 ==> |LeftPad(Hex(n), 6, '0')| == 6
  {
    ParseDigitsLeftPad(Hex(n), 6, 16);
    ParseDigitsOfDigits(n, 16);
    if n < 0x100_0000 {
      assert Pow16(6) == 0x100_0000;
      HexLength(n, 6);
    }
  }

  // ---------------------------------------------------------------------
  // Parsing

  /** A character of the class `[0-9a-fA-f]`: a digit, or any code point from `A` to `f`. */
  predicate InClass(c: char)
  {
    '0' <= c <= '9' || 'A' <= c <= 'f'
  }

  /** `/^#([0-9a-fA-f]{3}|[0-9a-fA-f]{6})$/.test(s)`. */
  predicate IsColorText(s: string)
  {
    (|s| == 4 || |s| == 7) && s[0] == '#' && forall k :: 1 <= k < |s| ==> InClass(s[k])
  }

  /** `#rgb` widened to `#rrggbb`. */
  function Widen(s: string): string
    requires |s| == 4
  {
    "#" + [s[1], s[1], s[2], s[2], s[3], s[3]]
  }

  /** `parseInt('0x' + t)` for two characters: the leading hex digits, `NaN` (`None`) when there is none. */
  function ParseChannel(t: string): Option<nat>
    requires |t| == 2
  {
    if !IsDigitOf(t[0], 16) then None
    else if !IsDigitOf(t[1], 16) then Some(DigitValue(t[0]))
    else Some(ParseDigits(t, 16))
  }

  /** The three channels of `#rrggbb`. */
  function Channels(full: string): seq<Option<nat>>
    requires |full| == 7
  {
    [ParseChannel(full[1..3]), ParseChannel(full[3..5]), ParseChannel(full[5..7])]
  }

  /** `String(x)` of a channel. */
  function ChannelText(c: Option<nat>): string
  {
    if c.Some? then Decimal(c.value) else "NaN"
  }

  /** A channel as a JavaScript number. */
  function ChannelValue(c: Option<nat>): JsValue
  {
    if c.Some? then Num(c.value as real) else NaN
  }

  /** What `colorToRgb` returns for an accepted, lower-cased colour text. */
  function Convert(s: string, returnType: JsValue): JsValue
    requires |s| == 4 || |s| == 7
  {
    var full := if |s| == 4 then Widen(s) else s;
    var cs := Channels(full);
    if LooseEq(returnType, Num(0.0)) then
      Str("RGB(" + Join([ChannelText(cs[0]), ChannelText(cs[1]), ChannelText(cs[2])], ',') + ")")
    else if LooseEq(returnType, Num(1.0)) then
      Arr([ChannelValue(cs[0]), ChannelValue(cs[1]), ChannelValue(cs[2])])
    else Undefined
  }

  /**
   * `colorToRgb(sColor, returnType)`: the lower-cased text when it is
   * empty or not a colour, otherwise the channels as `RGB(r,g,b)` for
   * `returnType == 0`, as an array for `returnType == 1`, and `undefined`
   * for any other `returnType`.
   */
  function ColorValue(sColor: string, returnType: JsValue): JsValue
  {
    var s := ToLower(sColor);
    if |s| > 0 && IsColorText(s) then Convert(s, returnType) else Str(s)
  }

  /** `colorToRgb`, with its widening and channel loops. */
  method ColorToRgb(sColor: string, returnType: JsValue) returns (r: JsValue)
    ensures r == ColorValue(sColor, returnType)
  {
    var s := ToLower(sColor);
    if !(|s| > 0 && IsColorText(s)) {
      return Str(s);
    }
    var full := s;
    if |s| == 4 {
      full := WidenLoop(s);
    }
    var change := ChannelLoop(full);
    if LooseEq(returnType, Num(0.0)) {
      r := Str("RGB(" + Join([ChannelText(change[0]), ChannelText(change[1]), ChannelText(change[2])], ',') + ")");
    } else if LooseEq(returnType, Num(1.0)) {
      r := Arr([ChannelValue(change[0]), ChannelValue(change[1]), ChannelValue(change[2])]);
    } else {
      r := Undefined;
    }
  }

  /** The loop that doubles each character of `#rgb`. */
  method WidenLoop(s: string) returns (wide: string)
    requires |s| == 4
    ensures wide == Widen(s)
  {
    wide := "#";
    var i := 1;
    while i < 4
      invariant 1 <= i <= 4
      invariant wide == "#" + seq(2 * (i - 1), k requires 0 <= k < 2 * (i - 1) => s[k / 2 + 1])
    {
      wide := wide + s[i..i + 1] + s[i..i + 1];
      i := i + 1;
    }
  }

  /** The loop that reads the three channel pairs of `#rrggbb`. */
  method ChannelLoop(full: string) returns (change: seq<Option<nat>>)
    requires |full| == 7
    ensures change == Channels(full)
  {
    change := [];
    var i := 1;
    while i < 7
      invariant 1 <= i <= 7 && i % 2 == 1
      invariant |change| == (i - 1) / 2
      invariant forall k :: 0 <= k < |change| ==> change[k] == ParseChannel(full[2 * k + 1..2 * k + 3])
    {
      change := change + [ParseChannel(full[i..i + 2])];
      i := i + 2;
    }
  }

  /** Two hex digits read as one channel in 0..255. */
  lemma PairValue(t: string)
    requires |t| == 2 && AllDigits(t, 16)
    ensures ParseChannel(t) == Some(ParseDigits(t, 16))
    ensures ParseDigits(t, 16) == DigitValue(t[0]) * 16 + DigitValue(t[1]) < 256
  {
    assert t[..1][..0] == [];
    assert ParseDigits(t[..1], 16) == DigitValue(t[0]);
    assert t[..|t| - 1] == t[..1];
    assert IsDigitOf(t[0], 16) && IsDigitOf(t[1], 16);
    assert DigitValue(t[0]) * 16 <= 15 * 16;
  }

  /** Six hex digits split into pairs: the number is the pairs' values in base 256. */
  lemma SixDigits(d: string)
    requires |d| == 6 && AllDigits(d, 16)
    ensures var c := Channels("#" + d);
            && c[0].Some? && c[1].Some? && c[2].Some?
            && c[0].value < 256 && c[1].value < 256 && c[2].value < 256
            && ParseDigits(d, 16) == (c[0].value * 256 + c[1].value) * 256 + c[2].value
  {
    var full := "#" + d;
    assert full[1..3] == d[..2] && full[3..5] == d[2..4] && full[5..7] == d[4..];
    assert d[..4] == d[..2] + d[2..4] && d == d[..4] + d[4..];
    PairValue(d[..2]);
    PairValue(d[2..4]);
    PairValue(d[4..]);
    assert Pow16(2) == 256;
    ParseHexAppend(d[..4], d[4..]);
    ParseHexAppend(d[..2], d[2..4]);
  }

  /** Hex digits and `#` are already lower case. */
  lemma LowerHexColor(d: string)
    requires AllDigits(d, 16)
    ensures ToLower("#" + d) == "#" + d
  {
    var s := "#" + d;
    forall k | 1 <= k < |s|
      ensures LowerChar(s[k]) == s[k]
    {
      assert IsDigitOf(d[k - 1], 16);
    }
  }

  /** `#` and six hex digits is a colour text, read as the array of its three channel pairs. */
  lemma SixDigitColor(d: string)
    requires |d| == 6 && AllDigits(d, 16)
    ensures var c := Channels("#" + d);
            ColorValue("#" + d, Num(1.0)) == Arr([ChannelValue(c[0]), ChannelValue(c[1]), ChannelValue(c[2])])
  {
    var s := "#" + d;
    LowerHexColor(d);
    forall k | 1 <= k < |s|
      ensures InClass(s[k])
    {
      assert IsDigitOf(d[k - 1], 16);
    }
    assert IsColorText(s);
  }

  /** `colorToRgb(rgbToHex(r, g, b), 1)` gives back `[r, g, b]` for channels in 0..255. */
  lemma RgbHexRoundTrip(r: int, g: int, b: int)
    requires 0 <= r < 256 && 0 <= g < 256 && 0 <= b < 256
    ensures |HexColor(Pack(r, g, b))| == 7
    ensures ColorValue(HexColor(Pack(r, g, b)), Num(1.0)) == Arr([Num(r as real), Num(g as real), Num(b as real)])
  {
    var n := r * 65536 + g * 256 + b;
    PackChannels(r, g, b);
    PaddedHex(n);
    var d := LeftPad(Hex(n), 6, '0');
    assert HexColor(Pack(r, g, b)) == "#" + d;
    SixDigitColor(d);
    SixDigits(d);
    var c := Channels("#" + d);
    ChannelsUnique(r, g, b, c[0].value, c[1].value, c[2].value);
  }

  /** Three channels below 256 are fixed by their base-256 value. */
  lemma ChannelsUnique(r: int, g: int, b: int, x: nat, y: nat, z: nat)
    requires 0 <= r < 256 && 0 <= g < 256 && 0 <= b < 256 && x < 256 && y < 256 && z < 256
    requires (x * 256 + y) * 256 + z == r * 65536 + g * 256 + b
    ensures x == r && y == g && z == b
  {
    var n := r * 65536 + g * 256 + b;
    assert n == (r * 256 + g) * 256 + b;
    DivModUnique(n, 256, x * 256 + y, z);
    DivModUnique(n, 256, r * 256 + g, b);
    DivModUnique(r * 256 + g, 256, x, y);
    DivModUnique(r * 256 + g, 256, r, g);
  }

  /** The short form means the long form: `#abc` converts as `#aabbcc` does. */
  lemma ShortFormWidens(x: char, y: char, z: char, returnType: JsValue)
    requires InClass(LowerChar(x)) && InClass(LowerChar(y)) && InClass(LowerChar(z))
    ensures ColorValue("#" + [x, y, z], returnType) == ColorValue("#" + [x, x, y, y, z, z], returnType)
  {
    var short, long := ToLower("#" + [x, y, z]), ToLower("#" + [x, x, y, y, z, z]);
    assert Widen(short) == long;
    assert IsColorText(short);
    assert IsColorText(long);
  }

  // ---------------------------------------------------------------------
  // The class `[0-9a-fA-f]`

  /** After lower-casing, the class the pattern evidently means: `[0-9a-f]`. */
  predicate IsHexColorText(s: string)
  {
    (|s| == 4 || |s| == 7) && s[0] == '#' && forall k :: 1 <= k < |s| ==> IsDigitOf(s[k], 16)
  }

  /** `colorToRgb` accepting only hex digits. */
  function ColorValueCorrected(sColor: string, returnType: JsValue): JsValue
  {
    var s := ToLower(sColor);
    if |s| > 0 && IsHexColorText(s) then Convert(s, returnType) else Str(s)
  }

  /** The range `A-f` lets `[`, `\`, `]`, `^`, `_` and the backquote through: `#[[[` becomes three `NaN`s. */
  lemma PunctuationAccepted()
    ensures ColorValue("#[[[", Num(1.0)) == Arr([NaN, NaN, NaN])
    ensures ColorValueCorrected("#[[[", Num(1.0)) == Str("#[[[")
  {
    var s := "#[[[";
    assert ToLower(s) == s;
    assert IsColorText(s);
    assert !IsDigitOf(s[1], 16);
  }

  /** Accepting hex digits only, every channel of an accepted text is a number. */
  lemma CorrectedChannelsAreNumbers(sColor: string)
    ensures var v := ColorValueCorrected(sColor, Num(1.0));
            v.Str? || (v.Arr? && |v.items| == 3 && forall k :: 0 <= k < 3 ==> v.items[k].Num?)
  {
    var s := ToLower(sColor);
    if |s| > 0 && IsHexColorText(s) {
      var full := if |s| == 4 then Widen(s) else s;
      assert AllDigits(full[1..3], 16) && AllDigits(full[3..5], 16) && AllDigits(full[5..7], 16) by {
        if |s| == 4 {
          assert IsDigitOf(s[1], 16) && IsDigitOf(s[2], 16) && IsDigitOf(s[3], 16);
        }
      }
      PairValue(full[1..3]);
      PairValue(full[3..5]);
      PairValue(full[5..7]);
    }
  }

  /** On texts made of hex digits the two agree; they differ only on the punctuation the range admits. */
  lemma CorrectedAgreesOnHex(sColor: string, returnType: JsValue)
    requires IsHexColorText(ToLower(sColor))
    ensures ColorValueCorrected(sColor, returnType) == ColorValue(sColor, returnType)
  {
    var s := ToLower(sColor);
    forall k | 1 <= k < |s|
      ensures InClass(s[k])
    {
      assert IsDigitOf(s[k], 16);
    }
  }
}
