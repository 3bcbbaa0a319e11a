/**
 * The slice of JavaScript values the utilities inspect: `typeof`,
 * truthiness, `a || b`, and property reads on objects, arrays and strings.
 * Object keys are unordered here, as `for ... in` order is never relied on.
 */
module JsValues {
  import opened Text
  import opened Wrappers

  datatype JsValue =
    | Undefined
    | Null
    | Bool(b: bool)
    | Num(n: real)
    | NaN
    | Str(s: string)
    | Arr(items: seq<JsValue>)
    | Obj(props: map<string, JsValue>)
    | Func(id: nat)   // a function value, known only by identity

  /** The `typeof` operator. */
  function TypeOf(v: JsValue): (t: string)
    ensures t in {"undefined", "object", "boolean", "number", "string", "function"}
    ensures t == "object" <==> v.Null? || v.Arr? || v.Obj?
    ensures t == "number" <==> v.Num? || v.NaN?
    ensures t == "string" <==> v.Str?
    ensures t == "function" <==> v.Func?
  {
    match v
    case Undefined => "undefined"
    case Null => "object"
    case Bool(_) => "boolean"
    case Num(_) => "number"
    case NaN => "number"
    case Str(_) => "string"
    case Arr(_) => "object"
    case Obj(_) => "object"
    case Func(_) => "function"
  }

  /** JavaScript truthiness: `false`, `0`, `NaN`, `""`, `null` and `undefined` are falsy. */
  predicate Truthy(v: JsValue)
  {
    match v
    case Undefined => false
    case Null => false
    case Bool(b) => b
    case Num(n) => n != 0.0
    case NaN => false
    case Str(s) => |s| > 0
    case _ => true
  }

  /** `a || b`. */
  function Or(a: JsValue, b: JsValue): (r: JsValue)
    ensures Truthy(a) ==> r == a
    ensures !Truthy(a) ==> r == b
  {
    if Truthy(a) then a else b
  }

  /** The array index a property key denotes, if it is a canonical decimal numeral. */
  function IndexKey(key: string): (k: Option<nat>)
    ensures k.Some? ==> Decimal(k.value) == key
  {
    if |key| > 0 && AllDigits(key, 10) && (|key| == 1 || key[0] != '0') then
      var n := ParseDigits(key, 10);
      CanonicalDigits(key);
      Some(n)
    else None
  }

  /** `v[key]` on a value that is neither `null` nor `undefined`. */
  function Get(v: JsValue, key: string): JsValue
    requires !v.Undefined? && !v.Null?
  {
    match v
    case Obj(props) => if key in props then props[key] else Undefined
    case Arr(items) =>
      var k := IndexKey(key);
      if k.Some? && k.value < |items| then items[k.value] else Undefined
    case Str(s) =>
      var k := IndexKey(key);
      if k.Some? && k.value < |s| then Str([s[k.value]]) else Undefined
    case _ => Undefined
  }

  /** `arr[i]`, read through the string key JavaScript uses. */
  lemma GetArrayIndex(items: seq<JsValue>, i: nat)
    requires i < |items|
    ensures Get(Arr(items), Decimal(i)) == items[i]
  {
    ParseDigitsOfDigits(i, 10);
    DigitsCanonical(i, 10);
  }

  lemma GetArrayNamedKey(items: seq<JsValue>, key: string)
    requires |key| > 0 && !('0' <= key[0] <= '9')
    ensures Get(Arr(items), key) == Undefined
  {
  }

  /** A canonical decimal numeral is the digit string of its value. */
  lemma {:induction false} CanonicalDigits(s: string)
    requires |s| > 0 && AllDigits(s, 10) && (|s| == 1 || s[0] != '0')
    ensures Decimal(ParseDigits(s, 10)) == s
    decreases |s|
  {
    if |s| > 1 {
      var init := s[..|s| - 1];
      CanonicalDigits(init);
      var q := ParseDigits(init, 10);
      assert init[0] == s[0];
      assert q > 0;
      var d := DigitValue(s[|s| - 1]);
      var n := q * 10 + d;
      assert n / 10 == q && n % 10 == d;
      assert DigitChar(d) == s[|s| - 1];
      assert s == init + [s[|s| - 1]];
    } else {
      assert s == [DigitChar(DigitValue(s[0]))];
    }
  }

  // ---------------------------------------------------------------------
  // Numbers read from strings and loose equality

  /** `10^k`. */
  function Pow10(k: nat): (r: nat)
    ensures r >= 1
  {
    if k == 0 then 1 else 10 * Pow10(k - 1)
  }

  /** An unsigned decimal: digits, or digits around one `.` with at least one digit in all. */
  function Unsigned(s: string): Option<real>
  {
    var parts := Split(s, '.');
    if |parts| == 1 then
      if |s| > 0 && AllDigits(s, 10) then Some(ParseDigits(s, 10) as real) else None
    else if |parts| == 2 && |parts[0]| + |parts[1]| > 0 && AllDigits(parts[0], 10) && AllDigits(parts[1], 10) then
      Some(ParseDigits(parts[0], 10) as real + ParseDigits(parts[1], 10) as real / Pow10(|parts[1]|) as real)
    else None
  }

  /** The white space and line terminators `Number(string)` strips from both ends of its argument. */
  predicate IsSpace(c: char)
  {
    var n := c as int;
    n == 0x09 || n == 0x0A || n == 0x0B || n == 0x0C || n == 0x0D || n == 0x20 || n == 0xA0 ||
    n == 0x1680 || 0x2000 <= n <= 0x200A || n == 0x2028 || n == 0x2029 || n == 0x202F ||
    n == 0x205F || n == 0x3000 || n == 0xFEFF
  }

  function TrimStart(s: string): (t: string)
    ensures |t| > 0 ==> !IsSpace(t[0])
  {
    if |s| > 0 && IsSpace(s[0]) then TrimStart(s[1..]) else s
  }

  function TrimEnd(s: string): (t: string)
    ensures |t| > 0 ==> !IsSpace(t[|t| - 1])
  {
    if |s| > 0 && IsSpace(s[|s| - 1]) then TrimEnd(s[..|s| - 1]) else s
  }

  /** `String.prototype.trim`: white space removed at both ends. */
  function Trim(s: string): (t: string)
    ensures |t| > 0 ==> !IsSpace(t[0]) && !IsSpace(t[|t| - 1])
  {
    var t := TrimEnd(TrimStart(s));
    TrimEndKeepsStart(TrimStart(s));
    t
  }

  /** Trimming the end keeps a non-blank first character. */
  lemma {:induction false} TrimEndKeepsStart(s: string)
    requires |s| > 0 ==> !IsSpace(s[0])
    ensures |TrimEnd(s)| > 0 ==> TrimEnd(s)[0] == s[0]
    decreases |s|
  {
    if |s| > 0 && IsSpace(s[|s| - 1]) {
      TrimEndKeepsStart(s[..|s| - 1]);
    }
  }

  /** The signed exponent after `e`: digits with an optional `+` or `-`. */
  function ExponentValue(s: string): Option<int>
  {
    if |s| > 0 && (s[0] == '+' || s[0] == '-') then
      if |s| > 1 && AllDigits(s[1..], 10) then
        Some(if s[0] == '-' then 0 - ParseDigits(s[1..], 10) as int else ParseDigits(s[1..], 10) as int)
      else None
    else if |s| > 0 && AllDigits(s, 10) then Some(ParseDigits(s, 10) as int)
    else None
  }

  /** `m × 10^e`. */
  function Scale10(m: real, e: int): real
  {
    if e >= 0 then m * Pow10(e) as real else m / Pow10(-e) as real
  }

  /** An unsigned decimal literal: a mantissa, then optionally `e` or `E` and a signed exponent. */
  function DecimalLiteral(s: string): Option<real>
  {
    var parts := Split(ToLower(s), 'e');
    if |parts| == 1 then Unsigned(s)
    else if |parts| == 2 then
      var m, e := Unsigned(parts[0]), ExponentValue(parts[1]);
      if m.Some? && e.Some? then Some(Scale10(m.value, e.value)) else None
    else None
  }

  /** The base a `0x`, `0o` or `0b` prefix selects (either letter case); 0 for any other character. */
  function RadixOf(c: char): nat
  {
    if c == 'x' || c == 'X' then 16
    else if c == 'o' || c == 'O' then 8
    else if c == 'b' || c == 'B' then 2
    else 0
  }

  /** The digits after a radix prefix, in either letter case. */
  function RadixLiteral(s: string): Option<real>
    requires |s| > 2 && RadixOf(s[1]) > 0
  {
    var digits := ToLower(s[2..]);
    if AllDigits(digits, RadixOf(s[1])) then Some(ParseDigits(digits, RadixOf(s[1])) as real) else None
  }

  /**
   * `Number(s)` (the unary `+`): white space is stripped; then the empty
   * string is 0, a `0x`/`0o`/`0b` literal is read in its base, and
   * otherwise an optional `+` or `-` precedes a decimal literal. Every
   * other string is `NaN`, written `None`.
   */
  function ToNumber(s: string): Option<real>
  {
    var t := Trim(s);
    if t == "" then Some(0.0)
    else if |t| > 2 && t[0] == '0' && RadixOf(t[1]) > 0 then RadixLiteral(t)
    else if t[0] == '-' then
      var u := DecimalLiteral(t[1..]);
      if u.Some? then Some(-u.value) else None
    else if t[0] == '+' then DecimalLiteral(t[1..])
    else DecimalLiteral(t)
  }

  /** Digits, `.` and `-` only: nothing to trim, no exponent and no radix prefix. */
  predicate PlainChars(s: string)
  {
    forall k :: 0 <= k < |s| ==> s[k] == '-' || s[k] == '.' || '0' <= s[k] <= '9'
  }

  /** A decimal literal without an exponent is its mantissa. */
  lemma DecimalLiteralPlain(s: string)
    requires PlainChars(s)
    ensures DecimalLiteral(s) == Unsigned(s)
  {
    var l := ToLower(s);
    assert forall k :: 0 <= k < |l| ==> l[k] == s[k];
    assert 'e' !in l;
    SplitNoSeparator(l, 'e');
  }

  /** On digits, `.` and `-`, `Number` is an optional `-` before an unsigned decimal. */
  lemma ToNumberPlain(s: string)
    requires PlainChars(s)
    ensures ToNumber(s) ==
              if s == "" then Some(0.0)
              else if s[0] == '-' then (var u := Unsigned(s[1..]); if u.Some? then Some(-u.value) else None)
              else Unsigned(s)
  {
    if |s| > 0 {
      assert !IsSpace(s[0]) && !IsSpace(s[|s| - 1]);
      assert TrimStart(s) == s;
      assert TrimEnd(s) == s;
      assert Trim(s) == s;
      if |s| > 2 {
        assert RadixOf(s[1]) == 0;
      }
      DecimalLiteralPlain(s[1..]);
      DecimalLiteralPlain(s);
    }
  }

  /**
   * The forms `Number` accepts beside plain decimals all read as 1:
   * surrounding white space, a `+` sign, a fraction, an exponent and a
   * hexadecimal prefix; an exponent without digits is `NaN`.
   */
  lemma ToNumberForms()
    ensures ToNumber(" 1") == Some(1.0)
    ensures ToNumber("+1") == Some(1.0)
    ensures ToNumber("1.0") == Some(1.0)
    ensures ToNumber("1e0") == Some(1.0)
    ensures ToNumber("0x1") == Some(1.0)
    ensures ToNumber("1e") == None
  {
    OneReads();
    ToNumberSpaced();
    ToNumberSigned();
    ToNumberFraction();
    ToNumberExponent();
    ToNumberEmptyExponent();
    ToNumberHex();
  }

  lemma OneReads()
    ensures DecimalLiteral("1") == Some(1.0)
    ensures Unsigned("1") == Some(1.0)
  {
    SplitNoSeparator("1", '.');
    assert ParseDigits("1", 10) == 1 by {
      assert "1"[..0] == "";
    }
    assert AllDigits("1", 10);
    DecimalLiteralPlain("1");
  }

  lemma ToNumberSpaced()
    requires DecimalLiteral("1") == Some(1.0)
    ensures ToNumber(" 1") == Some(1.0)
  {
    assert TrimStart(" 1") == "1" by {
      assert " 1"[1..] == "1";
    }
    assert Trim(" 1") == "1";
  }

  lemma ToNumberSigned()
    requires DecimalLiteral("1") == Some(1.0)
    ensures ToNumber("+1") == Some(1.0)
  {
    assert Trim("+1") == "+1";
    assert "+1"[1..] == "1";
  }

  lemma ToNumberFraction()
    ensures ToNumber("1.0") == Some(1.0)
  {
    assert Trim("1.0") == "1.0";
    assert PlainChars("1.0");
    DecimalLiteralPlain("1.0");
    assert Split("1.0", '.') == ["1", "0"] by {
      SplitAppend("1", '.', "0");
      SplitNoSeparator("0", '.');
      assert "1" + ['.'] + "0" == "1.0";
    }
    assert ParseDigits("1", 10) == 1 by {
      assert "1"[..0] == "";
    }
    assert ParseDigits("0", 10) == 0 by {
      assert "0"[..0] == "";
    }
    assert AllDigits("1", 10) && AllDigits("0", 10);
  }

  lemma ToNumberExponent()
    requires Unsigned("1") == Some(1.0)
    ensures ToNumber("1e0") == Some(1.0)
  {
    assert Trim("1e0") == "1e0";
    assert ToLower("1e0") == "1e0";
    assert Split("1e0", 'e') == ["1", "0"] by {
      SplitAppend("1", 'e', "0");
      SplitNoSeparator("0", 'e');
      assert "1" + ['e'] + "0" == "1e0";
    }
    assert ParseDigits("0", 10) == 0 by {
      assert "0"[..0] == "";
    }
    assert AllDigits("0", 10);
    assert ExponentValue("0") == Some(0);
  }

  lemma ToNumberEmptyExponent()
    ensures ToNumber("1e") == None
  {
    assert Trim("1e") == "1e";
    assert ToLower("1e") == "1e";
    assert Split("1e", 'e') == ["1", ""] by {
      SplitAppend("1", 'e', "");
      assert "1" + ['e'] + "" == "1e";
    }
  }


  lemma ToNumberHex()
    ensures ToNumber("0x1") == Some(1.0)
  {
    assert Trim("0x1") == "0x1";
    assert ToLower("0x1"[2..]) == "1";
    assert ParseDigits("1", 16) == 1 by {
      assert "1"[..0] == "";
    }
    assert AllDigits("1", 16);
  }

  /** A decimal numeral holds digits only. */
  lemma DecimalIsPlain(n: nat)
    ensures PlainChars(Decimal(n)) && PlainChars("-" + Decimal(n))
    ensures '.' !in Decimal(n) && Decimal(n)[0] != '-'
  {
    var s := Decimal(n);
    forall k | 0 <= k < |s| ensures '0' <= s[k] <= '9' {
      assert IsDigitOf(s[k], 10);
    }
  }

  lemma UnsignedDecimal(n: nat)
    ensures Unsigned(Decimal(n)) == Some(n as real)
  {
    DecimalIsPlain(n);
    SplitNoSeparator(Decimal(n), '.');
    ParseDigitsOfDigits(n, 10);
  }

  /** A number's decimal string reads back as that number, with or without a minus sign. */
  lemma ToNumberDecimal(n: nat)
    ensures ToNumber(Decimal(n)) == Some(n as real)
    ensures ToNumber("-" + Decimal(n)) == Some(-(n as real))
  {
    ToNumberUnsignedDecimal(n);
    ToNumberNegatedDecimal(n);
  }

  lemma ToNumberUnsignedDecimal(n: nat)
    ensures ToNumber(Decimal(n)) == Some(n as real)
  {
    DecimalIsPlain(n);
    UnsignedDecimal(n);
    ToNumberPlain(Decimal(n));
  }

  lemma ToNumberNegatedDecimal(n: nat)
    ensures ToNumber("-" + Decimal(n)) == Some(-(n as real))
  {
    var s := Decimal(n);
    DecimalIsPlain(n);
    UnsignedDecimal(n);
    ToNumberPlain("-" + s);
    assert ("-" + s)[1..] == s;
  }


  /** A number, or `NaN` for `None`. */
  function NumberValue(x: Option<real>): JsValue
  {
    if x.Some? then Num(x.value) else NaN
  }

  predicate Nullish(v: JsValue)
  {
    v.Undefined? || v.Null?
  }

  /** A boolean compares as the number 1 or 0. */
  function BoolAsNumber(v: JsValue): JsValue
  {
    if v.Bool? then Num(if v.b then 1.0 else 0.0) else v
  }

  /**
   * `a == b`: `null` and `undefined` equal each other and nothing else,
   * `NaN` equals nothing, booleans compare as numbers, and a string meets a
   * number through `Number(string)`. Objects, arrays and functions compare
   * by identity, which the value `a == b` stands for here; against a
   * primitive they are unequal here, without JavaScript's conversion to a
   * primitive first.
   */
  predicate LooseEq(a: JsValue, b: JsValue)
  {
    if Nullish(a) || Nullish(b) then Nullish(a) && Nullish(b)
    else if a.NaN? || b.NaN? then false
    else
      var x, y := BoolAsNumber(a), BoolAsNumber(b);
      if x.Num? && y.Str? then ToNumber(y.s) == Some(x.n)
      else if x.Str? && y.Num? then ToNumber(x.s) == Some(y.n)
      else x == y
  }

  lemma LooseEqSymmetric(a: JsValue, b: JsValue)
    ensures LooseEq(a, b) <==> LooseEq(b, a)
  {
  }

  /** Against `undefined`, the layers' missing value until data sets one, only `null` and `undefined` match. */
  lemma UndefinedMatchesOnlyNullish(v: JsValue)
    ensures LooseEq(v, Undefined) <==> v.Undefined? || v.Null?
  {
  }

  /** A number read from a string never matches `undefined`. */
  lemma NumberNeverUndefined(x: Option<real>)
    ensures !LooseEq(NumberValue(x), Undefined)
  {
  }

  /** A missing value such as -9999 matches its decimal string as well as the number. */
  lemma DecimalMatchesNumber(n: nat)
    ensures LooseEq(Str(Decimal(n)), Num(n as real))
    ensures LooseEq(Str("-" + Decimal(n)), Num(-(n as real)))
  {
    ToNumberDecimal(n);
    StringMatchesItsNumber(Decimal(n), n as real);
    StringMatchesItsNumber("-" + Decimal(n), -(n as real));
  }

  /** A string loosely equals the number `Number` reads from it. */
  lemma StringMatchesItsNumber(s: string, x: real)
    requires ToNumber(s) == Some(x)
    ensures LooseEq(Str(s), Num(x))
  {
    assert BoolAsNumber(Str(s)) == Str(s) && BoolAsNumber(Num(x)) == Num(x);
  }
}
