/** The JavaScript value semantics the front desk relies on: truthiness of numbers,
    `String.prototype.trim`, `toLowerCase`, `includes`, the global `parseInt` (no radix),
    the string-to-number conversion used by `isNaN` and by `<` on a string, and `String(n)`
    for an integer. Numbers are exact: integers are unbounded and decimal values are reals. */
module Js {
  import opened Wrappers
  import opened Seqs

  /** Truthiness of a number that may be NaN (`None`): `0` and NaN are falsy. */
  predicate Truthy(n: Option<int>) {
    n.Some? && n.value != 0
  }

  /** The WhiteSpace and LineTerminator code points of ECMAScript: what `trim` removes
      and what the string-to-number conversions skip. */
  predicate IsWhiteSpace(c: char) {
    || c == '\t' || c == '\n' || c == '\U{B}' || c == '\U{C}' || c == '\r' || c == ' '
    || c == '\U{A0}' || c == '\U{1680}' || ('\U{2000}' <= c <= '\U{200A}')
    || c == '\U{2028}' || c == '\U{2029}' || c == '\U{202F}' || c == '\U{205F}'
    || c == '\U{3000}' || c == '\U{FEFF}'
  }

  /** `s` without its leading white space. */
  function TrimStart(s: string): string {
    if s != [] && IsWhiteSpace(s[0]) then TrimStart(s[1..]) else s
  }

  /** `s` without its trailing white space. */
  function TrimEnd(s: string): string {
    if s != [] && IsWhiteSpace(s[|s| - 1]) then TrimEnd(s[..|s| - 1]) else s
  }

  /** `TrimStart` drops a prefix of white space and stops at the first other character. */
  lemma {:induction false} TrimStartSpec(s: string)
    ensures var r := TrimStart(s);
            |r| <= |s| && r == s[|s| - |r|..]
            && (forall i :: 0 <= i < |s| - |r| ==> IsWhiteSpace(s[i]))
            && (r == [] || !IsWhiteSpace(r[0]))
  {
    if s != [] && IsWhiteSpace(s[0]) {
      TrimStartSpec(s[1..]);
    }
  }

  /** `TrimEnd` drops a suffix of white space and stops at the last other character. */
  lemma {:induction false} TrimEndSpec(s: string)
    ensures var r := TrimEnd(s);
            |r| <= |s| && r == s[..|r|]
            && (forall i :: |r| <= i < |s| ==> IsWhiteSpace(s[i]))
            && (r == [] || !IsWhiteSpace(r[|r| - 1]))
  {
    if s != [] && IsWhiteSpace(s[|s| - 1]) {
      TrimEndSpec(s[..|s| - 1]);
    }
  }

  /** `String.prototype.trim`. */
  function Trim(s: string): string {
    TrimEnd(TrimStart(s))
  }

  /** The string is empty or made only of white space. */
  predicate IsBlank(s: string) {
    forall i :: 0 <= i < |s| ==> IsWhiteSpace(s[i])
  }

  /** `s.trim()` is falsy (empty) exactly when `s` is blank. */
  lemma BlankIffTrimEmpty(s: string)
    ensures IsBlank(s) <==> Trim(s) == []
  {
    var t := TrimStart(s);
    TrimStartSpec(s);
    TrimEndSpec(t);
  }

  /** A string that starts and ends with a non-white-space character is its own trim. */
  lemma TrimUnchanged(s: string)
    requires s != [] && !IsWhiteSpace(s[0]) && !IsWhiteSpace(s[|s| - 1])
    ensures Trim(s) == s
  {
  }

  /** `toLowerCase` of one character; only the ASCII letters are folded. */
  function LowerChar(c: char): char {
    if 'A' <= c <= 'Z' then (c as int + 32) as char else c
  }

  /** `String.prototype.toLowerCase` on the ASCII letters. */
  function ToLower(s: string): string {
    seq(|s|, i requires 0 <= i < |s| => LowerChar(s[i]))
  }

  /** `String.prototype.includes`: `t` occurs in `s` at some position. */
  predicate Includes(s: string, t: string) {
    exists i | 0 <= i <= |s| - |t| :: OccursAt(s, t, i)
  }

  /** `t` occurs in `s` starting at index `i`. */
  predicate OccursAt(s: string, t: string, i: int) {
    0 <= i && i + |t| <= |s| && s[i..i + |t|] == t
  }

  // ---------------------------------------------------------------------------
  // Digits, `parseInt` and `String(n)`

  /** The value of `c` as a digit in radix 36, or 36 when it is no digit. */
  function DigitValue(c: char): (d: nat)
    ensures d <= 36
  {
    if '0' <= c <= '9' then c as int - '0' as int
    else if 'a' <= c <= 'z' then c as int - 'a' as int + 10
    else if 'A' <= c <= 'Z' then c as int - 'A' as int + 10
    else 36
  }

  predicate IsDigitOf(c: char, radix: nat) {
    DigitValue(c) < radix
  }

  predicate AllDigitsOf(s: string, radix: nat) {
    forall i :: 0 <= i < |s| ==> IsDigitOf(s[i], radix)
  }

  /** The number a string of radix digits denotes, most significant digit first. */
  function DigitsValue(s: string, radix: nat): nat
    requires AllDigitsOf(s, radix)
  {
    if s == [] then 0 else DigitsValue(s[..|s| - 1], radix) * radix + DigitValue(s[|s| - 1])
  }

  /** The longest prefix of `s` made of radix digits. */
  function DigitPrefix(s: string, radix: nat): (r: string)
    ensures |r| <= |s| && r == s[..|r|] && AllDigitsOf(r, radix)
    ensures |r| == |s| || !IsDigitOf(s[|r|], radix)
  {
    if s != [] && IsDigitOf(s[0], radix) then [s[0]] + DigitPrefix(s[1..], radix) else []
  }

  /** The global `parseInt` without a radix: leading white space is skipped, then an
      optional sign, then a `0x`/`0X` prefix selects radix 16; the longest run of digits
      that follows is the value, and NaN (`None`) if there is none. Trailing text is
      ignored. */
  function ParseInt(s: string): (r: Option<int>)
    ensures IsBlank(s) ==> r == None
  {
    TrimStartSpec(s);
    var t := TrimStart(s);
    if t != [] && t[0] == '-' then Signed(true, ParseUnsigned(t[1..]))
    else if t != [] && t[0] == '+' then Signed(false, ParseUnsigned(t[1..]))
    else Signed(false, ParseUnsigned(t))
  }

  /** The part of `parseInt` after the sign. */
  function ParseUnsigned(u: string): Option<nat> {
    var hex := |u| >= 2 && u[0] == '0' && (u[1] == 'x' || u[1] == 'X');
    var radix := if hex then 16 else 10;
    var digits := DigitPrefix(if hex then u[2..] else u, radix);
    if digits == [] then None else Some(DigitsValue(digits, radix))
  }

  function Signed(negative: bool, magnitude: Option<nat>): Option<int> {
    match magnitude
    case None => None
    case Some(v) =>
      var value: int := if negative then -(v as int) else v;
      Some(value)
  }

  function DigitChar(d: nat): char
    requires d < 10
  {
    ('0' as int + d) as char
  }

  /** The decimal numeral of `n`, without leading zeros. */
  function NatToString(n: nat): (r: string)
    ensures r != [] && AllDigitsOf(r, 10)
  {
    if n < 10 then [DigitChar(n)] else NatToString(n / 10) + [DigitChar(n % 10)]
  }

  /** `String(n)` for an integer `n`. */
  function IntToString(n: int): string {
    if n < 0 then "-" + NatToString(-n) else NatToString(n)
  }

  /** The numeral denotes the number. */
  lemma {:induction false} NatToStringValue(n: nat)
    ensures DigitsValue(NatToString(n), 10) == n
  {
    if n >= 10 {
      NatToStringValue(n / 10);
      var s := NatToString(n);
      assert s[..|s| - 1] == NatToString(n / 10);
    }
  }

  /** Only zero's numeral starts with `0`. */
  lemma {:induction false} NatToStringLeadingDigit(n: nat)
    ensures NatToString(n)[0] == '0' <==> n == 0
  {
    if n >= 10 {
      NatToStringLeadingDigit(n / 10);
    }
  }

  /** A string of digits is its own digit prefix. */
  lemma {:induction false} DigitPrefixAll(s: string, radix: nat)
    requires AllDigitsOf(s, radix)
    ensures DigitPrefix(s, radix) == s
  {
    if s != [] {
      DigitPrefixAll(s[1..], radix);
    }
  }

  /** `parseInt` reads a decimal numeral without leading zeros as its value. */
  lemma ParseUnsignedNumeral(ds: string)
    requires ds != [] && AllDigitsOf(ds, 10)
    requires ds[0] == '0' ==> |ds| == 1
    ensures ParseUnsigned(ds) == Some(DigitsValue(ds, 10))
  {
    DigitPrefixAll(ds, 10);
  }

  /** A digit is neither white space nor a sign. */
  lemma DigitIsPlain(c: char)
    requires IsDigitOf(c, 10)
    ensures !IsWhiteSpace(c) && c != '-' && c != '+' && c != '.' && !IsExponentMark(c)
    ensures '0' <= c <= '9'
  {
  }

  /** `parseInt` reads the numeral of `m` back as `m`. */
  lemma ParseUnsignedRoundTrip(m: nat)
    ensures ParseUnsigned(NatToString(m)) == Some(m)
  {
    NatToStringValue(m);
    NatToStringLeadingDigit(m);
    ParseUnsignedNumeral(NatToString(m));
  }

  /** `parseInt(String(n))` is `n`. */
  lemma ParseIntRoundTrip(n: int)
    ensures ParseInt(IntToString(n)) == Some(n)
  {
    var m: nat := if n < 0 then -n else n;
    var ds := NatToString(m);
    ParseUnsignedRoundTrip(m);
    DigitIsPlain(ds[0]);
    if n < 0 {
      var s := "-" + ds;
      assert s[0] == '-' && s[1..] == ds;
      assert TrimStart(s) == s;
    } else {
      assert TrimStart(ds) == ds;
    }
  }

  // ---------------------------------------------------------------------------
  // The conversion from string to number (`Number(s)`, `isNaN(s)`, `s < 1`)

  datatype Number = NaN | Finite(value: real) | PositiveInfinity | NegativeInfinity

  function Negate(n: Number): Number {
    match n
    case NaN => NaN
    case Finite(v) => Finite(-v)
    case PositiveInfinity => NegativeInfinity
    case NegativeInfinity => PositiveInfinity
  }

  predicate IsExponentMark(c: char) {
    c == 'e' || c == 'E'
  }

  predicate IsDecimalPoint(c: char) {
    c == '.'
  }

  /** The exponent after `e`: an optional sign and at least one decimal digit. */
  function Exponent(s: string): Option<int> {
    var negative := s != [] && s[0] == '-';
    var digits := if s != [] && (s[0] == '-' || s[0] == '+') then s[1..] else s;
    if digits == [] || !AllDigitsOf(digits, 10) then None
    else Signed(negative, Some(DigitsValue(digits, 10)))
  }

  /** `m` times ten to the power `e`, for an exponent of either sign. */
  function ScaleBy(m: real, e: int): real
    decreases if e >= 0 then e else -e
  {
    if e == 0 then m
    else if e > 0 then ScaleBy(m * 10.0, e - 1)
    else ScaleBy(m / 10.0, e + 1)
  }

  /** An unsigned decimal literal: `Infinity`, or digits with an optional decimal point
      and fraction (at least one digit in all), then an optional exponent. */
  function UnsignedDecimal(u: string): Number {
    if u == "Infinity" then PositiveInfinity
    else
      var mark := Find(u, IsExponentMark);
      var mantissa := if mark.Some? then u[..mark.value] else u;
      var exponent := if mark.Some? then Exponent(u[mark.value + 1..]) else Some(0);
      var point := Find(mantissa, IsDecimalPoint);
      var whole := if point.Some? then mantissa[..point.value] else mantissa;
      var fraction := if point.Some? then mantissa[point.value + 1..] else [];
      if exponent.None? || !AllDigitsOf(whole, 10) || !AllDigitsOf(fraction, 10)
         || (whole == [] && fraction == [])
      then NaN
      else
        var mantissaValue := DigitsValue(whole, 10) as real
                             + ScaleBy(DigitsValue(fraction, 10) as real, -|fraction|);
        Finite(ScaleBy(mantissaValue, exponent.value))
  }

  /** A binary, octal or hexadecimal integer literal after its prefix. */
  function NonDecimal(digits: string, radix: nat): Number {
    if digits != [] && AllDigitsOf(digits, radix) then Finite(DigitsValue(digits, radix) as real)
    else NaN
  }

  /** ECMAScript's StringToNumber: white space around the literal is ignored, an empty
      or blank string is 0, `0x`/`0o`/`0b` prefixes take unsigned integers, and anything
      that is not a whole literal is NaN. */
  function ToNumber(s: string): (n: Number)
    ensures IsBlank(s) ==> n == Finite(0.0)
  {
    BlankIffTrimEmpty(s);
    var t := Trim(s);
    if t == [] then Finite(0.0)
    else if |t| >= 2 && t[0] == '0' && (t[1] == 'x' || t[1] == 'X') then NonDecimal(t[2..], 16)
    else if |t| >= 2 && t[0] == '0' && (t[1] == 'o' || t[1] == 'O') then NonDecimal(t[2..], 8)
    else if |t| >= 2 && t[0] == '0' && (t[1] == 'b' || t[1] == 'B') then NonDecimal(t[2..], 2)
    else if t[0] == '-' then Negate(UnsignedDecimal(t[1..]))
    else if t[0] == '+' then UnsignedDecimal(t[1..])
    else UnsignedDecimal(t)
  }

  /** A numeral without point or exponent denotes its integer value. */
  lemma UnsignedDecimalOfDigits(ds: string)
    requires ds != [] && AllDigitsOf(ds, 10)
    ensures UnsignedDecimal(ds) == Finite(DigitsValue(ds, 10) as real)
  {
    assert ds != "Infinity" by { assert IsDigitOf(ds[0], 10); }
    assert Find(ds, IsExponentMark) == None by {
      forall j | 0 <= j < |ds| ensures !IsExponentMark(ds[j]) {
        assert IsDigitOf(ds[j], 10);
      }
    }
    assert Find(ds, IsDecimalPoint) == None by {
      forall j | 0 <= j < |ds| ensures !IsDecimalPoint(ds[j]) {
        assert IsDigitOf(ds[j], 10);
      }
    }
  }

  /** A literal that starts with a digit other than a lone `0` prefix is decimal. */
  lemma ToNumberOfDecimal(t: string)
    requires t != [] && Trim(t) == t && t[0] != '-' && t[0] != '+'
    requires |t| >= 2 ==> t[0] != '0' || !(t[1] in "xXoObB")
    ensures ToNumber(t) == UnsignedDecimal(t)
  {
  }

  /** `Number(String(n))` is `n`. */
  lemma ToNumberRoundTrip(n: int)
    ensures ToNumber(IntToString(n)) == Finite(n as real)
  {
    var m: nat := if n < 0 then -n else n;
    var ds := NatToString(m);
    NatToStringValue(m);
    NatToStringLeadingDigit(m);
    UnsignedDecimalOfDigits(ds);
    DigitIsPlain(ds[0]);
    DigitIsPlain(ds[|ds| - 1]);
    if n < 0 {
      var s := "-" + ds;
      assert s[0] == '-' && s[1..] == ds && s[|s| - 1] == ds[|ds| - 1];
      TrimUnchanged(s);
      assert s[1] == ds[0];
      assert ToNumber(s) == Negate(UnsignedDecimal(ds));
    } else {
      TrimUnchanged(ds);
      ToNumberOfDecimal(ds);
    }
  }
}
