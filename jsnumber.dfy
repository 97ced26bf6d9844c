/**
 * The two number conversions the payload builders rely on: writing an integer
 * as decimal text (template strings such as `${pmsRoomId}`) and JavaScript's
 * `parseInt` with no radix argument, applied to the value's `String(...)` form.
 */
module JsNumber {
  import opened Wrappers
  import opened Json

  /** What `parseInt` gives back: an integer or NaN. */
  datatype Number = NaN | Int(value: int)

  predicate IsDecimalDigit(c: char) {
    '0' <= c <= '9'
  }

  function DigitChar(d: nat): (c: char)
    requires d < 10
    ensures IsDecimalDigit(c) && DigitValue(c) == d
  {
    "0123456789"[d]
  }

  /** Decimal text of a natural number, without leading zeros. */
  function NatToString(n: nat): (s: string)
    ensures |s| >= 1
    ensures forall i :: 0 <= i < |s| ==> IsDecimalDigit(s[i])
    decreases n
  {
    if n < 10 then [DigitChar(n)] else NatToString(n / 10) + [DigitChar(n % 10)]
  }

  /** `String(n)` for an integer `n`. */
  function IntToString(n: int): string {
    if n < 0 then "-" + NatToString(-n) else NatToString(n)
  }

  /** The white space and line terminators `parseInt` skips before the number. */
  predicate IsWhiteSpace(c: char) {
    || c == '\t' || c == '\n' || c == '\U{B}' || c == '\U{C}' || c == '\r' || c == ' '
    || c == '\U{A0}' || c == '\U{1680}' || ('\U{2000}' <= c <= '\U{200A}')
    || c == '\U{2028}' || c == '\U{2029}' || c == '\U{202F}' || c == '\U{205F}'
    || c == '\U{3000}' || c == '\U{FEFF}'
  }

  function TrimStart(s: string): (t: string)
    ensures |t| <= |s| && t == s[|s| - |t|..]
    ensures t == [] || !IsWhiteSpace(t[0])
  {
    if s != [] && IsWhiteSpace(s[0]) then TrimStart(s[1..]) else s
  }

  /** The value of a digit in radix up to 36; 36 for a character that is no digit. */
  function DigitValue(c: char): (d: nat)
    ensures d <= 36
  {
    if '0' <= c <= '9' then c as int - '0' as int
    else if 'a' <= c <= 'z' then c as int - 'a' as int + 10
    else if 'A' <= c <= 'Z' then c as int - 'A' as int + 10
    else 36
  }

  /** Length of the longest prefix of `s` made of digits of `radix`. */
  function DigitPrefixLength(s: string, radix: nat): (k: nat)
    ensures k <= |s|
    ensures forall i :: 0 <= i < k ==> DigitValue(s[i]) < radix
    ensures k < |s| ==> DigitValue(s[k]) >= radix
  {
    if s != [] && DigitValue(s[0]) < radix then 1 + DigitPrefixLength(s[1..], radix) else 0
  }

  /** The number the digits of `s` denote in `radix`, most significant first. */
  function DigitsValue(s: string, radix: nat): nat {
    if s == [] then 0 else DigitsValue(s[..|s| - 1], radix) * radix + DigitValue(s[|s| - 1])
  }

  /**
   * `parseInt(s)`: skip leading white space, read an optional sign, read a
   * "0x"/"0X" prefix as radix 16 and otherwise use radix 10, then take the
   * longest run of digits; no digit at all is NaN.
   */
  function ParseIntString(s: string): Number {
    ParseSigned(TrimStart(s))
  }

  function ParseSigned(t: string): Number {
    if t != [] && t[0] == '-' then Negate(ParseUnsigned(t[1..]))
    else if t != [] && t[0] == '+' then ParseUnsigned(t[1..])
    else ParseUnsigned(t)
  }

  predicate HasHexPrefix(u: string) {
    |u| >= 2 && u[0] == '0' && (u[1] == 'x' || u[1] == 'X')
  }

  function ParseUnsigned(u: string): Number {
    if HasHexPrefix(u) then ParseDigits(u[2..], 16) else ParseDigits(u, 10)
  }

  function ParseDigits(w: string, radix: nat): Number {
    var k := DigitPrefixLength(w, radix);
    if k == 0 then NaN else Int(DigitsValue(w[..k], radix))
  }

  function Negate(x: Number): Number {
    match x
    case NaN => NaN
    case Int(v) => Int(-v)
  }

  /** `String(v)`: how `parseInt` sees a value that is not a string. */
  function ToJsString(v: Value): string
    decreases v
  {
    match v
    case Null => "null"
    case Bool(b) => if b then "true" else "false"
    case Num(n) => IntToString(n)
    case Str(s) => s
    case Arr(items) =>
      Join(seq(|items|, i requires 0 <= i < |items| =>
        if items[i].Null? then "" else ToJsString(items[i])))
    case Obj(_) => "[object Object]"
  }

  /** `array.join(",")` over the element strings. */
  function Join(parts: seq<string>): string {
    if parts == [] then ""
    else if |parts| == 1 then parts[0]
    else Join(parts[..|parts| - 1]) + "," + parts[|parts| - 1]
  }

  /** `parseInt(v)` for a value that may be `undefined` ("undefined" is NaN). */
  function ParseInt(v: Option<Value>): Number {
    match v
    case None => NaN
    case Some(x) => ParseIntString(ToJsString(x))
  }

  lemma {:induction false} DigitsOfNat(n: nat)
    ensures DigitsValue(NatToString(n), 10) == n
    decreases n
  {
    var s := NatToString(n);
    if n >= 10 {
      DigitsOfNat(n / 10);
      assert s[..|s| - 1] == NatToString(n / 10);
    }
  }

  /** Leading zeros appear only in "0", so the text never carries a "0x" prefix. */
  lemma {:induction false} NatToStringNoLeadingZero(n: nat)
    ensures |NatToString(n)| >= 2 ==> NatToString(n)[0] != '0'
    decreases n
  {
    if n >= 10 {
      NatToStringNoLeadingZero(n / 10);
      assert NatToString(n)[0] == NatToString(n / 10)[0];
      if n / 10 < 10 {
        assert NatToString(n / 10) == [DigitChar(n / 10)];
      }
    }
  }

  /** `parseInt(String(n)) === n` for every integer `n`. */
  lemma ParseIntOfIntToString(n: int)
    ensures ParseIntString(IntToString(n)) == Int(n)
  {
    var m: nat := if n < 0 then -n else n;
    var d := NatToString(m);
    DigitsOfNat(m);
    NatToStringNoLeadingZero(m);
    DigitRunIsWhole(d);
    if n < 0 {
      ParseSignedDigits(d, m);
    } else {
      ParseUnsignedDigits(d, m);
    }
  }

  /** A run of decimal digits without a leading zero reads as its value. */
  lemma UnsignedDigits(d: string, m: nat)
    requires |d| >= 1 && IsDecimalDigit(d[0])
    requires |d| >= 2 ==> d[0] != '0'
    requires DigitPrefixLength(d, 10) == |d| && DigitsValue(d, 10) == m
    ensures ParseUnsigned(d) == Int(m)
  {
    assert !HasHexPrefix(d);
    assert d[..|d|] == d;
  }

  lemma ParseUnsignedDigits(d: string, m: nat)
    requires |d| >= 1 && IsDecimalDigit(d[0])
    requires |d| >= 2 ==> d[0] != '0'
    requires DigitPrefixLength(d, 10) == |d| && DigitsValue(d, 10) == m
    ensures ParseIntString(d) == Int(m)
  {
    assert !IsWhiteSpace(d[0]);
    assert TrimStart(d) == d;
    assert d[0] != '-' && d[0] != '+';
    assert ParseSigned(d) == ParseUnsigned(d);
    UnsignedDigits(d, m);
  }

  lemma ParseSignedDigits(d: string, m: nat)
    requires |d| >= 1 && IsDecimalDigit(d[0])
    requires |d| >= 2 ==> d[0] != '0'
    requires DigitPrefixLength(d, 10) == |d| && DigitsValue(d, 10) == m
    ensures ParseIntString("-" + d) == Int(-(m as int))
  {
    var s := "-" + d;
    assert s[0] == '-' && !IsWhiteSpace(s[0]);
    assert TrimStart(s) == s;
    assert s[1..] == d;
    assert ParseSigned(s) == Negate(ParseUnsigned(d));
    UnsignedDigits(d, m);
  }

  lemma {:induction false} DigitRunIsWhole(s: string)
    requires forall i :: 0 <= i < |s| ==> IsDecimalDigit(s[i])
    ensures DigitPrefixLength(s, 10) == |s|
  {
    if s != [] {
      DigitRunIsWhole(s[1..]);
    }
  }

  /** `parseInt` of a number value gives the number back. */
  lemma ParseIntOfNum(n: int)
    ensures ParseInt(Some(Num(n))) == Int(n)
  {
    ParseIntOfIntToString(n);
  }
}
