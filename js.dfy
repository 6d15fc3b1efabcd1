/**
 * The slice of JavaScript value semantics the backend handlers and the
 * dashboard rely on: the Number() conversion of strings (StringToNumber of
 * ECMAScript), truthiness (`x || d`), String.prototype.trim and decimal
 * digit strings. Numbers are exact reals: double rounding and overflow are
 * not modelled, and +0 and -0 are one value.
 */
module Js {
  import opened Basics

  /** A JavaScript number. */
  datatype Number = NaN | Finite(value: real) | PosInfinity | NegInfinity

  /** The time value inside a Date object: milliseconds since the epoch, or
      an Invalid Date. */
  datatype Time = InvalidDate | ValidDate(ms: int)

  /** The scalar values a JSON row or a query-string parameter can hold,
      plus Date objects. */
  datatype Value =
    | Undefined
    | Null
    | Bool(b: bool)
    | Num(n: Number)
    | Str(s: string)
    | DateObject(time: Time)

  /** A row as an object keyed by column name. */
  type Row = map<string, Value>

  /** `row[key]`: a missing property reads as undefined. */
  function Get(row: Row, key: string): Value
  {
    if key in row then row[key] else Undefined
  }

  /** ToBoolean. */
  predicate Truthy(v: Value)
  {
    match v
    case Undefined => false
    case Null => false
    case Bool(b) => b
    case Num(n) => n != NaN && n != Finite(0.0)
    case Str(s) => s != ""
    case DateObject(_) => true
  }

  /** `a + b` on numbers. */
  function Add(a: Number, b: Number): Number
  {
    match (a, b)
    case (Finite(x), Finite(y)) => Finite(x + y)
    case (NaN, _) => NaN
    case (_, NaN) => NaN
    case (PosInfinity, NegInfinity) => NaN
    case (NegInfinity, PosInfinity) => NaN
    case (PosInfinity, _) => PosInfinity
    case (NegInfinity, _) => NegInfinity
    case (_, PosInfinity) => PosInfinity
    case (_, NegInfinity) => NegInfinity
  }

  /** ToNumber (`Number(v)`). */
  function ToNumber(v: Value): Number
  {
    match v
    case Undefined => NaN
    case Null => Finite(0.0)
    case Bool(b) => if b then Finite(1.0) else Finite(0.0)
    case Num(n) => n
    case Str(s) => StringToNumber(s)
    case DateObject(t) => if t.ValidDate? then Finite(t.ms as real) else NaN
  }

  // ---------------------------------------------------------------------------
  // Whitespace and trim

  /** WhiteSpace or LineTerminator: what trim and StringToNumber strip. */
  predicate IsWhiteSpace(c: char)
  {
    c == '\U{9}' || c == '\U{B}' || c == '\U{C}' || c == '\U{FEFF}'
    || c == ' ' || c == '\U{A0}' || c == '\U{1680}' || ('\U{2000}' <= c <= '\U{200A}')
    || c == '\U{202F}' || c == '\U{205F}' || c == '\U{3000}'
    || c == '\n' || c == '\r' || c == '\U{2028}' || c == '\U{2029}'
  }

  function TrimStart(s: string): (r: string)
    ensures |r| <= |s| && r == s[|s| - |r|..]
    ensures forall k :: 0 <= k < |s| - |r| ==> IsWhiteSpace(s[k])
    ensures r != [] ==> !IsWhiteSpace(r[0])
  {
    if s != [] && IsWhiteSpace(s[0]) then TrimStart(s[1..]) else s
  }

  function TrimEnd(s: string): (r: string)
    ensures |r| <= |s| && r == s[..|r|]
    ensures forall k :: |r| <= k < |s| ==> IsWhiteSpace(s[k])
    ensures r != [] ==> !IsWhiteSpace(r[|r| - 1])
  {
    if s != [] && IsWhiteSpace(s[|s| - 1]) then TrimEnd(s[..|s| - 1]) else s
  }

  /** The length of the whitespace run that starts s. */
  function LeadingWhiteSpace(s: string): nat
  {
    |s| - |TrimStart(s)|
  }

  /** `s.trim()`: s is some whitespace, then the result, then some more
      whitespace, and the result neither starts nor ends with whitespace. */
  function Trim(s: string): (r: string)
    ensures var i := LeadingWhiteSpace(s);
      && 0 <= i <= |s| - |r| && s[i..i + |r|] == r
      && (forall k :: 0 <= k < i ==> IsWhiteSpace(s[k]))
      && (forall k :: i + |r| <= k < |s| ==> IsWhiteSpace(s[k]))
    ensures r != [] ==> !IsWhiteSpace(r[0]) && !IsWhiteSpace(r[|r| - 1])
  {
    var t := TrimStart(s);
    var r := TrimEnd(t);
    TrimSplit(s, t, r);
    r
  }

  /** A prefix r of a suffix t of s sits in s where t starts; what follows r
      in t follows it in s. */
  lemma TrimSplit(s: string, t: string, r: string)
    requires |t| <= |s| && t == s[|s| - |t|..]
    requires |r| <= |t| && r == t[..|r|]
    requires forall k :: |r| <= k < |t| ==> IsWhiteSpace(t[k])
    ensures var i := |s| - |t|;
      s[i..i + |r|] == r && forall k :: i + |r| <= k < |s| ==> IsWhiteSpace(s[k])
  {
    var i := |s| - |t|;
    assert s[i..i + |r|] == r;
    forall k | i + |r| <= k < |s| ensures IsWhiteSpace(s[k]) {
      assert s[k] == t[k - i];
    }
  }

  /** A string trims to "" exactly when every character is whitespace. */
  lemma TrimEmptyIff(s: string)
    ensures Trim(s) == "" <==> forall k :: 0 <= k < |s| ==> IsWhiteSpace(s[k])
  {
    var r := Trim(s);
    if r != "" {
      var i := LeadingWhiteSpace(s);
      assert s[i] == r[0];
    }
  }

  // ---------------------------------------------------------------------------
  // Decimal digit strings

  predicate IsDigit(c: char) { '0' <= c <= '9' }

  predicate AllDigits(s: string) { forall k :: 0 <= k < |s| ==> IsDigit(s[k]) }

  function DigitValue(c: char): nat
    requires IsDigit(c)
  {
    (c as int) - ('0' as int)
  }

  /** The value of a string of decimal digits (`parseInt(s, 10)` on one). */
  function DigitsValue(s: string): nat
    requires AllDigits(s)
  {
    if s == [] then 0 else 10 * DigitsValue(s[..|s| - 1]) + DigitValue(s[|s| - 1])
  }

  function Pow10(n: nat): (p: nat)
    ensures p >= 1
  {
    if n == 0 then 1 else 10 * Pow10(n - 1)
  }

  function DigitChar(d: nat): (c: char)
    requires d < 10
    ensures IsDigit(c) && DigitValue(c) == d
  {
    (('0' as int) + d) as char
  }

  /** `String(n)` for a non-negative integer. */
  function NatToString(n: nat): (s: string)
    ensures s != [] && AllDigits(s)
    ensures |s| == 1 <==> n < 10
  {
    if n < 10 then [DigitChar(n)] else NatToString(n / 10) + [DigitChar(n % 10)]
  }

  /** Reading the digits back gives the number. */
  lemma {:induction false} NatToStringValue(n: nat)
    ensures DigitsValue(NatToString(n)) == n
  {
    if n >= 10 {
      var s := NatToString(n);
      NatToStringValue(n / 10);
      assert s[..|s| - 1] == NatToString(n / 10);
    }
  }

  /** `String(n).padStart(2, "0")`: left-pads with "0" to length two and leaves
      a longer string as it is. */
  function Pad2(s: string): (r: string)
    ensures |s| >= 2 ==> r == s
    ensures |s| < 2 ==> |r| == 2 && r[2 - |s|..] == s && forall k :: 0 <= k < 2 - |s| ==> r[k] == '0'
  {
    if |s| >= 2 then s else seq(2 - |s|, _ => '0') + s
  }

  // ---------------------------------------------------------------------------
  // StringToNumber

  /** The number of leading decimal digits of s. */
  function DigitRun(s: string): (n: nat)
    ensures n <= |s| && AllDigits(s[..n]) && (n < |s| ==> !IsDigit(s[n]))
  {
    if s != [] && IsDigit(s[0]) then
      var n := 1 + DigitRun(s[1..]);
      assert forall k :: 1 <= k < n ==> s[..n][k] == s[1..][..n - 1][k - 1];
      n
    else 0
  }

  predicate IsRadixDigit(c: char, radix: nat)
  {
    (radix == 16 && (IsDigit(c) || 'a' <= c <= 'f' || 'A' <= c <= 'F'))
    || (radix == 8 && '0' <= c <= '7')
    || (radix == 2 && (c == '0' || c == '1'))
  }

  function RadixDigitValue(c: char): nat
  {
    if IsDigit(c) then DigitValue(c)
    else if 'a' <= c <= 'f' then (c as int) - ('a' as int) + 10
    else if 'A' <= c <= 'F' then (c as int) - ('A' as int) + 10
    else 0
  }

  function RadixValue(s: string, radix: nat): nat
  {
    if s == [] then 0 else radix * RadixValue(s[..|s| - 1], radix) + RadixDigitValue(s[|s| - 1])
  }

  /** `0x…`, `0o…` or `0b…` with at least one digit; no sign allowed. */
  function RadixPrefix(t: string): (radix: nat)
  {
    if |t| >= 3 && t[0] == '0' then
      if t[1] == 'x' || t[1] == 'X' then 16
      else if t[1] == 'o' || t[1] == 'O' then 8
      else if t[1] == 'b' || t[1] == 'B' then 2
      else 0
    else 0
  }

  /** x * 10^e for an integer exponent. */
  function Scale(x: real, e: int): real
  {
    if e >= 0 then x * (Pow10(e) as real) else x / (Pow10(-e) as real)
  }

  /** The ExponentPart: empty, or e/E, an optional sign and at least one digit. */
  function Exponent(s: string): (r: Option<int>)
  {
    if s == [] then Some(0)
    else if s[0] != 'e' && s[0] != 'E' then None
    else
      var body := s[1..];
      var sign := if body != [] && body[0] == '-' then -1 else 1;
      var digits := if body != [] && (body[0] == '-' || body[0] == '+') then body[1..] else body;
      if digits != [] && AllDigits(digits) then Some(sign * DigitsValue(digits)) else None
  }

  /** StrUnsignedDecimalLiteral: digits, an optional point with digits, at
      least one digit in all, an optional exponent. */
  function UnsignedDecimal(s: string): Option<real>
  {
    var i := DigitRun(s);
    var whole := s[..i];
    var rest := s[i..];
    var hasPoint := rest != [] && rest[0] == '.';
    var afterPoint := if hasPoint then rest[1..] else [];
    var j := DigitRun(afterPoint);
    var fraction := afterPoint[..j];
    var tail := if hasPoint then afterPoint[j..] else rest;
    var e := Exponent(tail);
    if whole == [] && fraction == [] then None
    else if e.None? then None
    else
      Some(Scale(DecimalValue(whole, fraction), e.value))
  }

  /** The value of whole digits, a point and fraction digits. */
  function DecimalValue(whole: string, fraction: string): real
    requires AllDigits(whole) && AllDigits(fraction)
  {
    DigitsValue(whole) as real + (DigitsValue(fraction) as real) / (Pow10(|fraction|) as real)
  }

  lemma ScaleZero(x: real)
    ensures Scale(x, 0) == x
  {
  }

  /** StringToNumber on the trimmed text. */
  function LiteralToNumber(t: string): Number
  {
    if t == "" then Finite(0.0)
    else if t == "Infinity" || t == "+Infinity" then PosInfinity
    else if t == "-Infinity" then NegInfinity
    else if RadixPrefix(t) != 0 then
      var radix := RadixPrefix(t);
      if forall k :: 2 <= k < |t| ==> IsRadixDigit(t[k], radix) then Finite(RadixValue(t[2..], radix) as real)
      else NaN
    else SignedDecimal(t)
  }

  /** StrDecimalLiteral: an optional sign, then an unsigned decimal. */
  function SignedDecimal(t: string): Number
    requires t != []
  {
    var negative := t[0] == '-';
    var body := if t[0] == '-' || t[0] == '+' then t[1..] else t;
    match UnsignedDecimal(body)
    case None => NaN
    case Some(x) => Finite(if negative then -x else x)
  }

  /** `Number(s)` for a string. */
  function StringToNumber(s: string): Number
  {
    LiteralToNumber(Trim(s))
  }

  /** A string that is all whitespace (the empty string included) is 0. */
  lemma BlankIsZero(s: string)
    requires forall k :: 0 <= k < |s| ==> IsWhiteSpace(s[k])
    ensures StringToNumber(s) == Finite(0.0)
  {
    TrimEmptyIff(s);
  }

  /** A digit string reads as its decimal value. */
  lemma DigitStringToNumber(s: string)
    requires s != [] && AllDigits(s)
    ensures StringToNumber(s) == Finite(DigitsValue(s) as real)
  {
    TrimUnchanged(s);
    DigitsLiteral(s);
  }

  lemma DigitsLiteral(s: string)
    requires s != [] && AllDigits(s)
    ensures LiteralToNumber(s) == Finite(DigitsValue(s) as real)
  {
    assert IsDigit(s[0]);
    assert s != "Infinity" && s != "+Infinity" && s != "-Infinity";
    assert RadixPrefix(s) == 0 by {
      if |s| >= 3 {
        assert IsDigit(s[1]);
      }
    }
    DigitsDecimal(s);
  }

  /** Text that starts with a digit reads as its unsigned decimal value. */
  lemma DecimalLiteral(t: string, x: real)
    requires t != [] && IsDigit(t[0]) && UnsignedDecimal(t) == Some(x)
    ensures LiteralToNumber(t) == Finite(x)
  {
    assert "Infinity"[0] == 'I' && "+Infinity"[0] == '+' && "-Infinity"[0] == '-';
    assert t != "Infinity" && t != "+Infinity" && t != "-Infinity";
    RadixNotDecimal(t);
    assert SignedDecimal(t) == Finite(x);
  }

  /** A radix prefix such as `0x` is not the start of a decimal literal. */
  lemma RadixNotDecimal(t: string)
    ensures RadixPrefix(t) != 0 ==> UnsignedDecimal(t) == None
  {
    if RadixPrefix(t) != 0 {
      assert t[1..][0] == t[1] && !IsDigit(t[1]);
      assert DigitRun(t) == 1;
      assert t[1..] != [] && t[1..][0] != '.' && t[1..][0] != 'e' && t[1..][0] != 'E';
      assert Exponent(t[1..]) == None;
    }
  }

  /** A digit string is an unsigned decimal literal of its own value. */
  lemma DigitsDecimal(s: string)
    requires s != [] && AllDigits(s)
    ensures UnsignedDecimal(s) == Some(DigitsValue(s) as real)
  {
    DigitRunAll(s);
    assert s[..|s|] == s;
    assert s[|s|..] == [];
    assert DigitRun([]) == 0 && Exponent([]) == Some(0);
    assert DecimalValue(s, []) == DigitsValue(s) as real;
    ScaleZero(DecimalValue(s, []));
  }

  /** Digits, a point and more digits read as the whole part plus the
      fraction. */
  lemma PointDecimal(w: string, f: string)
    requires AllDigits(w) && f != [] && AllDigits(f)
    ensures UnsignedDecimal(w + ("." + f)) == Some(DecimalValue(w, f))
  {
    var rest := "." + f;
    var s := w + rest;
    DigitRunPrefix(w, rest);
    assert s[..|w|] == w && s[|w|..] == rest;
    assert rest != [] && rest[0] == '.' && rest[1..] == f;
    DigitRunAll(f);
    assert f[..|f|] == f && f[|f|..] == [];
    assert Exponent([]) == Some(0);
    ScaleZero(DecimalValue(w, f));
  }

  /** The digit run of w followed by a non-digit is w. */
  lemma {:induction false} DigitRunPrefix(w: string, rest: string)
    requires AllDigits(w) && (rest == [] || !IsDigit(rest[0]))
    ensures DigitRun(w + rest) == |w|
  {
    if w != [] {
      assert (w + rest)[1..] == w[1..] + rest;
      assert IsDigit((w + rest)[0]);
      DigitRunPrefix(w[1..], rest);
    } else {
      assert w + rest == rest;
    }
  }

  /** A string without whitespace at either end trims to itself. */
  lemma TrimUnchanged(s: string)
    requires s != [] && !IsWhiteSpace(s[0]) && !IsWhiteSpace(s[|s| - 1])
    ensures Trim(s) == s
  {
    assert TrimStart(s) == s;
    assert TrimEnd(s) == s;
  }

  lemma {:induction false} DigitRunAll(s: string)
    requires AllDigits(s)
    ensures DigitRun(s) == |s|
  {
    if s != [] {
      DigitRunAll(s[1..]);
    }
  }

  /** `String(n)` read back by `Number()` is n. */
  lemma NatRoundTrip(n: nat)
    ensures StringToNumber(NatToString(n)) == Finite(n as real)
  {
    NatToStringValue(n);
    DigitStringToNumber(NatToString(n));
  }
}
