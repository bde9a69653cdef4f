/**
 * The few pieces of JavaScript's value semantics that the booking readers
 * rely on: values and their truthiness (for `x || default`), whitespace and
 * `trim()`, `String.prototype.split` on a one-character separator,
 * `String(n)`, `padStart` and `parseInt` without a radix.
 */
module JsValues {
  import opened Wrappers

  /** A JavaScript value as it can appear in a booking field or a spreadsheet cell. */
  datatype Value = Undefined | Str(s: string) | Num(n: real) | NaN | Bool(b: bool)

  /** JavaScript truthiness: `undefined`, `""`, `0`, `NaN` and `false` are falsy. */
  predicate Truthy(v: Value)
  {
    match v
    case Undefined => false
    case Str(s) => s != ""
    case Num(n) => n != 0.0
    case NaN => false
    case Bool(b) => b
  }

  /** `v || d`: the value itself when truthy, else the default. */
  function Or(v: Value, d: Value): (r: Value)
    ensures Truthy(v) ==> r == v
    ensures !Truthy(v) ==> r == d
  {
    if Truthy(v) then v else d
  }

  /** A number produced by `parseInt`: the integer, or `NaN` when nothing parsed. */
  function IntValue(o: Option<int>): (r: Value)
    ensures o.None? <==> r == NaN
    ensures o.Some? ==> r == Num(o.value as real)
  {
    match o
    case None => NaN
    case Some(k) => Num(k as real)
  }

  // ---------------------------------------------------------------- whitespace

  /**
   * The characters `trim()` and `parseInt` skip: ECMAScript WhiteSpace (tab,
   * vertical tab, form feed, the byte order mark and every space separator)
   * and LineTerminator (LF, CR, line and paragraph separators).
   */
  predicate IsWhite(c: char)
  {
    || c == ' ' || c == '\t' || c == '\n' || c == '\r'
    || c == '\U{000B}' || c == '\U{000C}' || c == '\U{00A0}' || c == '\U{1680}'
    || ('\U{2000}' <= c <= '\U{200A}')
    || c == '\U{2028}' || c == '\U{2029}' || c == '\U{202F}' || c == '\U{205F}'
    || c == '\U{3000}' || c == '\U{FEFF}'
  }

  /** `!line.trim()`: the line is empty once whitespace is trimmed. */
  predicate IsBlank(line: string)
  {
    forall i :: 0 <= i < |line| ==> IsWhite(line[i])
  }

  /** Leading whitespace removed (the first step of `parseInt`). */
  function TrimStart(s: string): (r: string)
    ensures |r| <= |s| && r == s[|s| - |r|..]
    ensures r == [] || !IsWhite(r[0])
    ensures IsBlank(s[..|s| - |r|])
  {
    if s == [] || !IsWhite(s[0]) then s
    else
      var r := TrimStart(s[1..]);
      assert s[..|s| - |r|] == [s[0]] + s[1..][..|s| - 1 - |r|];
      r
  }

  // ---------------------------------------------------------------- split / join

  /**
   * `s.split(c)`: the pieces between occurrences of `c`. Like JavaScript,
   * the empty string splits into one empty piece and a trailing separator
   * gives a trailing empty piece.
   */
  function Split(s: string, c: char): (r: seq<string>)
    ensures |r| >= 1
    ensures forall k :: 0 <= k < |r| ==> c !in r[k]
  {
    if s == [] then [[]]
    else
      var rest := Split(s[1..], c);
      if s[0] == c then [[]] + rest
      else [[s[0]] + rest[0]] + rest[1..]
  }

  /** `parts.join(c)`. */
  function Join(parts: seq<string>, c: char): string
    requires |parts| >= 1
  {
    if |parts| == 1 then parts[0] else parts[0] + [c] + Join(parts[1..], c)
  }

  /** Splitting and joining on the same separator gives the text back. */
  lemma {:induction false} JoinSplit(s: string, c: char)
    ensures Join(Split(s, c), c) == s
  {
    if s != [] {
      var rest := Split(s[1..], c);
      JoinSplit(s[1..], c);
      if s[0] == c {
        assert Split(s, c)[1..] == rest;
      } else {
        var r := Split(s, c);
        if |rest| == 1 {
          assert r == [[s[0]] + rest[0]];
        } else {
          assert r[1..] == rest[1..];
          assert Join(rest, c) == rest[0] + [c] + Join(rest[1..], c);
        }
      }
    }
  }

  /** Splitting a piece free of the separator, followed by more text. */
  lemma {:induction false} SplitPiece(p: string, c: char, tail: string)
    requires c !in p
    ensures Split(p + tail, c) == [p + Split(tail, c)[0]] + Split(tail, c)[1..]
  {
    var r := Split(tail, c);
    if p != [] {
      assert (p + tail)[1..] == p[1..] + tail;
      SplitPiece(p[1..], c, tail);
      assert [p[0]] + (p[1..] + r[0]) == p + r[0];
    } else {
      assert p + tail == tail;
      assert p + r[0] == r[0];
      assert [r[0]] + r[1..] == r;
    }
  }

  /** Joining pieces free of the separator and splitting again gives the pieces back. */
  lemma {:induction false} SplitJoin(parts: seq<string>, c: char)
    requires |parts| >= 1
    requires forall k :: 0 <= k < |parts| ==> c !in parts[k]
    ensures Split(Join(parts, c), c) == parts
  {
    if |parts| == 1 {
      SplitPiece(parts[0], c, []);
      assert parts[0] + [] == parts[0];
    } else {
      var tail := [c] + Join(parts[1..], c);
      SplitJoin(parts[1..], c);
      assert Split(tail, c) == [[]] + parts[1..];
      assert parts[0] + [c] + Join(parts[1..], c) == parts[0] + tail;
      SplitPiece(parts[0], c, tail);
      assert parts[0] + [] == parts[0];
    }
  }

  // ---------------------------------------------------------------- numbers as text

  /** The digit character of a value below ten. */
  function DigitChar(d: nat): (c: char)
    requires d < 10
  {
    "0123456789"[d]
  }

  /** The value of a digit character in base 36 (`0`-`9`, then `a`-`z` / `A`-`Z`), if it is one. */
  function DigitOf(c: char): Option<nat>
  {
    if '0' <= c <= '9' then Some(c as int - '0' as int)
    else if 'a' <= c <= 'z' then Some(c as int - 'a' as int + 10)
    else if 'A' <= c <= 'Z' then Some(c as int - 'A' as int + 10)
    else None
  }

  predicate IsDigit(c: char, radix: nat)
  {
    DigitOf(c).Some? && DigitOf(c).value < radix
  }

  predicate AllDigits(s: string, radix: nat)
  {
    forall i :: 0 <= i < |s| ==> IsDigit(s[i], radix)
  }

  /** `String(n)` for a non-negative integer: its decimal digits, no leading zero. */
  function Decimal(n: nat): (r: string)
    ensures |r| >= 1 && AllDigits(r, 10)
    ensures (r[0] == '0') <==> n == 0
    ensures n < 10 <==> |r| == 1
    ensures 10 <= n < 100 <==> |r| == 2
  {
    if n < 10 then [DigitChar(n)]
    else
      var r := Decimal(n / 10) + [DigitChar(n % 10)];
      assert r[0] == Decimal(n / 10)[0];
      r
  }

  /** `String(i)` for an integer. */
  function IntString(i: int): (r: string)
    ensures i >= 0 ==> r == Decimal(i)
    ensures i < 0 ==> r == "-" + Decimal(-i)
  {
    if i < 0 then "-" + Decimal(-i) else Decimal(i)
  }

  /** `s.padStart(width, "0")`. */
  function PadStartZeros(s: string, width: nat): (r: string)
    ensures |r| == if |s| >= width then |s| else width
    ensures r == Zeros(|r| - |s|) + s
  {
    if |s| >= width then s else Zeros(width - |s|) + s
  }

  function Zeros(k: nat): (r: string)
    ensures |r| == k && AllDigits(r, 10)
    ensures forall i :: 0 <= i < k ==> r[i] == '0'
  {
    if k == 0 then "" else "0" + Zeros(k - 1)
  }

  // ---------------------------------------------------------------- parseInt

  /** The value of a string of digits in the given radix. */
  function DigitsValue(s: string, radix: nat): nat
    requires AllDigits(s, radix)
  {
    if s == [] then 0
    else DigitsValue(s[..|s| - 1], radix) * radix + DigitOf(s[|s| - 1]).value
  }

  /** The length of the longest prefix of `s` made of digits of the radix. */
  function DigitPrefixLength(s: string, radix: nat): (n: nat)
    ensures n <= |s| && AllDigits(s[..n], radix)
    ensures n < |s| ==> !IsDigit(s[n], radix)
  {
    if s == [] || !IsDigit(s[0], radix) then 0
    else
      var n := 1 + DigitPrefixLength(s[1..], radix);
      assert s[..n] == [s[0]] + s[1..][..n - 1];
      n
  }

  /**
   * `parseInt(s)` with no radix: skip leading whitespace, take an optional
   * sign, read hexadecimal after a `0x`/`0X` prefix and decimal otherwise,
   * stop at the first character that is not a digit; `None` (NaN) when no
   * digit was read.
   */
  function ParseInt(s: string): (r: Option<int>)
  {
    var t := TrimStart(s);
    var negative := |t| > 0 && t[0] == '-';
    var u := StripSign(t);
    var hex := HasHexPrefix(u);
    match ReadDigits(if hex then u[2..] else u, if hex then 16 else 10)
    case None => None
    case Some(magnitude) => Some(if negative then -(magnitude as int) else magnitude)
  }

  /** The text after an optional leading `+` or `-`. */
  function StripSign(t: string): (u: string)
    ensures |t| > 0 && (t[0] == '-' || t[0] == '+') ==> u == t[1..]
    ensures !(|t| > 0 && (t[0] == '-' || t[0] == '+')) ==> u == t
  {
    if |t| > 0 && (t[0] == '-' || t[0] == '+') then t[1..] else t
  }

  /** The text starts with `0x` or `0X`. */
  predicate HasHexPrefix(u: string)
  {
    |u| >= 2 && u[0] == '0' && (u[1] == 'x' || u[1] == 'X')
  }

  /** The value of the longest digit prefix, or `None` when it is empty. */
  function ReadDigits(body: string, radix: nat): (r: Option<nat>)
    ensures r.None? <==> DigitPrefixLength(body, radix) == 0
  {
    var n := DigitPrefixLength(body, radix);
    if n == 0 then None else Some(DigitsValue(body[..n], radix))
  }

  /**
   * `parseInt` applied to a field of a split line; a missing field is
   * `undefined`, whose text "undefined" holds no digit, so it gives NaN.
   */
  function ParseIntField(field: Option<string>): (r: Value)
    ensures r == NaN || r.Num?
    ensures field.None? ==> r == NaN
    ensures field.Some? && |field.value| >= 1 && AllDigits(field.value, 10)
      ==> r == Num(DigitsValue(field.value, 10) as real)
  {
    match field
    case None => NaN
    case Some(p) =>
      ParseIntOfDigits(p);
      IntValue(ParseInt(p))
  }

  /** A string of decimal digits parses as the number those digits denote. */
  lemma ParseIntOfDigits(p: string)
    ensures |p| >= 1 && AllDigits(p, 10) ==> ParseInt(p) == Some(DigitsValue(p, 10))
  {
    if |p| >= 1 && AllDigits(p, 10) {
      ParseIntDigits(p);
    }
  }

  lemma {:induction false} DigitsValueDecimal(n: nat)
    ensures DigitsValue(Decimal(n), 10) == n
  {
    if n >= 10 {
      var d := Decimal(n);
      assert d[..|d| - 1] == Decimal(n / 10);
      DigitsValueDecimal(n / 10);
      assert DigitOf(d[|d| - 1]).value == n % 10;
      assert (n / 10) * 10 + n % 10 == n;
    }
  }

  lemma {:induction false} DigitsValueLeadingZeros(k: nat, s: string)
    requires AllDigits(s, 10)
    ensures AllDigits(Zeros(k) + s, 10)
    ensures DigitsValue(Zeros(k) + s, 10) == DigitsValue(s, 10)
    decreases |s|
  {
    var z := Zeros(k) + s;
    assert AllDigits(z, 10);
    if s == [] {
      assert z == Zeros(k);
      ZerosValue(k);
    } else {
      assert z[..|z| - 1] == Zeros(k) + s[..|s| - 1];
      DigitsValueLeadingZeros(k, s[..|s| - 1]);
    }
  }

  lemma {:induction false} ZerosValue(k: nat)
    ensures DigitsValue(Zeros(k), 10) == 0
  {
    if k > 0 {
      assert Zeros(k)[..k - 1] == Zeros(k - 1);
      ZerosValue(k - 1);
    }
  }

  /**
   * `parseInt` reads back what `String(n)` wrote, also after `padStart`
   * with zeros: the leading zeros neither start a `0x` prefix nor change
   * the value.
   */
  lemma ParseIntPaddedDecimal(n: nat, width: nat)
    ensures ParseInt(PadStartZeros(Decimal(n), width)) == Some(n)
  {
    var d := Decimal(n);
    var p := PadStartZeros(d, width);
    DigitsValueLeadingZeros(|p| - |d|, d);
    DigitsValueDecimal(n);
    ParseIntDigits(p);
  }

  /** A plain string of decimal digits parses to its value. */
  lemma ParseIntDigits(p: string)
    requires |p| >= 1 && AllDigits(p, 10)
    ensures ParseInt(p) == Some(DigitsValue(p, 10))
  {
    DigitIsPlain(p[0]);
    assert TrimStart(p) == p;
    assert StripSign(p) == p;
    if |p| >= 2 {
      DigitIsPlain(p[1]);
    }
    assert !HasHexPrefix(p);
    AllDigitsPrefix(p, 10);
    assert p[..|p|] == p;
    assert ReadDigits(p, 10) == Some(DigitsValue(p, 10));
  }

  /** A decimal digit is neither whitespace, a sign nor the `x` of a hex prefix. */
  lemma DigitIsPlain(c: char)
    requires IsDigit(c, 10)
    ensures !IsWhite(c) && c != '-' && c != '+' && c != 'x' && c != 'X'
  {
  }

  lemma {:induction false} AllDigitsPrefix(s: string, radix: nat)
    requires AllDigits(s, radix)
    ensures DigitPrefixLength(s, radix) == |s|
  {
    if s != [] {
      AllDigitsPrefix(s[1..], radix);
    }
  }
}
