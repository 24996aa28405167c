/**
 * Models of the few JavaScript built-ins the chart logic leans on:
 * `Array.prototype.slice` with negative and clamped bounds, `Math.max(...xs, floor)`,
 * the truncating `%` operator, `Number.prototype.toString()` on integers and
 * `parseInt(s, 16)`. Each is stated with the ECMAScript edge cases the callers can reach.
 */
module JsBuiltins {

  datatype Option<T> = None | Some(value: T)

  /** The number `parseInt` produces: an integer or NaN. */
  datatype ParsedInt = Int(value: int) | NaN

  function Min(a: int, b: int): int { if a <= b then a else b }
  function Max(a: int, b: int): int { if a >= b then a else b }

  // ---------------------------------------------------------------------------
  // Array.prototype.slice
  // ---------------------------------------------------------------------------

  /**
   * `s.slice(-k)`. For k > 0 this keeps the last k elements (all of them when
   * there are fewer). For k == 0, `-0` is `0`, so the whole sequence is kept;
   * for k < 0 the argument is the positive index -k and the first -k elements
   * are dropped.
   */
  function SliceFromEnd<T>(s: seq<T>, k: int): (r: seq<T>)
    ensures |r| == (if k > 0 then Min(k, |s|) else Max(|s| + k, 0))
    ensures r == s[|s| - |r|..]
  {
    if k > 0 then s[Max(|s| - k, 0)..] else s[Min(-k, |s|)..]
  }

  /** `s.slice(from, to)` for 0 <= from <= to: both bounds are clamped to the length. */
  function Substring(s: string, from: nat, to: nat): (r: string)
    requires from <= to
    ensures |r| == Max(Min(to, |s|) - from, 0)
    ensures forall i :: 0 <= i < |r| ==> r[i] == s[from + i]
  {
    if from >= |s| then "" else s[from..Min(to, |s|)]
  }

  // ---------------------------------------------------------------------------
  // Math.max(...xs, floor)
  // ---------------------------------------------------------------------------

  /** `Math.max(...xs, floor)`: the largest of the elements and `floor`. */
  function MaxWithFloor(xs: seq<int>, floor: int): (m: int)
    ensures m >= floor
    ensures forall i :: 0 <= i < |xs| ==> xs[i] <= m
    ensures m == floor || exists i :: 0 <= i < |xs| && xs[i] == m
  {
    if xs == [] then floor
    else
      var rest := MaxWithFloor(xs[..|xs| - 1], floor);
      assert forall i :: 0 <= i < |xs| - 1 ==> xs[..|xs| - 1][i] == xs[i];
      Max(rest, xs[|xs| - 1])
  }

  // ---------------------------------------------------------------------------
  // The `%` operator on integers (truncating, unlike Dafny's Euclidean `%`)
  // ---------------------------------------------------------------------------

  /**
   * `a % b` in JavaScript for a positive divisor: on a non-negative dividend it is
   * the ordinary remainder; on a negative one it is non-positive (the sign of the dividend).
   */
  function JsRem(a: int, b: int): (r: int)
    requires b > 0
    ensures a >= 0 ==> r == a % b && 0 <= r < b
    ensures a < 0 ==> -b < r <= 0
  {
    if a >= 0 then a % b else -((-a) % b)
  }

  // ---------------------------------------------------------------------------
  // Number.prototype.toString() on integers
  // ---------------------------------------------------------------------------

  predicate IsDigit(c: char) { '0' <= c <= '9' }

  function DigitChar(d: nat): (c: char)
    requires d < 10
    ensures IsDigit(c) && (c as int) - ('0' as int) == d
  {
    (('0' as int) + d) as char
  }

  function DigitValue(c: char): nat
    requires IsDigit(c)
  {
    (c as int) - ('0' as int)
  }

  /** Decimal digits of a natural number, most significant first, no leading zero. */
  function NatToString(n: nat): (s: string)
    ensures |s| >= 1
    ensures forall i :: 0 <= i < |s| ==> IsDigit(s[i])
    ensures s[0] == '0' ==> n == 0
    decreases n
  {
    if n < 10 then [DigitChar(n)] else NatToString(n / 10) + [DigitChar(n % 10)]
  }

  /** `String(i)` for an integer i. */
  function IntToString(i: int): (s: string)
    ensures |s| >= 1
    ensures s[0] == '-' <==> i < 0
  {
    if i < 0 then "-" + NatToString(-i) else NatToString(i)
  }

  /** The value of a string of decimal digits. */
  function DigitsValue(s: string): nat
    requires forall i :: 0 <= i < |s| ==> IsDigit(s[i])
  {
    if s == [] then 0 else DigitsValue(s[..|s| - 1]) * 10 + DigitValue(s[|s| - 1])
  }

  /** Reads back what `IntToString` writes: an optional '-' then decimal digits. */
  function ParseDecimal(s: string): ParsedInt
  {
    if |s| >= 2 && s[0] == '-' && forall i :: 1 <= i < |s| ==> IsDigit(s[i]) then
      var v: int := DigitsValue(s[1..]); Int(-v)
    else if |s| >= 1 && forall i :: 0 <= i < |s| ==> IsDigit(s[i]) then
      Int(DigitsValue(s))
    else NaN
  }

  lemma {:induction false} NatToStringRoundTrip(n: nat)
    ensures DigitsValue(NatToString(n)) == n
    decreases n
  {
    if n >= 10 {
      NatToStringRoundTrip(n / 10);
      var s := NatToString(n);
      assert s[..|s| - 1] == NatToString(n / 10);
    }
  }

  /** `IntToString` is injective: parsing its output gives the integer back. */
  lemma IntToStringRoundTrip(i: int)
    ensures ParseDecimal(IntToString(i)) == Int(i)
  {
    if i < 0 {
      NatToStringRoundTrip(-i);
      assert IntToString(i)[1..] == NatToString(-i);
    } else {
      NatToStringRoundTrip(i);
    }
  }

  /** A one-digit number prints as that single digit. */
  lemma NatToStringSingleDigit(n: nat)
    requires n < 10
    ensures NatToString(n) == [DigitChar(n)]
  {
  }

  // ---------------------------------------------------------------------------
  // parseInt(s, 16)
  // ---------------------------------------------------------------------------

  /**
   * The characters that `parseInt` skips at the start of its argument: TAB,
   * VT, FF, the byte-order mark, every Unicode space separator (category Zs:
   * SPACE, NBSP, U+1680, U+2000 to U+200A, U+202F, U+205F and U+3000) and the
   * line terminators LF, CR, LS and PS.
   */
  predicate IsJsWhiteSpace(c: char)
  {
    c == '\t' || c == '\U{000B}' || c == '\U{000C}' || c == '\U{FEFF}'
    || c == ' ' || c == '\U{00A0}' || c == '\U{1680}' || ('\U{2000}' <= c <= '\U{200A}')
    || c == '\U{202F}' || c == '\U{205F}' || c == '\U{3000}'
    || c == '\n' || c == '\r' || c == '\U{2028}' || c == '\U{2029}'
  }

  predicate IsHexDigit(c: char)
  {
    ('0' <= c <= '9') || ('a' <= c <= 'f') || ('A' <= c <= 'F')
  }

  function HexDigitValue(c: char): (v: nat)
    requires IsHexDigit(c)
    ensures v < 16
  {
    if '0' <= c <= '9' then (c as int) - ('0' as int)
    else if 'a' <= c <= 'f' then (c as int) - ('a' as int) + 10
    else (c as int) - ('A' as int) + 10
  }

  /** `s` without its leading white space. */
  function TrimStart(s: string): string
  {
    if s != [] && IsJsWhiteSpace(s[0]) then TrimStart(s[1..]) else s
  }

  /**
   * The value of the leading run of hexadecimal digits of `s`, read after the
   * digits already accumulated in `acc`.
   */
  function HexRunValue(s: string, acc: nat): nat
  {
    if s != [] && IsHexDigit(s[0]) then HexRunValue(s[1..], acc * 16 + HexDigitValue(s[0])) else acc
  }

  /** What is left after the leading white space is a suffix of the string. */
  lemma {:induction false} TrimStartIsSuffix(s: string)
    ensures |TrimStart(s)| <= |s| && TrimStart(s) == s[|s| - |TrimStart(s)|..]
  {
    if s != [] && IsJsWhiteSpace(s[0]) {
      TrimStartIsSuffix(s[1..]);
    }
  }

  /**
   * `parseInt(s, 16)`: skip leading white space, read an optional sign, drop an
   * optional "0x"/"0X" prefix, then take the longest run of hexadecimal digits;
   * no digits at all gives NaN.
   */
  function ParseIntHex(s: string): (r: ParsedInt)
    ensures r.Int? ==> exists i :: 0 <= i < |s| && IsHexDigit(s[i])
    ensures s != [] && IsHexDigit(s[0]) && !(|s| >= 2 && s[0] == '0' && (s[1] == 'x' || s[1] == 'X')) ==>
              r == Int(HexRunValue(s, 0))
  {
    TrimStartIsSuffix(s);
    var t := TrimStart(s);
    var sign := if t != [] && t[0] == '-' then -1 else 1;
    var u := if t != [] && (t[0] == '-' || t[0] == '+') then t[1..] else t;
    var v := if |u| >= 2 && u[0] == '0' && (u[1] == 'x' || u[1] == 'X') then u[2..] else u;
    if v != [] && IsHexDigit(v[0]) then
      assert v[0] == s[|s| - |v|];
      Int(sign * HexRunValue(v, 0))
    else NaN
  }

  /** Any one white-space character (an ideographic space U+3000, say) before a digit is skipped. */
  lemma ParseIntHexSkipsSpace(c: char, d: char)
    requires IsJsWhiteSpace(c) && IsHexDigit(d)
    ensures ParseIntHex([c, d]) == Int(HexDigitValue(d))
  {
    var s := [c, d];
    assert s[1..] == [d] && [d][1..] == [];
    assert TrimStart([d]) == [d];
    assert TrimStart(s) == [d];
    assert HexRunValue([d], 0) == HexRunValue([], HexDigitValue(d));
  }

  /** Two hexadecimal digits parse to the byte they spell. */
  lemma ParseIntHexPair(c1: char, c2: char)
    requires IsHexDigit(c1) && IsHexDigit(c2)
    ensures ParseIntHex([c1, c2]) == Int(16 * HexDigitValue(c1) + HexDigitValue(c2))
    ensures 0 <= 16 * HexDigitValue(c1) + HexDigitValue(c2) <= 255
  {
    var s := [c1, c2];
    assert TrimStart(s) == s;
    var v1 := HexDigitValue(c1);
    assert s[1..] == [c2] && [c2][1..] == [];
    assert HexRunValue([], v1 * 16 + HexDigitValue(c2)) == v1 * 16 + HexDigitValue(c2);
    assert HexRunValue([c2], v1) == v1 * 16 + HexDigitValue(c2);
    assert HexRunValue(s, 0) == HexRunValue([c2], v1);
  }
}
