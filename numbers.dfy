/**
 * The numeric text conversions the library and the console app rely on:
 * Int32.ToString, Int32.TryParse, the reading of a number token by
 * double.Parse and Math.Round.  All text is decimal with ASCII digits.
 */
module Numbers {
  import opened Common

  const Int32Min: int := -0x8000_0000
  const Int32Max: int := 0x7FFF_FFFF

  predicate IsDigit(c: char) { '0' <= c <= '9' }

  predicate AllDigits(s: string) { forall i :: 0 <= i < |s| ==> IsDigit(s[i]) }

  function DigitValue(c: char): nat
    requires IsDigit(c)
  {
    (c as int - '0' as int) as nat
  }

  function DigitChar(d: nat): (c: char)
    requires d < 10
    ensures IsDigit(c) && DigitValue(c) == d
  {
    ('0' as int + d) as char
  }

  function Pow10(k: nat): (p: nat)
    ensures p >= 1
  {
    if k == 0 then 1 else 10 * Pow10(k - 1)
  }

  /** The value of a string of decimal digits, most significant first. */
  function DigitsValue(s: string): nat
    requires AllDigits(s)
  {
    if s == [] then 0 else 10 * DigitsValue(s[..|s| - 1]) + DigitValue(s[|s| - 1])
  }

  /** The shortest decimal text of n (no leading zeros). */
  function NatToString(n: nat): (s: string)
    ensures |s| > 0 && AllDigits(s)
    ensures |s| > 1 ==> s[0] != '0'
  {
    if n < 10 then [DigitChar(n)] else NatToString(n / 10) + [DigitChar(n % 10)]
  }

  /** Int32.ToString(): a minus sign before the digits of a negative number. */
  function IntToString(i: int): (s: string)
    ensures |s| > 0
    ensures i < 0 <==> s[0] == '-'
    ensures i >= 0 ==> AllDigits(s)
  {
    if i < 0 then "-" + NatToString(-i) else NatToString(i)
  }

  lemma {:induction false} NatToStringValue(n: nat)
    ensures DigitsValue(NatToString(n)) == n
  {
    var s := NatToString(n);
    if n >= 10 {
      NatToStringValue(n / 10);
      assert s[..|s| - 1] == NatToString(n / 10);
    }
  }

  function IndexOf(s: string, c: char): (r: Option<nat>)
    ensures r.Some? ==> r.value < |s| && s[r.value] == c && c !in s[..r.value]
    ensures r.None? ==> c !in s
  {
    if s == [] then None
    else if s[0] == c then Some(0)
    else match IndexOf(s[1..], c)
      case None => None
      case Some(k) => Some(k + 1)
  }

  /** White space as char.IsWhiteSpace sees it in ASCII: space, tab, line feed, vertical tab, form feed, carriage return. */
  predicate IsWhiteSpace(c: char) { c == ' ' || '\t' <= c <= '\r' }

  function TrimStart(s: string): (r: string)
    ensures |r| <= |s|
    ensures r != [] ==> !IsWhiteSpace(r[0])
  {
    if s != [] && IsWhiteSpace(s[0]) then TrimStart(s[1..]) else s
  }

  function TrimEnd(s: string): (r: string)
    ensures |r| <= |s|
    ensures r != [] ==> !IsWhiteSpace(r[|r| - 1])
  {
    if s != [] && IsWhiteSpace(s[|s| - 1]) then TrimEnd(s[..|s| - 1]) else s
  }

  /** TrimStart removes exactly the white space at the front: what is left is a suffix of s. */
  lemma {:induction false} TrimStartDropsLeadingSpace(s: string)
    ensures var r := TrimStart(s);
      && r == s[|s| - |r|..]
      && forall i :: 0 <= i < |s| - |r| ==> IsWhiteSpace(s[i])
  {
    if s != [] && IsWhiteSpace(s[0]) {
      TrimStartDropsLeadingSpace(s[1..]);
    }
  }

  /** TrimEnd removes exactly the white space at the back: what is left is a prefix of s. */
  lemma {:induction false} TrimEndDropsTrailingSpace(s: string)
    ensures var r := TrimEnd(s);
      && r == s[..|r|]
      && forall i :: |r| <= i < |s| ==> IsWhiteSpace(s[i])
  {
    if s != [] && IsWhiteSpace(s[|s| - 1]) {
      TrimEndDropsTrailingSpace(s[..|s| - 1]);
    }
  }

  /** The surrounding white space that NumberStyles.AllowLeadingWhite and AllowTrailingWhite let through. */
  function Trim(s: string): string {
    TrimEnd(TrimStart(s))
  }

  /** Text that starts and ends with no white space is left as it is. */
  lemma TrimOfUnspaced(s: string)
    requires s != [] && !IsWhiteSpace(s[0]) && !IsWhiteSpace(s[|s| - 1])
    ensures Trim(s) == s
  {
  }

  /** Decimal text: one or more digits, optionally followed by a '.' and more digits. */
  predicate DecimalText(u: string) {
    || (|u| > 0 && AllDigits(u))
    || exists k :: 0 < k < |u| && u[k] == '.' && AllDigits(u[..k]) && AllDigits(u[k + 1..])
  }

  /** The value of decimal text with its point at k: the whole part plus the fraction scaled down. */
  function PointValue(u: string, k: nat): (v: real)
    requires 0 < k < |u| && AllDigits(u[..k]) && AllDigits(u[k + 1..])
    ensures v >= DigitsValue(u[..k]) as real
  {
    DigitsValue(u[..k]) as real + DigitsValue(u[k + 1..]) as real / Pow10(|u| - k - 1) as real
  }

  /** Digits before k rule out a '.' before k, so the first '.' of such text is at k. */
  lemma FirstPoint(u: string, k: nat)
    requires 0 < k < |u| && u[k] == '.' && AllDigits(u[..k])
    ensures IndexOf(u, '.') == Some(k)
  {
  }

  /**
   * double.Parse of a number token: surrounding white space is let
   * through, then the text must be decimal text, read as its exact value.
   * Any other token is rejected, as double.Parse would reject it with a
   * FormatException.
   */
  function ParseDecimal(t: string): (r: Option<real>)
    ensures var u := Trim(t); r.Some? <==> DecimalText(u)
    ensures var u := Trim(t); |u| > 0 && AllDigits(u) ==> r == Some(DigitsValue(u) as real)
    ensures var u := Trim(t);
      forall k :: 0 < k < |u| && u[k] == '.' && AllDigits(u[..k]) && AllDigits(u[k + 1..]) ==>
        r == Some(PointValue(u, k))
    ensures r.Some? ==> r.value >= 0.0
  {
    var u := Trim(t);
    match IndexOf(u, '.')
    case None =>
      if |u| > 0 && AllDigits(u) then Some(DigitsValue(u) as real) else None
    case Some(k) =>
      if k > 0 && AllDigits(u[..k]) && AllDigits(u[k + 1..]) then
        FirstPointOnly(u, k);
        Some(PointValue(u, k))
      else
        assert !DecimalText(u) by {
          if k' :| 0 < k' < |u| && u[k'] == '.' && AllDigits(u[..k']) && AllDigits(u[k' + 1..]) {
            FirstPoint(u, k');
          }
        }
        None
  }

  /** No point other than the first makes the text decimal. */
  lemma FirstPointOnly(u: string, k: nat)
    requires 0 < k < |u| && AllDigits(u[..k]) && AllDigits(u[k + 1..]) && IndexOf(u, '.') == Some(k)
    ensures forall k' :: 0 < k' < |u| && u[k'] == '.' && AllDigits(u[..k']) && AllDigits(u[k' + 1..]) ==> k' == k
  {
    forall k' | 0 < k' < |u| && u[k'] == '.' && AllDigits(u[..k']) && AllDigits(u[k' + 1..]) ensures k' == k {
      FirstPoint(u, k');
    }
  }

  /** Math.Round(double): to the nearest integer, a tie to the even one. */
  function RoundHalfEven(x: real): (r: int)
    ensures x - 0.5 <= r as real <= x + 0.5
    ensures x - x.Floor as real == 0.5 ==> r % 2 == 0
    ensures x == x.Floor as real ==> r == x.Floor
  {
    var f := x.Floor;
    var d := x - f as real;
    if d < 0.5 then f
    else if d > 0.5 then f + 1
    else if f % 2 == 0 then f
    else f + 1
  }

  /** A value within the 32-bit range, or nothing. */
  function InInt32(v: int): Option<int> {
    if Int32Min <= v <= Int32Max then Some(v) else None
  }

  /**
   * Int32.TryParse with NumberStyles.Integer: surrounding white space, an
   * optional sign and at least one digit, within the 32-bit range.
   */
  function TryParseInt(s: string): (r: Option<int>)
    ensures var u := Trim(s); |u| > 0 && AllDigits(u) ==> r == InInt32(DigitsValue(u))
    ensures var u := Trim(s); |u| > 1 && u[0] == '+' && AllDigits(u[1..]) ==> r == InInt32(DigitsValue(u[1..]))
    ensures var u := Trim(s); |u| > 1 && u[0] == '-' && AllDigits(u[1..]) ==> r == InInt32(-(DigitsValue(u[1..]) as int))
    ensures var u := Trim(s); r.Some? ==> (|u| > 0 && AllDigits(u)) || (|u| > 1 && u[0] in "+-" && AllDigits(u[1..]))
    ensures r.Some? ==> Int32Min <= r.value <= Int32Max
  {
    var t := Trim(s);
    var negative := |t| > 0 && t[0] == '-';
    var digits := if |t| > 0 && (t[0] == '-' || t[0] == '+') then t[1..] else t;
    if |digits| == 0 || !AllDigits(digits) then None
    else InInt32(if negative then -(DigitsValue(digits) as int) else DigitsValue(digits) as int)
  }

  /** Int32.TryParse reads back what Int32.ToString writes. */
  lemma TryParseIntToString(n: int)
    requires Int32Min <= n <= Int32Max
    ensures TryParseInt(IntToString(n)) == Some(n)
  {
    var s := IntToString(n);
    if n < 0 {
      assert s[|s| - 1] == NatToString(-n)[|NatToString(-n)| - 1];
      TrimOfUnspaced(s);
      assert s[1..] == NatToString(-n);
      NatToStringValue(-n);
    } else {
      TrimOfUnspaced(s);
      NatToStringValue(n);
    }
  }

  /** A whole number written by Int32.ToString is read back by the number reader. */
  lemma {:induction false} ParseDecimalOfNatToString(n: nat)
    ensures ParseDecimal(NatToString(n)) == Some(n as real)
  {
    TrimOfUnspaced(NatToString(n));
    NatToStringValue(n);
  }
}
