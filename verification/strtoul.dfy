/** Decimal conversion as the C library performs it for `strtoul(s, &end, 10)`
    and for the `%lu` directive of `sscanf`: optional leading white space, an
    optional sign, a run of decimal digits; overflow saturates at
    `ULONG_MAX`, and a minus sign negates modulo 2^64. */
module Strtoul {
  import opened Optional
  import opened Word

  predicate IsDigit(c: char) {
    '0' <= c <= '9'
  }

  /** `isspace` in the C locale: space, and tab through carriage return. */
  predicate IsSpace(c: char) {
    c == ' ' || '\t' <= c <= '\r'
  }

  predicate AllDigits(s: string) {
    forall i :: 0 <= i < |s| ==> IsDigit(s[i])
  }

  predicate AllSpaces(s: string) {
    forall i :: 0 <= i < |s| ==> IsSpace(s[i])
  }

  function DigitValue(c: char): (d: nat)
    requires IsDigit(c)
    ensures d < 10
  {
    (c as int) - ('0' as int)
  }

  function DigitChar(d: nat): (c: char)
    requires d < 10
    ensures IsDigit(c) && DigitValue(c) == d
  {
    (('0' as int) + d) as char
  }

  /** The number a string of decimal digits denotes. */
  function DecValue(s: string): nat
    requires AllDigits(s)
  {
    if |s| == 0 then 0 else DecValue(s[..|s| - 1]) * 10 + DigitValue(s[|s| - 1])
  }

  /** The shortest decimal spelling of `n`, as a user types it on the
      command line. */
  function ToDecimal(n: nat): (s: string)
    ensures |s| > 0 && AllDigits(s)
  {
    if n < 10 then [DigitChar(n)] else ToDecimal(n / 10) + [DigitChar(n % 10)]
  }

  lemma {:induction false} DecimalRoundTrip(n: nat)
    ensures DecValue(ToDecimal(n)) == n
  {
    if n >= 10 {
      var s := ToDecimal(n);
      assert s[..|s| - 1] == ToDecimal(n / 10);
      DecimalRoundTrip(n / 10);
    }
  }

  /** Length of the leading run of white space. */
  function SpacePrefix(s: string): (n: nat)
    ensures n <= |s|
    ensures forall i :: 0 <= i < n ==> IsSpace(s[i])
    ensures n < |s| ==> !IsSpace(s[n])
  {
    if |s| == 0 || !IsSpace(s[0]) then 0 else 1 + SpacePrefix(s[1..])
  }

  /** Length of the leading run of decimal digits. */
  function DigitPrefix(s: string): (n: nat)
    ensures n <= |s|
    ensures forall i :: 0 <= i < n ==> IsDigit(s[i])
    ensures n < |s| ==> !IsDigit(s[n])
  {
    if |s| == 0 || !IsDigit(s[0]) then 0 else 1 + DigitPrefix(s[1..])
  }

  /** The outcome of one conversion: the value stored, the offset `end`
      points to (0 when nothing was converted, as `strtoul` then sets the end
      pointer back to the start), and whether `errno` became `ERANGE`. */
  datatype Conversion = Conversion(value: nat, end: nat, overflow: bool)

  /** The value of a run of digits, with its sign applied: saturated at
      `ULONG_MAX` on overflow, negated modulo 2^64 after a minus sign. */
  function FromDigits(digits: string, negative: bool, end: nat): (c: Conversion)
    requires AllDigits(digits)
    ensures c.end == end && c.value <= ULONG_MAX
    ensures c.overflow <==> DecValue(digits) > ULONG_MAX
    ensures c.overflow ==> c.value == ULONG_MAX
    ensures !c.overflow && !negative ==> c.value == DecValue(digits)
  {
    var magnitude := DecValue(digits);
    if magnitude > ULONG_MAX then Conversion(ULONG_MAX, end, true)
    else if negative then Conversion(ULong(-(magnitude as int)), end, false)
    else Conversion(magnitude, end, false)
  }

  /** The conversion of the digit run starting at offset `j`; nothing is
      converted (and the end offset is 0) when there is no digit there. */
  function DigitsAt(s: string, j: nat, negative: bool): (c: Conversion)
    requires j <= |s|
    ensures c.end <= |s|
    ensures c.end == 0 <==> DigitPrefix(s[j..]) == 0
  {
    var n := DigitPrefix(s[j..]);
    if n == 0 then
      Conversion(0, 0, false)
    else
      var digits := s[j..j + n];
      assert AllDigits(digits) by {
        forall k | 0 <= k < |digits| ensures IsDigit(digits[k]) {
          assert digits[k] == s[j..][k];
        }
      }
      FromDigits(digits, negative, j + n)
  }

  function StrToUL(s: string): (c: Conversion)
    ensures c.end <= |s|
    ensures c.value <= ULONG_MAX
    ensures c.overflow ==> c.value == ULONG_MAX && c.end > 0
  {
    var i := SpacePrefix(s);
    var signed := i < |s| && (s[i] == '+' || s[i] == '-');
    DigitsAt(s, if signed then i + 1 else i, signed && s[i] == '-')
  }

  /** `sscanf(s, "%lu %lu", &a, &b)` when it assigns both variables; `None`
      when it assigns fewer. The blank in the format skips white space, which
      the second conversion would skip anyway. */
  function ScanTwo(s: string): (r: Option<(nat, nat)>)
    ensures r.Some? ==> r.value.0 <= ULONG_MAX && r.value.1 <= ULONG_MAX
    ensures StrToUL(s).end == 0 ==> r.None?
    ensures r.Some? ==> r.value.0 == StrToUL(s).value
    ensures r.Some? ==> StrToUL(s[StrToUL(s).end..]).end > 0 && r.value.1 == StrToUL(s[StrToUL(s).end..]).value
  {
    var first := StrToUL(s);
    if first.end == 0 then
      None
    else
      var second := StrToUL(s[first.end..]);
      if second.end == 0 then None else Some((first.value, second.value))
  }

  lemma {:induction false} SpacePrefixStops(w: string, rest: string)
    requires AllSpaces(w)
    requires |rest| > 0 && !IsSpace(rest[0])
    ensures SpacePrefix(w + rest) == |w|
  {
    if |w| > 0 {
      assert (w + rest)[1..] == w[1..] + rest;
      SpacePrefixStops(w[1..], rest);
    } else {
      assert w + rest == rest;
    }
  }

  lemma {:induction false} DigitPrefixStops(d: string, t: string)
    requires AllDigits(d)
    requires |t| == 0 || !IsDigit(t[0])
    ensures DigitPrefix(d + t) == |d|
  {
    if |d| > 0 {
      assert (d + t)[1..] == d[1..] + t;
      DigitPrefixStops(d[1..], t);
    } else {
      assert d + t == t;
    }
  }

  /** A digit right after the white space means there is no sign. */
  lemma {:induction false} UnsignedAt(s: string, i: nat)
    requires i == SpacePrefix(s) && i < |s|
    requires IsDigit(s[i])
    ensures StrToUL(s) == DigitsAt(s, i, false)
  {
  }

  /** A maximal digit run at offset `i` converts to the number it spells. */
  lemma {:induction false} DigitRunAt(s: string, i: nat, d: string)
    requires i + |d| <= |s|
    requires |d| > 0 && AllDigits(d)
    requires DigitPrefix(s[i..]) == |d|
    requires s[i..i + |d|] == d
    ensures DigitsAt(s, i, false) == FromDigits(d, false, i + |d|)
  {
  }

  /** An unsigned run of digits at the end of the white space converts to
      the number it spells. */
  lemma {:induction false} UnsignedDigits(s: string, d: string)
    requires SpacePrefix(s) + |d| <= |s|
    requires |d| > 0 && AllDigits(d)
    requires DigitPrefix(s[SpacePrefix(s)..]) == |d|
    requires s[SpacePrefix(s)..SpacePrefix(s) + |d|] == d
    ensures StrToUL(s) == FromDigits(d, false, SpacePrefix(s) + |d|)
  {
    var i := SpacePrefix(s);
    assert s[i] == s[i..i + |d|][0] == d[0];
    UnsignedAt(s, i);
    DigitRunAt(s, i, d);
  }

  /** A run of digits after white space converts to the number it spells,
      and the conversion ends exactly where the digits end. */
  lemma {:induction false} DigitsConvert(w: string, d: string, t: string)
    requires AllSpaces(w)
    requires |d| > 0 && AllDigits(d)
    requires |t| == 0 || !IsDigit(t[0])
    ensures StrToUL(w + d + t) == FromDigits(d, false, |w| + |d|)
  {
    var u := d + t;
    var s := w + u;
    assert w + d + t == s;
    SpacePrefixStops(w, u);
    assert s[|w|..] == u;
    DigitPrefixStops(d, t);
    assert s[|w|..|w| + |d|] == u[..|d|] == d;
    UnsignedDigits(s, d);
  }

  lemma {:induction false} PrependEmpty<T>(x: seq<T>, y: seq<T>)
    ensures [] + x + y == x + y
  {
  }

  lemma {:induction false} Regroup<T>(p: seq<T>, q: seq<T>, r: seq<T>, u: seq<T>)
    ensures p + q + r + u == p + (q + r + u)
  {
  }

  /** The same without leading white space. */
  lemma {:induction false} DigitsConvertBare(d: string, t: string)
    requires |d| > 0 && AllDigits(d)
    requires |t| == 0 || !IsDigit(t[0])
    ensures StrToUL(d + t) == FromDigits(d, false, |d|)
  {
    var none: string := [];
    PrependEmpty(d, t);
    DigitsConvert(none, d, t);
  }

  /** Two digit runs separated by a blank scan back as the two numbers. */
  lemma {:induction false} ScanTwoDigits(a: string, b: string, t: string)
    requires |a| > 0 && AllDigits(a) && DecValue(a) <= ULONG_MAX
    requires |b| > 0 && AllDigits(b) && DecValue(b) <= ULONG_MAX
    requires |t| == 0 || !IsDigit(t[0])
    ensures ScanTwo(a + " " + b + t) == Some((DecValue(a), DecValue(b)))
  {
    var rest := " " + b + t;
    Regroup(a, " ", b, t);
    DigitsConvertBare(a, rest);
    assert (a + rest)[|a|..] == rest;
    DigitsConvert(" ", b, t);
  }
}
