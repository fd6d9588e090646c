/** The part of the Arduino `String` class and of C's <ctype.h>/<stdlib.h>
    that the command parser relies on: `isspace`, `String::trim`,
    `String::indexOf`, `String::startsWith` and `String::toInt` (which is
    `atol`).  Strings are sequences of characters; the C integer widths are
    not modelled (see README). */
module ArduinoString {

  /** `isspace` in the "C" locale: space, \t, \n, \v, \f and \r. */
  predicate IsSpace(c: char) {
    c == ' ' || c == '\t' || c == '\n' || c == '\r' || c as int == 11 || c as int == 12
  }

  predicate IsDigit(c: char) {
    '0' <= c <= '9'
  }

  predicate AllSpace(s: string) {
    forall k :: 0 <= k < |s| ==> IsSpace(s[k])
  }

  predicate NoSpace(s: string) {
    forall k :: 0 <= k < |s| ==> !IsSpace(s[k])
  }

  predicate AllDigits(s: string) {
    forall k :: 0 <= k < |s| ==> IsDigit(s[k])
  }

  /** `String::indexOf(c)`: the position of the first `c`, or -1. */
  function IndexOf(s: string, c: char): (r: int)
    ensures -1 <= r < |s|
    ensures r == -1 <==> c !in s
    ensures 0 <= r ==> s[r] == c && c !in s[..r]
  {
    if |s| == 0 then -1
    else if s[0] == c then 0
    else
      var k := IndexOf(s[1..], c);
      assert s[1..] == s[1..][..] && (0 <= k ==> s[..k + 1] == [s[0]] + s[1..][..k]);
      if k == -1 then -1 else k + 1
  }

  /** The number of whitespace characters `s` starts with. */
  function LeadingSpaces(s: string): (n: nat)
    ensures n <= |s|
    ensures forall j :: 0 <= j < n ==> IsSpace(s[j])
    ensures n == |s| || !IsSpace(s[n])
  {
    if |s| > 0 && IsSpace(s[0]) then
      var m := LeadingSpaces(s[1..]);
      assert forall j :: 0 < j < 1 + m ==> s[j] == s[1..][j - 1];
      1 + m
    else 0
  }

  /** Where the run of whitespace that `s` ends with begins. */
  function TrailingStart(s: string): (n: nat)
    ensures n <= |s|
    ensures forall j :: n <= j < |s| ==> IsSpace(s[j])
    ensures n == 0 || !IsSpace(s[n - 1])
  {
    if |s| > 0 && IsSpace(s[|s| - 1]) then TrailingStart(s[..|s| - 1]) else |s|
  }

  /** Leading whitespace removed: what `atol` skips and the first half of
      `String::trim`. */
  function TrimLeft(s: string): string {
    s[LeadingSpaces(s)..]
  }

  /** Trailing whitespace removed: the second half of `String::trim`. */
  function TrimRight(s: string): string {
    s[..TrailingStart(s)]
  }

  /** `String::trim`: `s` without its leading and trailing whitespace. The
      result is the part of `s` after its leading whitespace, and every
      character of `s` outside it is whitespace. */
  function Trim(s: string): (r: string)
    ensures r == [] || (!IsSpace(r[0]) && !IsSpace(r[|r| - 1]))
    ensures LeadingSpaces(s) + |r| <= |s| && r == s[LeadingSpaces(s)..LeadingSpaces(s) + |r|]
    ensures forall j :: 0 <= j < |s| && !(LeadingSpaces(s) <= j < LeadingSpaces(s) + |r|) ==> IsSpace(s[j])
    ensures NoSpace(s) ==> r == s
  {
    var l := LeadingSpaces(s);
    var t := s[l..];
    var r := t[..TrailingStart(t)];
    forall j | l + |r| <= j < |s| ensures IsSpace(s[j]) {
      assert s[j] == t[j - l];
    }
    NoSpaceUntrimmed(s);
    r
  }

  lemma NoSpaceUntrimmed(s: string)
    ensures NoSpace(s) ==> LeadingSpaces(s) == 0 && TrailingStart(s) == |s|
  {
  }

  /** The longest prefix of `s` made of decimal digits. */
  function DigitPrefix(s: string): (r: string)
    ensures |r| <= |s| && r == s[..|r|] && AllDigits(r)
    ensures |r| == |s| || !IsDigit(s[|r|])
  {
    if |s| > 0 && IsDigit(s[0]) then
      var r := DigitPrefix(s[1..]);
      assert [s[0]] + r == s[..|r| + 1];
      [s[0]] + r
    else []
  }

  function DigitValue(c: char): nat
    requires IsDigit(c)
  {
    (c as int) - ('0' as int)
  }

  /** The value of a string of decimal digits, most significant first, as
      `atol` accumulates it: value * 10 + digit for each digit in turn. */
  function DigitsValue(ds: string): nat
    requires AllDigits(ds)
  {
    if ds == [] then 0
    else DigitsValue(ds[..|ds| - 1]) * 10 + DigitValue(ds[|ds| - 1])
  }

  /** `String::toInt`, i.e. `atol`: skip whitespace, take an optional sign,
      then as many digits as follow; no digits gives 0. */
  function ToInt(s: string): (r: int)
    ensures AllDigits(s) ==> r == DigitsValue(s)
  {
    var t := TrimLeft(s);
    assert AllDigits(s) && |s| > 0 ==> !IsSpace(s[0]) && s[0] != '-' && s[0] != '+';
    assert AllDigits(s) ==> t == s && DigitPrefix(t) == s[..|s|] == s;
    if |t| > 0 && t[0] == '-' then -(DigitsValue(DigitPrefix(t[1..])) as int)
    else if |t| > 0 && t[0] == '+' then DigitsValue(DigitPrefix(t[1..]))
    else DigitsValue(DigitPrefix(t))
  }

  /** Decimal notation of a natural number, without leading zeros. */
  function Decimal(n: nat): (r: string)
    ensures |r| > 0 && AllDigits(r)
  {
    var d := ['0' + (n % 10) as char];
    if n < 10 then d else Decimal(n / 10) + d
  }

  lemma {:induction false} DigitsValueDecimal(n: nat)
    ensures DigitsValue(Decimal(n)) == n
  {
    var s := Decimal(n);
    var d := ['0' + (n % 10) as char];
    if n >= 10 {
      assert s[..|s| - 1] == Decimal(n / 10);
      DigitsValueDecimal(n / 10);
    }
  }

  /** `toInt` reads back what decimal notation writes. */
  lemma ToIntDecimal(n: nat)
    ensures ToInt(Decimal(n)) == n
  {
    var s := Decimal(n);
    assert !IsSpace(s[0]) && s[0] != '-' && s[0] != '+';
    assert TrimLeft(s) == s;
    assert DigitPrefix(s) == s;
    DigitsValueDecimal(n);
  }

  /** A minus sign negates and a plus sign is accepted. */
  lemma ToIntSigned(n: nat)
    ensures ToInt("-" + Decimal(n)) == -(n as int)
    ensures ToInt("+" + Decimal(n)) == n
  {
    var m, p := "-" + Decimal(n), "+" + Decimal(n);
    assert TrimLeft(m) == m && TrimLeft(p) == p;
    assert m[1..] == Decimal(n) && p[1..] == Decimal(n);
    assert DigitPrefix(Decimal(n)) == Decimal(n);
    DigitsValueDecimal(n);
  }

  /** Leading whitespace is skipped. */
  lemma ToIntSpaced(spaces: string, s: string)
    requires AllSpace(spaces)
    ensures ToInt(spaces + s) == ToInt(s)
  {
    TrimLeftSpaces(spaces, s);
    assert TrimLeft(spaces + s) == TrimLeft(s);
  }

  lemma {:induction false} TrimLeftSpaces(spaces: string, s: string)
    requires AllSpace(spaces)
    ensures LeadingSpaces(spaces + s) == |spaces| + LeadingSpaces(s)
  {
    if spaces != [] {
      assert (spaces + s)[1..] == spaces[1..] + s;
      TrimLeftSpaces(spaces[1..], s);
    } else {
      assert spaces + s == s;
    }
  }

  /** Text without a single digit converts to 0, whatever else it holds. */
  lemma ToIntNoDigits(s: string)
    requires forall k :: 0 <= k < |s| ==> !IsDigit(s[k])
    ensures ToInt(s) == 0
  {
    var t := TrimLeft(s);
    if |t| > 1 {
      assert !IsDigit(t[1..][0]);
    } else if |t| > 0 {
      assert !IsDigit(t[0]);
    }
  }
}
