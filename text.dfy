/**
 * Decimal text of integers as JavaScript produces and reads it: `String(n)` for
 * template literals, `parseInt(value)` for the quantity input, and the
 * decimal-integer subset of the `Number()` cast Mongoose applies to a string
 * stored in a Number path.
 */
module Text {
  import opened Wrappers

  predicate IsDigit(c: char) {
    '0' <= c <= '9'
  }

  predicate AllDigits(s: string) {
    forall i :: 0 <= i < |s| ==> IsDigit(s[i])
  }

  function DigitValue(c: char): nat
    requires IsDigit(c)
  {
    c as int - '0' as int
  }

  function DigitChar(d: nat): (c: char)
    requires d < 10
    ensures IsDigit(c) && DigitValue(c) == d
  {
    ('0' as int + d) as char
  }

  /** Decimal digits of `n`, most significant first, without leading zeros. */
  function NatToString(n: nat): (s: string)
    ensures |s| > 0 && AllDigits(s)
    decreases n
  {
    if n < 10 then [DigitChar(n)] else NatToString(n / 10) + [DigitChar(n % 10)]
  }

  /** `String(n)` for an integral number: a minus sign before the digits of a negative one. */
  function IntToString(n: int): (s: string)
    ensures |s| > 0
    ensures n >= 0 <==> IsDigit(s[0])
  {
    if n < 0 then "-" + NatToString(-n) else NatToString(n)
  }

  /** The number a run of decimal digits denotes. */
  function DigitsValue(s: string): nat
    requires AllDigits(s)
    decreases |s|
  {
    if s == [] then 0 else DigitsValue(s[..|s| - 1]) * 10 + DigitValue(s[|s| - 1])
  }

  /** Length of the longest run of digits at the front of `s`. */
  function DigitPrefixLength(s: string): (k: nat)
    ensures k <= |s|
    ensures AllDigits(s[..k])
    ensures k < |s| ==> !IsDigit(s[k])
  {
    if s == [] || !IsDigit(s[0]) then 0 else 1 + DigitPrefixLength(s[1..])
  }

  /** An optional leading sign and what follows it. */
  function SplitSign(s: string): (int, string) {
    if |s| > 0 && s[0] == '-' then (-1, s[1..])
    else if |s| > 0 && s[0] == '+' then (1, s[1..])
    else (1, s)
  }

  /**
   * `parseInt(s)` in base 10: an optional sign, then the longest run of digits;
   * anything after the run is ignored, and no digit at all gives NaN (None).
   */
  function ParseInt(s: string): (r: Option<int>)
    ensures r.Some? <==> |SplitSign(s).1| > 0 && IsDigit(SplitSign(s).1[0])
  {
    var (sign, rest) := SplitSign(s);
    var k := DigitPrefixLength(rest);
    if k == 0 then None else Some(sign * DigitsValue(rest[..k]))
  }

  /** A string that is exactly an optional sign followed by one or more digits, read as a number. */
  function ParseExactInt(s: string): (r: Option<int>)
    ensures r.Some? <==> |SplitSign(s).1| > 0 && AllDigits(SplitSign(s).1)
    ensures r.Some? ==> r == ParseInt(s)
  {
    var (sign, rest) := SplitSign(s);
    if |rest| > 0 && DigitPrefixLength(rest) == |rest| then
      assert rest[..|rest|] == rest;
      Some(sign * DigitsValue(rest))
    else None
  }

  lemma {:induction false} DigitsValueOfNatToString(n: nat)
    ensures DigitsValue(NatToString(n)) == n
    decreases n
  {
    var s := NatToString(n);
    if n < 10 {
      assert s[..|s| - 1] == [];
    } else {
      DigitsValueOfNatToString(n / 10);
      assert s[..|s| - 1] == NatToString(n / 10);
    }
  }

  /** A run of digits followed by a non-digit (or nothing) is exactly the digit prefix. */
  lemma DigitPrefixOfDigits(d: string, tail: string)
    requires AllDigits(d)
    requires tail == [] || !IsDigit(tail[0])
    ensures DigitPrefixLength(d + tail) == |d|
  {
    var s := d + tail;
    assert forall i :: 0 <= i < |d| ==> s[i] == d[i];
    if tail != [] {
      assert s[|d|] == tail[0];
    }
  }

  /**
   * Reading back what `String(n)` wrote gives `n`, even when non-digit text
   * follows it, as in an activity line "removed 3 bolts from Shelf A".
   */
  lemma ParseIntOfIntToString(n: int, tail: string)
    requires tail == [] || !IsDigit(tail[0])
    ensures ParseInt(IntToString(n) + tail) == Some(n)
  {
    var m: nat := if n < 0 then -n else n;
    var d := NatToString(m);
    DigitPrefixOfDigits(d, tail);
    DigitsValueOfNatToString(m);
    assert (d + tail)[..|d|] == d;
    if n < 0 {
      assert IntToString(n) + tail == "-" + (d + tail);
      assert SplitSign(IntToString(n) + tail) == (-1, d + tail);
    } else {
      assert IntToString(n) + tail == d + tail;
      assert SplitSign(d + tail) == (1, d + tail);
    }
  }

  /** The exact cast reads back every integer `String(n)` writes. */
  lemma ParseExactIntOfIntToString(n: int)
    ensures ParseExactInt(IntToString(n)) == Some(n)
  {
    ParseIntOfIntToString(n, []);
    assert IntToString(n) + [] == IntToString(n);
    var rest := SplitSign(IntToString(n)).1;
    assert rest == NatToString(if n < 0 then -n else n);
  }
}
