// JSON Pointer paths as sequences of unescaped segments, and the reading of a
// segment as a list index.

module Pointer {
  import opened Errors

  /** A path such as "/SimpleDTO/IntegerList/0", already split into its segments. */
  type Path = seq<string>

  /** The segment that stands for "one past the last element" of a list. */
  const EndOfList: string := "-"

  predicate IsDigit(c: char) { '0' <= c <= '9' }

  function DigitValue(c: char): nat
    requires IsDigit(c)
  {
    (c as int) - ('0' as int)
  }

  function DigitChar(d: nat): (c: char)
    requires d < 10
    ensures IsDigit(c) && DigitValue(c) == d
  {
    ('0' as int + d) as char
  }

  predicate AllDigits(s: string) { forall k :: 0 <= k < |s| ==> IsDigit(s[k]) }

  /** The value of a string of decimal digits, most significant first. */
  function DigitsValue(s: string): nat
    requires AllDigits(s)
  {
    if |s| == 0 then 0 else 10 * DigitsValue(s[..|s| - 1]) + DigitValue(s[|s| - 1])
  }

  /**
   * A segment read as an integer: an optional minus sign followed by one or more
   * decimal digits.  Anything else (including "-" alone) is not a numeral.
   */
  function ParseIndex(seg: string): (r: Option<int>)
    ensures r.Some? && r.value < 0 ==> |seg| > 1 && seg[0] == '-'
    ensures seg == EndOfList ==> r.None?
    ensures |seg| == 0 ==> r.None?
  {
    if |seg| > 0 && seg[0] == '-' then
      if |seg| > 1 && AllDigits(seg[1..]) then
        var magnitude: int := DigitsValue(seg[1..]);
        Some(-magnitude)
      else None
    else if |seg| > 0 && AllDigits(seg) then Some(DigitsValue(seg))
    else None
  }

  /** Decimal text of a natural number, without leading zeros. */
  function NatText(n: nat): (s: string)
    ensures |s| > 0 && AllDigits(s)
    decreases n
  {
    if n < 10 then [DigitChar(n)] else NatText(n / 10) + [DigitChar(n % 10)]
  }

  /** The segment a path builder writes for list position i (e.g. 4 -> "4", -1 -> "-1"). */
  function IndexText(i: int): (s: string)
    ensures |s| > 0
  {
    if i < 0 then "-" + NatText(-i) else NatText(i)
  }

  lemma {:induction false} DigitsValueOfNatText(n: nat)
    ensures DigitsValue(NatText(n)) == n
    decreases n
  {
    if n >= 10 {
      var s := NatText(n);
      assert s[..|s| - 1] == NatText(n / 10);
      DigitsValueOfNatText(n / 10);
    }
  }

  /** Reading back a written index gives the index: the out-of-bounds message cites exactly it. */
  lemma IndexTextRoundTrip(i: int)
    ensures ParseIndex(IndexText(i)) == Some(i)
  {
    if i < 0 {
      var s := IndexText(i);
      assert s[1..] == NatText(-i);
      DigitsValueOfNatText(-i);
    } else {
      DigitsValueOfNatText(i);
      assert NatText(i)[0] != '-';
    }
  }

  /** A written index is never the end-of-list marker. */
  lemma IndexTextIsNotEndOfList(i: int)
    ensures IndexText(i) != EndOfList
  {
    IndexTextRoundTrip(i);
  }
}
