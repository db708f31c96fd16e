/**
 * Date tokens `YYYY-MM`: the `/(\d{4})-(\d{2})/` match that the CPI filter
 * builder and the live-range handler apply to query values, and the
 * `${year}-${month padded to two digits}` formatting that produces tokens.
 */
module DateToken {

  import opened Maybe

  datatype YearMonth = YearMonth(year: int, month: int)

  predicate IsDigit(c: char) {
    '0' <= c <= '9'
  }

  predicate AllDigits(s: string) {
    forall i :: 0 <= i < |s| ==> IsDigit(s[i])
  }

  function DigitValue(c: char): (d: nat)
    requires IsDigit(c)
    ensures d < 10
  {
    c as int - '0' as int
  }

  function DigitChar(d: nat): (c: char)
    requires d < 10
    ensures IsDigit(c) && DigitValue(c) == d
  {
    ('0' as int + d) as char
  }

  function Pow10(k: nat): (p: nat)
    ensures p >= 1
  {
    if k == 0 then 1 else 10 * Pow10(k - 1)
  }

  /** The number a digit string denotes under JavaScript's unary `+` ("0018" is 18). */
  function DigitsValue(s: string): nat
    requires AllDigits(s)
    decreases |s|
  {
    if s == [] then 0 else DigitsValue(s[..|s| - 1]) * 10 + DigitValue(s[|s| - 1])
  }

  /** A string of k digits denotes a number below 10^k. */
  lemma {:induction false} DigitsValueBound(s: string)
    requires AllDigits(s)
    ensures DigitsValue(s) < Pow10(|s|)
    decreases |s|
  {
    if s != [] {
      DigitsValueBound(s[..|s| - 1]);
    }
  }

  /** `n.toString()` for a non-negative integer: decimal digits, no leading zero. */
  function NatToString(n: nat): (s: string)
    ensures |s| >= 1 && AllDigits(s)
    decreases n
  {
    if n < 10 then [DigitChar(n)] else NatToString(n / 10) + [DigitChar(n % 10)]
  }

  /** Reading back the digits of `n.toString()` gives n. */
  lemma {:induction false} NatToStringValue(n: nat)
    ensures DigitsValue(NatToString(n)) == n
    decreases n
  {
    if n >= 10 {
      var s := NatToString(n);
      assert s[..|s| - 1] == NatToString(n / 10);
      NatToStringValue(n / 10);
    }
  }

  /** `n.toString()` for any integer. */
  function IntToString(n: int): (s: string)
    ensures |s| >= 1
    ensures n < 0 ==> s[0] == '-'
    ensures n >= 0 ==> IsDigit(s[0])
  {
    if n < 0 then "-" + NatToString(-n) else NatToString(n)
  }

  /** `s.padStart(2, '0')`. */
  function Pad2(s: string): string
  {
    if |s| == 0 then "00" else if |s| == 1 then "0" + s else s
  }

  /** `${year}-${month.toString().padStart(2, '0')}`. */
  function FormatToken(year: int, month: int): (s: string)
    ensures |s| >= 4 && (year < 0 ==> s[0] == '-') && (year >= 0 ==> IsDigit(s[0]))
    ensures 1000 <= year <= 9999 && 0 <= month < 100 ==>
      |s| == 7 && AllDigits(s[..4]) && s[4] == '-' && AllDigits(s[5..])
  {
    if 1000 <= year <= 9999 && 0 <= month < 100 then
      NatToStringFourDigits(year);
      PaddedMonthValue(month);
      IntToString(year) + "-" + Pad2(IntToString(month))
    else
      IntToString(year) + "-" + Pad2(IntToString(month))
  }

  /** Position i of s starts four digits, a dash and two digits. */
  predicate MatchesAt(s: string, i: int) {
    0 <= i && i + 7 <= |s| &&
    AllDigits(s[i..i + 4]) && s[i + 4] == '-' && AllDigits(s[i + 5..i + 7])
  }

  /** The regular expression engine reports the match that starts first. */
  predicate LeftmostMatch(s: string, i: int) {
    MatchesAt(s, i) && forall j :: 0 <= j < i ==> !MatchesAt(s, j)
  }

  /** The two capture groups of a match at i, each read with unary `+`. */
  function MatchFields(s: string, i: int): (ym: YearMonth)
    requires MatchesAt(s, i)
    ensures 0 <= ym.year < 10000 && 0 <= ym.month < 100
  {
    DigitsValueBound(s[i..i + 4]);
    DigitsValueBound(s[i + 5..i + 7]);
    assert Pow10(4) == 10000 && Pow10(2) == 100;
    YearMonth(DigitsValue(s[i..i + 4]), DigitsValue(s[i + 5..i + 7]))
  }

  /** The first match starting at or after `from`. */
  function FindMatch(s: string, from: nat): (r: Option<nat>)
    requires from <= |s|
    ensures r.Some? ==> from <= r.value && MatchesAt(s, r.value)
    ensures r.Some? ==> forall j :: from <= j < r.value ==> !MatchesAt(s, j)
    ensures r.None? ==> forall j :: from <= j ==> !MatchesAt(s, j)
    decreases |s| - from
  {
    if from + 7 > |s| then None
    else if MatchesAt(s, from) then Some(from)
    else FindMatch(s, from + 1)
  }

  /**
   * `s.match(/(\d{4})-(\d{2})/)` followed by `+match[1]`, `+match[2]`:
   * the pattern is not anchored, so it may match anywhere in s.
   */
  function ParseDate(s: string): (r: Option<YearMonth>)
    ensures r.None? <==> forall i :: !MatchesAt(s, i)
    ensures forall i :: LeftmostMatch(s, i) ==> r == Some(MatchFields(s, i))
    ensures r.Some? ==> 0 <= r.value.year < 10000 && 0 <= r.value.month < 100
  {
    match FindMatch(s, 0)
    case None => None
    case Some(i) => Some(MatchFields(s, i))
  }

  lemma {:induction false} NatToStringFourDigits(n: nat)
    requires 1000 <= n <= 9999
    ensures |NatToString(n)| == 4
  {
    assert NatToString(n) == NatToString(n / 10) + [DigitChar(n % 10)];
    assert NatToString(n / 10) == NatToString(n / 100) + [DigitChar(n / 10 % 10)];
    assert NatToString(n / 100) == NatToString(n / 1000) + [DigitChar(n / 100 % 10)];
  }

  lemma {:induction false} PaddedMonthValue(m: nat)
    requires m < 100
    ensures |Pad2(IntToString(m))| == 2
    ensures AllDigits(Pad2(IntToString(m)))
    ensures DigitsValue(Pad2(IntToString(m))) == m
  {
    var d := NatToString(m);
    NatToStringValue(m);
    if m < 10 {
      var p := Pad2(d);
      assert p == "0" + d;
      assert p[..1] == "0";
    } else {
      assert d == NatToString(m / 10) + [DigitChar(m % 10)];
    }
  }

  /** A four-digit field, a dash and a two-digit field parse as those two numbers. */
  lemma {:induction false} ParseWellFormed(y: string, m: string)
    requires |y| == 4 && AllDigits(y) && |m| == 2 && AllDigits(m)
    ensures ParseDate(y + "-" + m) == Some(YearMonth(DigitsValue(y), DigitsValue(m)))
  {
    var s := y + "-" + m;
    assert s[0..4] == y;
    assert s[5..7] == m;
    assert LeftmostMatch(s, 0);
  }

  /** A formatted token with a four-digit year reads back as the same year and month. */
  lemma {:induction false} ParseFormatRoundTrip(ym: YearMonth)
    requires 1000 <= ym.year <= 9999 && 0 <= ym.month < 100
    ensures ParseDate(FormatToken(ym.year, ym.month)) == Some(ym)
  {
    NatToStringFourDigits(ym.year);
    NatToStringValue(ym.year);
    PaddedMonthValue(ym.month);
    ParseWellFormed(IntToString(ym.year), Pad2(IntToString(ym.month)));
  }

}
