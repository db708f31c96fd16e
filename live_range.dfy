/**
 * The `live` mode of the consumer-price-index table: validate the
 * `start-date` query value, compare it with the most recent month on record,
 * and list every `YYYY-MM` month token from the start through that month.
 * A first-of-month `Date` is represented by its month index
 * `year * 12 + (month - 1)`.
 */
module LiveRange {

  import opened Maybe
  import opened Http
  import opened DateToken

  const MinStartYear := 2018

  const MissingStart := "Query parameter <i>start-date</i> is required"
  const InvalidStart := "Query parameter <i>start-date</i> is not a valid date"
  const FutureStart := "Query parameter <i>start-date</i> lies in the future"

  /** A response sent before the query, the month tokens to query, or an exception. */
  datatype LiveOutcome = Rejected(response: Response) | Months(tokens: seq<string>) | Thrown

  /** The month index of a normalised year and month (month in 1..12). */
  function Index(ym: YearMonth): int {
    ym.year * 12 + ym.month - 1
  }

  /** `new Date(y, ...)` reads a year from 0 to 99 as 1900 to 1999. */
  function DateYear(y: int): int {
    if 0 <= y <= 99 then 1900 + y else y
  }

  /**
   * The month index of `new Date(year, month - 1, 1)` for a year inside the
   * range of a JavaScript Date (about 275,760 years either side of 1970): a
   * month outside 1..12 carries into the year, as the Date constructor does.
   */
  function DateIndex(ym: YearMonth): (i: int)
    ensures ym.year < 0 || ym.year > 99 ==> i == Index(ym)
    ensures 0 <= ym.year <= 99 ==> i == Index(YearMonth(1900 + ym.year, ym.month))
  {
    DateYear(ym.year) * 12 + ym.month - 1
  }

  function YearOf(index: int): int {
    index / 12
  }

  function MonthOf(index: int): (m: int)
    ensures 1 <= m <= 12
  {
    index % 12 + 1
  }

  /** The month whose index is `index`. */
  function MonthAt(index: int): YearMonth {
    YearMonth(YearOf(index), MonthOf(index))
  }

  lemma IndexRoundTrip(ym: YearMonth)
    requires 1 <= ym.month <= 12
    ensures YearOf(Index(ym)) == ym.year && MonthOf(Index(ym)) == ym.month
  {
  }

  /** The token of the month with this index. */
  function TokenAt(index: int): string {
    FormatToken(YearOf(index), MonthOf(index))
  }

  lemma TokenAtIndex(ym: YearMonth)
    requires 1 <= ym.month <= 12
    ensures TokenAt(Index(ym)) == FormatToken(ym.year, ym.month)
  {
    IndexRoundTrip(ym);
  }

  /** `getNextMonth`: December rolls over to January of the next year. */
  function NextMonth(ym: YearMonth): (r: YearMonth)
    requires 1 <= ym.month <= 12
    ensures 1 <= r.month <= 12
    ensures Index(r) == Index(ym) + 1
  {
    if ym.month == 12 then YearMonth(ym.year + 1, 1) else YearMonth(ym.year, ym.month + 1)
  }

  /** Token k is the month k months after the month with index `first`. */
  predicate MonthsFrom(tokens: seq<string>, first: int) {
    forall k :: 0 <= k < |tokens| ==> tokens[k] == TokenAt(first + k)
  }

  lemma MonthsFromAppend(tokens: seq<string>, first: int, next: string)
    requires MonthsFrom(tokens, first) && next == TokenAt(first + |tokens|)
    ensures MonthsFrom(tokens + [next], first)
  {
  }

  /** The loop of `handleLive`: one token per month from `start` while its index is at most `last`. */
  method ExpandMonths(start: YearMonth, last: int) returns (tokens: seq<string>)
    requires 1 <= start.month <= 12
    ensures |tokens| == if last >= Index(start) then last - Index(start) + 1 else 0
    ensures MonthsFrom(tokens, Index(start))
  {
    tokens := [];
    var current := start;
    while Index(current) <= last
      invariant 1 <= current.month <= 12
      invariant Index(current) == Index(start) + |tokens|
      invariant |tokens| <= if last >= Index(start) then last - Index(start) + 1 else 0
      invariant MonthsFrom(tokens, Index(start))
      decreases last - Index(current)
    {
      TokenAtIndex(current);
      MonthsFromAppend(tokens, Index(start), FormatToken(current.year, current.month));
      tokens := tokens + [FormatToken(current.year, current.month)];
      current := NextMonth(current);
    }
  }

  /** `!!value` for a query string: present and not empty. */
  predicate Given(value: Option<string>) {
    value.Some? && |value.value| > 0
  }

  /** A start date that passes the checks of `handleLive`. */
  predicate ValidStart(ym: YearMonth) {
    ym.year >= MinStartYear && 1 <= ym.month <= 12
  }

  /**
   * `handleLive` up to the database query: `startDate` is the `start-date`
   * query value and `latest` the year and month of the most recent record of
   * the reference series, if the table holds one; without one, reading its
   * year throws.
   */
  method HandleLive(startDate: Option<string>, latest: Option<YearMonth>) returns (outcome: LiveOutcome)
    ensures !Given(startDate) ==> outcome == Rejected(Response(BadRequest, MissingStart))
    ensures Given(startDate) && ParseDate(startDate.value).None? ==>
      outcome == Rejected(Response(BadRequest, InvalidStart))
    ensures Given(startDate) && ParseDate(startDate.value).Some? &&
            !ValidStart(ParseDate(startDate.value).value) ==>
      outcome == Rejected(Response(BadRequest, InvalidStart))
    ensures Given(startDate) && ParseDate(startDate.value).Some? &&
            ValidStart(ParseDate(startDate.value).value) && latest.None? ==>
      outcome == Thrown
    ensures Given(startDate) && ParseDate(startDate.value).Some? &&
            ValidStart(ParseDate(startDate.value).value) && latest.Some? ==>
      var first := Index(ParseDate(startDate.value).value);
      var last := DateIndex(latest.value);
      if last < first then outcome == Rejected(Response(BadRequest, FutureStart))
      else
        && outcome.Months?
        && |outcome.tokens| == last - first + 1
        && MonthsFrom(outcome.tokens, first)
  {
    if !Given(startDate) {
      return Rejected(Response(BadRequest, MissingStart));
    }
    var parsed := ParseDate(startDate.value);
    if parsed.None? {
      return Rejected(Response(BadRequest, InvalidStart));
    }
    var start := parsed.value;
    if start.year < MinStartYear || start.month < 1 || start.month > 12 {
      return Rejected(Response(BadRequest, InvalidStart));
    }
    if latest.None? {
      return Thrown;
    }
    var last := DateIndex(latest.value);
    if last < Index(start) {
      return Rejected(Response(BadRequest, FutureStart));
    }
    var tokens := ExpandMonths(start, last);
    outcome := Months(tokens);
  }

  // ---------------------------------------------------------------------------
  // Properties of the month range

  /** The range has `12 * (ey - sy) + (em - sm) + 1` months. */
  lemma RangeLength(start: YearMonth, latest: YearMonth)
    requires ValidStart(start) && 1 <= latest.month <= 12 && latest.year >= 100
    requires Index(start) <= DateIndex(latest)
    ensures DateIndex(latest) - Index(start) + 1 == 12 * (latest.year - start.year) + (latest.month - start.month) + 1
  {
  }

  /** The range starts at the start month and ends at the latest month. */
  lemma RangeEnds(start: YearMonth, latest: YearMonth)
    requires ValidStart(start) && 1 <= latest.month <= 12 && latest.year >= 100
    ensures TokenAt(Index(start)) == FormatToken(start.year, start.month)
    ensures TokenAt(DateIndex(latest)) == FormatToken(latest.year, latest.month)
  {
    TokenAtIndex(start);
    assert DateIndex(latest) == Index(latest);
    TokenAtIndex(latest);
  }

  /** Consecutive tokens are one month apart; December is followed by January of the next year. */
  lemma {:induction false} ConsecutiveMonths(index: int)
    ensures MonthAt(index + 1) == NextMonth(MonthAt(index))
  {
    var ym := MonthAt(index);
    assert Index(ym) == index;
    IndexRoundTrip(NextMonth(ym));
  }

  /** Every month token of a range within four-digit years reads back as its own year and month. */
  lemma MonthTokenParses(index: int)
    requires 1000 * 12 <= index < 10000 * 12
    ensures ParseDate(TokenAt(index)) == Some(MonthAt(index))
  {
    ParseFormatRoundTrip(MonthAt(index));
  }
}
