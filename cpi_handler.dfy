/**
 * The two handlers that query the consumer-price-index table through the
 * filter builder: `handleCPISelect`, which splits the `ids` and `dates`
 * query values and resolves `most-recent` before building, and the query
 * step of `handleLive`, which builds from the month tokens of the range.
 */
module CpiHandler {

  import opened Maybe
  import opened DateToken
  import opened QueryList
  import opened CpiSelect
  import opened MostRecent
  import opened LiveRange

  /** The statement and bind values sent to the database, or an exception. */
  datatype SelectOutcome = Crashed | Query(sql: string, inserts: seq<BindValue>)

  /**
   * `q && q.split(',')` as the builder sees it: an absent or empty value
   * gives no list (the empty string is falsy there too).
   */
  function ListParam(q: Option<string>): (r: Option<seq<string>>)
    ensures r.Some? <==> q.Some? && |q.value| > 0
    ensures r.Some? ==> |r.value| >= 1 && Join(r.value) == q.value
    ensures r.Some? ==>
      forall k, j :: 0 <= k < |r.value| && 0 <= j < |r.value[k]| ==> r.value[k][j] != Comma
  {
    if q.None? || |q.value| == 0 then None
    else
      JoinSplit(q.value);
      SplitPartsHaveNoComma(q.value);
      Some(Split(q.value))
  }

  /** The date list the builder receives once the sentinel is resolved. */
  function ResolvedDates(queryDates: Option<string>, latest: YearMonth): Option<seq<string>> {
    match ListParam(queryDates)
    case None => None
    case Some(dates) => Some(Substituted(dates, latest))
  }

  /**
   * `handleCPISelect` up to the query; `latest` is the most recent record of
   * the reference series, if the table holds one. An absent `dates` value
   * throws at `dates.includes`, and so does a sentinel with no record.
   */
  method HandleCpiSelect(queryIds: Option<string>, queryDates: Option<string>, latest: Option<YearMonth>)
    returns (outcome: SelectOutcome)
    ensures queryDates.None? ==> outcome == Crashed
    ensures queryDates.Some? && Sentinel in Split(queryDates.value) && latest.None? ==> outcome == Crashed
    ensures queryDates.Some? && (Sentinel !in Split(queryDates.value) || latest.Some?) ==>
      var dates := if Sentinel in Split(queryDates.value) then ResolvedDates(queryDates, latest.value)
                   else ListParam(queryDates);
      outcome == Query(SelectSql(Condition(ListParam(queryIds), dates)), Inserts(ListParam(queryIds), dates))
  {
    if queryDates.None? {
      return Crashed;
    }
    var ids := ListParam(queryIds);
    var dates: Option<seq<string>>;
    if |queryDates.value| == 0 {
      // The empty string holds no sentinel and is passed on as a falsy list.
      assert Split(queryDates.value) == [""];
      dates := None;
    } else {
      var parts := Split(queryDates.value);
      var buffer := new string[|parts|](i requires 0 <= i < |parts| => parts[i]);
      assert buffer[..] == parts;
      var thrown := ResolveDates(buffer, latest);
      if thrown {
        return Crashed;
      }
      dates := Some(buffer[..]);
    }
    var condition, sql, inserts := BuildSelect(ids, dates);
    outcome := Query(sql, inserts);
  }

  // ---------------------------------------------------------------------------
  // The live range through the builder

  /** When every token matches, each contributes its own reading, in order. */
  lemma {:induction false} MatchedWhenAllParse(tokens: seq<string>)
    requires forall k :: 0 <= k < |tokens| ==> ParseDate(tokens[k]).Some?
    ensures |Matched(tokens)| == |tokens|
    ensures forall k :: 0 <= k < |tokens| ==> Matched(tokens)[k] == ParseDate(tokens[k]).value
    decreases |tokens|
  {
    if tokens != [] {
      MatchedWhenAllParse(tokens[1..]);
      assert Matched(tokens) == [ParseDate(tokens[0]).value] + Matched(tokens[1..]);
      forall k | 1 <= k < |tokens|
        ensures Matched(tokens)[k] == ParseDate(tokens[k]).value
      {
        assert tokens[k] == tokens[1..][k - 1];
      }
    }
  }

  /**
   * The live range, handed to the builder, binds the id list (when given)
   * and then one year and one month per month of the range, in order, for
   * ranges within four-digit years.
   */
  lemma LiveRangeBinds(ids: Option<seq<string>>, tokens: seq<string>, first: int)
    requires |tokens| > 0 && MonthsFrom(tokens, first)
    requires 1000 * 12 <= first && first + |tokens| <= 10000 * 12
    ensures var months := Matched(tokens);
      && |months| == |tokens|
      && (forall k :: 0 <= k < |tokens| ==> months[k] == MonthAt(first + k))
      && Inserts(ids, Some(tokens)) == IdBinds(ids) + PairBinds(months)
  {
    forall k | 0 <= k < |tokens|
      ensures ParseDate(tokens[k]) == Some(MonthAt(first + k))
    {
      MonthTokenParses(first + k);
    }
    MatchedWhenAllParse(tokens);
    InsertsMatchPlaceholders(ids, Some(tokens));
  }
}
