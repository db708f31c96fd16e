/**
 * The filter-clause builder of `getCPISelect`: from an optional id list and
 * an optional list of date tokens it grows a `WHERE` fragment and the list of
 * values bound to its `?` placeholders, and falls back to `LIMIT 10` when
 * nothing filters the query.
 */
module CpiSelect {

  import opened Maybe
  import opened DateToken

  /** A value bound to one `?`: the whole id list, or a year or month number. */
  datatype BindValue = IdList(ids: seq<string>) | Number(n: int)

  const SelectPrefix := "SELECT * FROM consumer_price_index "
  /** The placeholder the database driver fills from the bind values. */
  const Mark := "?"
  const IdPredicate := "WHERE id IN (" + Mark + ")"
  const DatePredicate := "year = " + Mark + " AND month = " + Mark
  const OrSeparator := " OR "
  const RowCap := "LIMIT 10"

  /** `ids && ids.length > 0` */
  predicate HasIds(ids: Option<seq<string>>) {
    ids.Some? && |ids.value| > 0
  }

  /** `dates && dates.length > 0` */
  predicate HasDates(dates: Option<seq<string>>) {
    dates.Some? && |dates.value| > 0
  }

  /** The text token number i adds to the disjunction: the separator depends on i alone. */
  function DatePiece(token: string, i: nat): string {
    if ParseDate(token).None? then ""
    else if i > 0 then OrSeparator + DatePredicate
    else DatePredicate
  }

  /** The values token number i binds. */
  function DateBinds(token: string): seq<BindValue> {
    match ParseDate(token)
    case None => []
    case Some(ym) => [Number(ym.year), Number(ym.month)]
  }

  /** The disjunction the loop has written after visiting all of `dates`. */
  function Disjunction(dates: seq<string>): string
    decreases |dates|
  {
    if dates == [] then ""
    else Disjunction(dates[..|dates| - 1]) + DatePiece(dates[|dates| - 1], |dates| - 1)
  }

  /** The values the loop has pushed after visiting all of `dates`. */
  function DateInserts(dates: seq<string>): seq<BindValue>
    decreases |dates|
  {
    if dates == [] then []
    else DateInserts(dates[..|dates| - 1]) + DateBinds(dates[|dates| - 1])
  }

  /** The id predicate, when there are ids. */
  function IdClause(ids: Option<seq<string>>): string {
    if HasIds(ids) then IdPredicate else ""
  }

  /** The opening of the date group: joined to the id predicate, or starting the clause. */
  function GroupOpen(ids: Option<seq<string>>): string {
    if HasIds(ids) then " AND (" else "WHERE ("
  }

  function IdBinds(ids: Option<seq<string>>): seq<BindValue> {
    if HasIds(ids) then [IdList(ids.value)] else []
  }

  function Condition(ids: Option<seq<string>>, dates: Option<seq<string>>): string {
    if HasDates(dates) then IdClause(ids) + GroupOpen(ids) + Disjunction(dates.value) + ")"
    else IdClause(ids)
  }

  function Inserts(ids: Option<seq<string>>, dates: Option<seq<string>>): seq<BindValue> {
    if HasDates(dates) then IdBinds(ids) + DateInserts(dates.value) else IdBinds(ids)
  }

  /** The statement sent to the database for a given condition. */
  function SelectSql(condition: string): string {
    SelectPrefix + condition + (if condition == "" then RowCap else "")
  }

  /** `getCPISelect` without the query: the statement and its bind values. */
  method BuildSelect(ids: Option<seq<string>>, dates: Option<seq<string>>)
    returns (condition: string, sql: string, inserts: seq<BindValue>)
    ensures condition == Condition(ids, dates)
    ensures inserts == Inserts(ids, dates)
    ensures sql == SelectSql(condition)
  {
    condition := "";
    inserts := [];
    if HasIds(ids) {
      condition := condition + IdPredicate;
      inserts := inserts + [IdList(ids.value)];
    }
    if HasDates(dates) {
      var tokens := dates.value;
      assert condition == IdClause(ids) && inserts == IdBinds(ids);
      if HasIds(ids) {
        condition := condition + " AND (";
      } else {
        condition := condition + "WHERE (";
      }
      ghost var head := condition;
      ghost var bound := inserts;
      for i := 0 to |tokens|
        invariant condition == head + Disjunction(tokens[..i])
        invariant inserts == bound + DateInserts(tokens[..i])
      {
        StepAt(tokens, i);
        ghost var before, old_inserts := condition, inserts;
        var parsed := ParseDate(tokens[i]);
        if parsed.Some? {
          if i > 0 {
            condition := condition + OrSeparator;
            Assoc(before, OrSeparator, DatePredicate);
          }
          condition := condition + DatePredicate;
          inserts := inserts + [Number(parsed.value.year), Number(parsed.value.month)];
        }
        assert condition == before + DatePiece(tokens[i], i);
        assert inserts == old_inserts + DateBinds(tokens[i]);
        Assoc(head, Disjunction(tokens[..i]), DatePiece(tokens[i], i));
        Assoc(bound, DateInserts(tokens[..i]), DateBinds(tokens[i]));
      }
      assert tokens[..|tokens|] == tokens;
      condition := condition + ")";
      assert condition == Condition(ids, dates);
      assert inserts == Inserts(ids, dates);
    }
    sql := SelectSql(condition);
  }

  /** One more visited token extends the disjunction and the bind values by its own piece. */
  lemma StepAt(tokens: seq<string>, i: nat)
    requires i < |tokens|
    ensures Disjunction(tokens[..i + 1]) == Disjunction(tokens[..i]) + DatePiece(tokens[i], i)
    ensures DateInserts(tokens[..i + 1]) == DateInserts(tokens[..i]) + DateBinds(tokens[i])
  {
    assert tokens[..i + 1][..i] == tokens[..i];
  }

  lemma Assoc<T>(a: seq<T>, b: seq<T>, c: seq<T>)
    ensures (a + b) + c == a + (b + c)
  {
  }

  // ---------------------------------------------------------------------------
  // Properties of the clause and its bind values

  /** Number of `?` placeholders in a text. */
  function Placeholders(s: string): nat
    decreases |s|
  {
    if s == [] then 0 else Placeholders(s[..|s| - 1]) + (if s[|s| - 1] == '?' then 1 else 0)
  }

  lemma {:induction false} NoPlaceholders(s: string)
    requires forall i :: 0 <= i < |s| ==> s[i] != '?'
    ensures Placeholders(s) == 0
    decreases |s|
  {
    if s != [] {
      NoPlaceholders(s[..|s| - 1]);
    }
  }

  lemma {:induction false} PlaceholdersAppend(a: string, b: string)
    ensures Placeholders(a + b) == Placeholders(a) + Placeholders(b)
    decreases |b|
  {
    if b == [] {
      assert a + b == a;
    } else {
      assert (a + b)[..|a + b| - 1] == a + b[..|b| - 1];
      PlaceholdersAppend(a, b[..|b| - 1]);
    }
  }

  lemma MarkAfter(a: string)
    ensures Placeholders(a + Mark) == Placeholders(a) + 1
  {
    assert Placeholders(Mark) == 1;
    PlaceholdersAppend(a, Mark);
  }

  /** The fixed pieces of the clause and the placeholders each carries. */
  lemma IdPredicateMarks()
    ensures Placeholders(IdPredicate) == 1
  {
    var a, b := "WHERE id IN (", ")";
    NoPlaceholders(a);
    NoPlaceholders(b);
    MarkAfter(a);
    PlaceholdersAppend(a + Mark, b);
  }

  lemma DatePredicateMarks()
    ensures Placeholders(DatePredicate) == 2
  {
    var a, b := "year = ", " AND month = ";
    NoPlaceholders(a);
    NoPlaceholders(b);
    MarkAfter(a);
    PlaceholdersAppend(a + Mark, b);
    MarkAfter(a + Mark + b);
  }

  lemma SeparatorMarks(ids: Option<seq<string>>)
    ensures Placeholders(OrSeparator) == 0 && Placeholders(GroupOpen(ids)) == 0 && Placeholders(")") == 0
  {
    NoPlaceholders(OrSeparator);
    NoPlaceholders(GroupOpen(ids));
    NoPlaceholders(")");
  }

  /** The tokens that match, read as (year, month), in list order. */
  function Matched(dates: seq<string>): seq<YearMonth>
    decreases |dates|
  {
    if dates == [] then []
    else
      (match ParseDate(dates[0]) case None => [] case Some(ym) => [ym]) + Matched(dates[1..])
  }

  /** A year and a month bound per matched token, in order. */
  function PairBinds(ms: seq<YearMonth>): (r: seq<BindValue>)
    ensures |r| == 2 * |ms|
    ensures forall j :: 0 <= j < |ms| ==> r[2 * j] == Number(ms[j].year) && r[2 * j + 1] == Number(ms[j].month)
  {
    if ms == [] then [] else [Number(ms[0].year), Number(ms[0].month)] + PairBinds(ms[1..])
  }

  lemma {:induction false} MatchedAppend(a: seq<string>, t: string)
    ensures Matched(a + [t]) == Matched(a) + (match ParseDate(t) case None => [] case Some(ym) => [ym])
    decreases |a|
  {
    if a == [] {
      assert [] + [t] == [t];
      assert [t][1..] == [];
    } else {
      assert (a + [t])[1..] == a[1..] + [t];
      MatchedAppend(a[1..], t);
    }
  }

  lemma {:induction false} PairBindsAppend(a: seq<YearMonth>, b: seq<YearMonth>)
    ensures PairBinds(a + b) == PairBinds(a) + PairBinds(b)
    decreases |a|
  {
    if a == [] {
      assert a + b == b;
    } else {
      assert (a + b)[1..] == a[1..] + b;
      PairBindsAppend(a[1..], b);
    }
  }

  /** The loop's bind values are one year and one month per matching token, in token order. */
  lemma {:induction false} DateInsertsAreMatchedPairs(dates: seq<string>)
    ensures DateInserts(dates) == PairBinds(Matched(dates))
    decreases |dates|
  {
    if dates != [] {
      var init, t := dates[..|dates| - 1], dates[|dates| - 1];
      assert dates == init + [t];
      DateInsertsAreMatchedPairs(init);
      MatchedAppend(init, t);
      var m := match ParseDate(t) case None => [] case Some(ym) => [ym];
      PairBindsAppend(Matched(init), m);
    }
  }

  /** Each matching token writes two placeholders into the disjunction, the others none. */
  lemma {:induction false} DisjunctionPlaceholders(dates: seq<string>)
    ensures Placeholders(Disjunction(dates)) == 2 * |Matched(dates)|
    decreases |dates|
  {
    if dates != [] {
      var init, t := dates[..|dates| - 1], dates[|dates| - 1];
      assert dates == init + [t];
      DisjunctionPlaceholders(init);
      MatchedAppend(init, t);
      var piece := DatePiece(t, |init|);
      assert Disjunction(dates) == Disjunction(init) + piece;
      PlaceholdersAppend(Disjunction(init), piece);
      if ParseDate(t).None? {
        assert Placeholders(piece) == 0;
      } else {
        DatePredicateMarks();
        if |init| > 0 {
          SeparatorMarks(None);
          PlaceholdersAppend(OrSeparator, DatePredicate);
        }
        assert Placeholders(piece) == 2;
      }
    }
  }

  /**
   * The bind values are the id list first (when there are ids), then a year
   * and a month for each matching date token in order; and there are exactly
   * as many of them as the condition has placeholders.
   */
  lemma {:induction false} InsertsMatchPlaceholders(ids: Option<seq<string>>, dates: Option<seq<string>>)
    ensures Inserts(ids, dates) ==
      IdBinds(ids) + (if HasDates(dates) then PairBinds(Matched(dates.value)) else [])
    ensures Placeholders(Condition(ids, dates)) == |Inserts(ids, dates)|
  {
    IdPredicateMarks();
    SeparatorMarks(ids);
    assert Placeholders("") == 0;
    if HasDates(dates) {
      var d := dates.value;
      DateInsertsAreMatchedPairs(d);
      DisjunctionPlaceholders(d);
      PlaceholdersAppend(IdClause(ids), GroupOpen(ids));
      PlaceholdersAppend(IdClause(ids) + GroupOpen(ids), Disjunction(d));
      PlaceholdersAppend(IdClause(ids) + GroupOpen(ids) + Disjunction(d), ")");
    }
  }

  /**
   * The condition is empty exactly when neither ids nor dates filter, and
   * only then does the statement end in the `LIMIT 10` cap; there are then
   * no bind values.
   */
  lemma LimitOnlyWithoutFilters(ids: Option<seq<string>>, dates: Option<seq<string>>)
    ensures Condition(ids, dates) == "" <==> !HasIds(ids) && !HasDates(dates)
    ensures EndsWith(SelectSql(Condition(ids, dates)), RowCap) <==> !HasIds(ids) && !HasDates(dates)
    ensures Condition(ids, dates) == "" ==> Inserts(ids, dates) == []
  {
    var c := Condition(ids, dates);
    if c != "" {
      assert c[|c| - 1] == ')';
      assert SelectSql(c)[|SelectSql(c)| - 1] == ')';
    }
  }

  predicate EndsWith(s: string, suffix: string) {
    |suffix| <= |s| && s[|s| - |suffix|..] == suffix
  }

  /** With ids and no dates the clause is the single `IN` predicate bound to the whole list. */
  lemma IdsOnly(ids: seq<string>, dates: Option<seq<string>>)
    requires |ids| > 0 && !HasDates(dates)
    ensures Condition(Some(ids), dates) == IdPredicate
    ensures Inserts(Some(ids), dates) == [IdList(ids)]
  {
  }

  /** When no token matches, the builder still opens and closes an empty group. */
  lemma {:induction false} NoTokenMatches(ids: Option<seq<string>>, dates: seq<string>)
    requires |dates| > 0
    requires forall i :: 0 <= i < |dates| ==> ParseDate(dates[i]).None?
    ensures Condition(ids, Some(dates)) == if HasIds(ids) then IdPredicate + " AND ()" else "WHERE ()"
    ensures Inserts(ids, Some(dates)) == if HasIds(ids) then [IdList(ids.value)] else []
  {
    NothingMatched(dates);
  }

  lemma {:induction false} NothingMatched(dates: seq<string>)
    requires forall i :: 0 <= i < |dates| ==> ParseDate(dates[i]).None?
    ensures Disjunction(dates) == "" && DateInserts(dates) == []
    decreases |dates|
  {
    if dates != [] {
      NothingMatched(dates[..|dates| - 1]);
    }
  }

  /**
   * The separator is keyed on the position, not on an earlier match: a first
   * token that does not match followed by one that does leaves a dangling
   * `OR`: the condition reads `WHERE ( OR year = ? AND month = ?)`.
   */
  lemma DanglingOr(first: string, second: string)
    requires ParseDate(first).None? && ParseDate(second).Some?
    ensures Condition(None, Some([first, second])) == "WHERE (" + OrSeparator + DatePredicate + ")"
  {
    assert [first, second][..1] == [first];
    assert [first][..0] == [];
    assert Disjunction([first]) == "";
    assert Disjunction([first, second]) == "" + (OrSeparator + DatePredicate);
  }
}
