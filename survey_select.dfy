/**
 * The `select` mode of the survey tables: rows fetched for the requested ids
 * are completed with an all-zero counter row for every requested id that the
 * table does not hold yet.
 */
module SurveySelect {

  import opened Maybe
  import opened QueryList

  /** A survey table row: the product id and one counter per (before, after) pair. */
  datatype SurveyRow = SurveyRow(
    id: string,
    baseBase: int,
    basePremium: int,
    baseNone: int,
    premiumBase: int,
    premiumPremium: int,
    premiumNone: int)

  /** The record pushed for an id the table does not hold. */
  function ZeroRow(id: string): SurveyRow {
    SurveyRow(id, 0, 0, 0, 0, 0, 0)
  }

  predicate AllZero(row: SurveyRow) {
    row.baseBase == 0 && row.basePremium == 0 && row.baseNone == 0 &&
    row.premiumBase == 0 && row.premiumPremium == 0 && row.premiumNone == 0
  }

  /** `entries.map((entry) => entry.id)` */
  function FetchedIds(entries: seq<SurveyRow>): (r: seq<string>)
    ensures |r| == |entries|
    ensures forall k :: 0 <= k < |entries| ==> r[k] == entries[k].id
  {
    if entries == [] then [] else [entries[0].id] + FetchedIds(entries[1..])
  }

  /** `ids.filter((id) => !fetchedIds.includes(id))` */
  function MissingIds(ids: seq<string>, fetched: seq<string>): (r: seq<string>)
    ensures |r| <= |ids|
    ensures forall k :: 0 <= k < |r| ==> r[k] in ids && r[k] !in fetched
    decreases |ids|
  {
    if ids == [] then []
    else (if ids[0] in fetched then [] else [ids[0]]) + MissingIds(ids[1..], fetched)
  }

  /** `result` is `entries` followed by one zero row per id of `missing`, in order. */
  predicate ZeroFilled(result: seq<SurveyRow>, entries: seq<SurveyRow>, missing: seq<string>) {
    && |result| == |entries| + |missing|
    && result[..|entries|] == entries
    && forall k :: 0 <= k < |missing| ==> result[|entries| + k] == ZeroRow(missing[k])
  }

  /** The loop that pushes a zero row per missing id onto the fetched entries. */
  method ZeroFill(entries: seq<SurveyRow>, ids: seq<string>) returns (result: seq<SurveyRow>)
    ensures ZeroFilled(result, entries, MissingIds(ids, FetchedIds(entries)))
  {
    var fetchedIds := FetchedIds(entries);
    var missingIds := MissingIds(ids, fetchedIds);
    result := entries;
    for i := 0 to |missingIds|
      invariant |result| == |entries| + i
      invariant result[..|entries|] == entries
      invariant forall k :: 0 <= k < i ==> result[|entries| + k] == ZeroRow(missingIds[k])
    {
      result := result + [ZeroRow(missingIds[i])];
    }
  }

  // ---------------------------------------------------------------------------
  // Properties of the missing ids

  /** An id is missing exactly when it was requested and not fetched. */
  lemma {:induction false} MissingIdsMembers(ids: seq<string>, fetched: seq<string>, x: string)
    ensures x in MissingIds(ids, fetched) <==> x in ids && x !in fetched
    decreases |ids|
  {
    if ids != [] {
      MissingIdsMembers(ids[1..], fetched, x);
      assert x in ids <==> x == ids[0] || x in ids[1..];
    }
  }

  /** Missing ids keep request order and duplicates: each unfetched id as often as requested. */
  lemma {:induction false} MissingIdsCount(ids: seq<string>, fetched: seq<string>, x: string)
    ensures multiset(MissingIds(ids, fetched))[x] == if x in fetched then 0 else multiset(ids)[x]
    decreases |ids|
  {
    if ids != [] {
      MissingIdsCount(ids[1..], fetched, x);
      assert ids == [ids[0]] + ids[1..];
    }
  }

  /** Every requested id has a row in the result. */
  lemma EveryRequestedIdPresent(entries: seq<SurveyRow>, ids: seq<string>, result: seq<SurveyRow>, x: string)
    requires ZeroFilled(result, entries, MissingIds(ids, FetchedIds(entries)))
    requires x in ids
    ensures exists k :: 0 <= k < |result| && result[k].id == x
  {
    var fetched := FetchedIds(entries);
    var missing := MissingIds(ids, fetched);
    if x in fetched {
      var k :| 0 <= k < |fetched| && fetched[k] == x;
      assert result[..|entries|][k] == result[k];
      assert result[k].id == x;
    } else {
      MissingIdsMembers(ids, fetched, x);
      var j :| 0 <= j < |missing| && missing[j] == x;
      assert result[|entries| + j].id == x;
    }
  }

  /** The rows added after the fetched ones are all zero and belong to requested, unfetched ids. */
  lemma AddedRowsAreZero(entries: seq<SurveyRow>, ids: seq<string>, result: seq<SurveyRow>, k: int)
    requires ZeroFilled(result, entries, MissingIds(ids, FetchedIds(entries)))
    requires |entries| <= k < |result|
    ensures AllZero(result[k])
    ensures result[k].id in ids && result[k].id !in FetchedIds(entries)
  {
    var missing := MissingIds(ids, FetchedIds(entries));
    assert result[k] == ZeroRow(missing[k - |entries|]);
    MissingIdsMembers(ids, FetchedIds(entries), missing[k - |entries|]);
  }

  // ---------------------------------------------------------------------------
  // The handler

  /** `SELECT * FROM table WHERE id IN (?)`: the stored rows whose id was requested. */
  function RowsWithIds(table: seq<SurveyRow>, ids: seq<string>): (r: seq<SurveyRow>)
    ensures forall k :: 0 <= k < |r| ==> r[k] in table && r[k].id in ids
    ensures forall row :: row in table && row.id in ids ==> row in r
    decreases |table|
  {
    if table == [] then []
    else (if table[0].id in ids then [table[0]] else []) + RowsWithIds(table[1..], ids)
  }

  /**
   * `handleSurveySelect` over the stored rows `table`: without an id list it
   * answers every row; otherwise the rows for the requested ids, completed
   * with zero rows.
   */
  method HandleSurveySelect(queryIds: Option<string>, table: seq<SurveyRow>) returns (rows: seq<SurveyRow>)
    ensures queryIds.None? || |queryIds.value| == 0 ==> rows == table
    ensures queryIds.Some? && |queryIds.value| > 0 ==>
      var entries := RowsWithIds(table, Split(queryIds.value));
      ZeroFilled(rows, entries, MissingIds(Split(queryIds.value), FetchedIds(entries)))
  {
    if queryIds.None? || |queryIds.value| == 0 {
      return table;
    }
    var ids := Split(queryIds.value);
    var entries := RowsWithIds(table, ids);
    rows := ZeroFill(entries, ids);
  }

  /** The answer to an id list has a row for every requested id and for no other id. */
  lemma AnswerIds(table: seq<SurveyRow>, ids: seq<string>, rows: seq<SurveyRow>)
    requires var entries := RowsWithIds(table, ids);
      ZeroFilled(rows, entries, MissingIds(ids, FetchedIds(entries)))
    ensures (set k | 0 <= k < |rows| :: rows[k].id) == (set x | x in ids)
  {
    var entries := RowsWithIds(table, ids);
    forall x | x in ids
      ensures exists k :: 0 <= k < |rows| && rows[k].id == x
    {
      EveryRequestedIdPresent(entries, ids, rows, x);
    }
    forall k | 0 <= k < |rows|
      ensures rows[k].id in ids
    {
      if k < |entries| {
        assert rows[..|entries|][k] == rows[k];
      } else {
        AddedRowsAreZero(entries, ids, rows, k);
      }
    }
  }
}
