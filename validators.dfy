/**
 * The checks `handlePOST` runs before writing: the bearer-token
 * authorization, the shape of a consumer-price-index body and the shape of a
 * survey vote. Each yields a verdict; `Throws` stands for the exceptions the
 * checks raise on some inputs instead of answering.
 */
module Validators {

  import opened Maybe
  import opened JsValue

  datatype Verdict = Pass | Fail(msg: string) | Throws

  const NoData := "No data provided"
  const InvalidFormat := "Invalid data format"
  const MissingFields := "Invalid data format, must contain fields \"id\", \"before\" and \"after\""
  const BadBefore := "Invalid data format, \"before\" must be one one \"base\" or \"premium\""
  const BadAfter := "Invalid data format, \"after\" must be one one \"base\", \"premium\" or \"none\""
  const NoBearer := "No bearer token provided"
  const BadToken := "Token invalid"

  /** `!!data` for a request body that may be absent. */
  predicate Present(data: Option<Json>) {
    data.Some? && Truthy(data.value)
  }

  // ---------------------------------------------------------------------------
  // Authorization

  const Bearer := "Bearer"

  predicate StartsWith(s: string, prefix: string) {
    |prefix| <= |s| && s[..|prefix|] == prefix
  }

  /** The characters `.` does not match in a JavaScript regular expression. */
  predicate LineTerminator(c: char) {
    c == '\n' || c == '\r' || c == '\U{2028}' || c == '\U{2029}'
  }

  /** Position i starts the text `Bearer ` (with the space). */
  predicate BearerAt(s: string, i: int) {
    0 <= i && i + 7 <= |s| && s[i..i + 6] == Bearer && s[i + 6] == ' '
  }

  /** The first position at or after `from` where `Bearer ` starts. */
  function FindBearer(s: string, from: nat): (r: Option<nat>)
    requires from <= |s|
    ensures r.Some? ==> from <= r.value && BearerAt(s, r.value)
    ensures r.Some? ==> forall j :: from <= j < r.value ==> !BearerAt(s, j)
    ensures r.None? ==> forall j :: from <= j ==> !BearerAt(s, j)
    decreases |s| - from
  {
    if from + 7 > |s| then None
    else if BearerAt(s, from) then Some(from)
    else FindBearer(s, from + 1)
  }

  /** `(.*)`: the longest run from `from` that holds no line terminator. */
  function RestOfLine(s: string, from: nat): (r: string)
    requires from <= |s|
    ensures forall k :: 0 <= k < |r| ==> !LineTerminator(r[k])
    ensures from + |r| <= |s| && s[from..from + |r|] == r
    ensures from + |r| == |s| || LineTerminator(s[from + |r|])
    decreases |s| - from
  {
    if from == |s| || LineTerminator(s[from]) then []
    else [s[from]] + RestOfLine(s, from + 1)
  }

  /**
   * `authorize`: `header` is the `Authorization` header and `secret` the
   * configured API secret. A header that starts with `Bearer` but holds no
   * `Bearer ` anywhere makes the match null, and destructuring it throws.
   */
  function Authorize(header: Option<string>, secret: Option<string>): (r: Verdict)
    ensures r == Fail(NoBearer) <==> !(header.Some? && StartsWith(header.value, Bearer))
    ensures r == Throws <==>
      header.Some? && StartsWith(header.value, Bearer) && forall i :: !BearerAt(header.value, i)
    ensures r == Pass ==> secret.Some? && exists i :: BearerAt(header.value, i)
    ensures r.Fail? ==> r.msg == NoBearer || r.msg == BadToken
    ensures r == Fail(BadToken) ==>
      exists i :: LeftmostBearer(header.value, i) && secret != Some(RestOfLine(header.value, i + 7))
    ensures forall i ::
      (header.Some? && StartsWith(header.value, Bearer) && LeftmostBearer(header.value, i) &&
       secret != Some(RestOfLine(header.value, i + 7))) ==> r == Fail(BadToken)
  {
    if header.None? || |header.value| == 0 || !StartsWith(header.value, Bearer) then Fail(NoBearer)
    else
      match FindBearer(header.value, 0)
      case None => Throws
      case Some(i) =>
        assert LeftmostBearer(header.value, i);
        if secret != Some(RestOfLine(header.value, i + 7)) then Fail(BadToken) else Pass
  }

  /** `Bearer <token>` with a token on one line is accepted exactly when the token is the secret. */
  lemma BearerToken(token: string, secret: Option<string>)
    requires forall k :: 0 <= k < |token| ==> !LineTerminator(token[k])
    ensures Authorize(Some(Bearer + " " + token), secret) ==
      if secret == Some(token) then Pass else Fail(BadToken)
  {
    var h := Bearer + " " + token;
    assert h[..6] == Bearer;
    assert BearerAt(h, 0);
    TokenToEnd(h, 7);
    assert h[7..] == token;
  }

  lemma {:induction false} TokenToEnd(s: string, from: nat)
    requires from <= |s|
    requires forall k :: from <= k < |s| ==> !LineTerminator(s[k])
    ensures RestOfLine(s, from) == s[from..]
    decreases |s| - from
  {
    if from < |s| {
      TokenToEnd(s, from + 1);
    }
  }

  /** A missing or empty header, or one not starting with `Bearer`, is refused before any match. */
  lemma NoBearerPrefix(header: Option<string>, secret: Option<string>)
    requires header.None? || !StartsWith(header.value, Bearer)
    ensures Authorize(header, secret) == Fail(NoBearer)
  {
  }

  /** The bare header `Bearer` passes the prefix test but has no `Bearer ` to match. */
  lemma BareBearerThrows(secret: Option<string>)
    ensures Authorize(Some(Bearer), secret) == Throws
  {
    assert Bearer[..6] == Bearer;
  }

  /** The match is not anchored: the token is read after the first `Bearer ` anywhere in the header. */
  lemma UnanchoredToken(junk: string, token: string, secret: Option<string>)
    requires |junk| > 0 && junk[|junk| - 1] != 'r'
    requires forall k :: 0 <= k < |junk| ==> junk[k] != ' ' && !LineTerminator(junk[k])
    requires forall k :: 0 <= k < |token| ==> !LineTerminator(token[k])
    ensures Authorize(Some(Bearer + junk + " " + Bearer + " " + token), secret) ==
      if secret == Some(token) then Pass else Fail(BadToken)
  {
    var h := Bearer + junk + " " + Bearer + " " + token;
    var i := 6 + |junk| + 1;
    assert h[..6] == Bearer;
    forall j | 0 <= j < i
      ensures !BearerAt(h, j)
    {
      if j + 6 < 6 + |junk| {
        assert h[j + 6] == junk[j];
      } else if j == |junk| {
        assert h[j + 5] == junk[|junk| - 1];
        assert Bearer[5] == 'r';
      } else {
        assert h[j + 6] == Bearer[j - |junk| - 1];
      }
    }
    assert h[i..i + 6] == Bearer;
    assert BearerAt(h, i);
    assert FindBearer(h, 0) == Some(i);
    TokenToEnd(h, i + 7);
    assert h[i + 7..] == token;
  }

  /** Only a header with a `Bearer ` match whose line equals the secret passes. */
  lemma AuthorizePass(header: Option<string>, secret: Option<string>)
    ensures Authorize(header, secret) == Pass <==>
      && header.Some? && StartsWith(header.value, Bearer)
      && (exists i :: BearerAt(header.value, i))
      && secret.Some?
      && (forall i :: LeftmostBearer(header.value, i) ==> secret.value == RestOfLine(header.value, i + 7))
  {
    if header.Some? && StartsWith(header.value, Bearer) {
      var h := header.value;
      match FindBearer(h, 0)
      case None =>
      case Some(i) =>
        assert LeftmostBearer(h, i);
        forall j | LeftmostBearer(h, j)
          ensures j == i
        {
        }
    }
  }

  predicate LeftmostBearer(s: string, i: int) {
    BearerAt(s, i) && forall j :: 0 <= j < i ==> !BearerAt(s, j)
  }

  // ---------------------------------------------------------------------------
  // Consumer-price-index bodies

  /** `d[col] !== undefined` for every column; `d` must not be null unless there are no columns. */
  predicate HasColumns(d: Json, columns: seq<string>) {
    forall k :: 0 <= k < |columns| ==> Field(d, columns[k]).Some?
  }

  /**
   * `data.every(isValid)`, which stops at the first element that fails;
   * reading a column of a null element throws when there are columns to read.
   */
  function EveryValid(elems: seq<Json>, columns: seq<string>): (r: Option<bool>)
    ensures r == Some(false) ==> exists k :: 0 <= k < |elems| && !HasColumns(elems[k], columns)
    ensures r.None? ==> |columns| > 0 && exists k :: 0 <= k < |elems| && elems[k].JNull?
    decreases |elems|
  {
    if elems == [] then Some(true)
    else if elems[0].JNull? && |columns| > 0 then None
    else if !HasColumns(elems[0], columns) then Some(false)
    else EveryValid(elems[1..], columns)
  }

  /** `checkCpiData`: the body must be an object, or an array of objects, carrying every column. */
  function CheckCpiData(data: Option<Json>, columns: seq<string>): (r: Verdict)
    ensures r == Fail(NoData) <==> !Present(data)
    ensures r.Fail? ==> r.msg == NoData || r.msg == InvalidFormat
    ensures r == Throws ==> data.Some? && data.value.JArr?
  {
    if !Present(data) then Fail(NoData)
    else
      var d := data.value;
      if d.JArr? then
        match EveryValid(d.elems, columns)
        case None => Throws
        case Some(ok) => if ok then Pass else Fail(InvalidFormat)
      else if !d.JObj? || !HasColumns(d, columns) then Fail(InvalidFormat)
      else Pass
  }

  /** The scan passes exactly when every element carries every column. */
  lemma {:induction false} EveryValidAll(elems: seq<Json>, columns: seq<string>)
    ensures EveryValid(elems, columns) == Some(true) <==>
      forall k :: 0 <= k < |elems| ==> HasColumns(elems[k], columns)
    decreases |elems|
  {
    if elems != [] {
      EveryValidAll(elems[1..], columns);
      if elems[0].JNull? && |columns| > 0 {
        assert Field(elems[0], columns[0]).None?;
      }
      assert forall k :: 1 <= k < |elems| ==> elems[k] == elems[1..][k - 1];
    }
  }

  /** The scan throws exactly when a null element comes before any element missing a column. */
  lemma {:induction false} EveryValidThrows(elems: seq<Json>, columns: seq<string>)
    ensures EveryValid(elems, columns).None? <==>
      |columns| > 0 &&
      exists k :: 0 <= k < |elems| && elems[k].JNull? &&
        forall j :: 0 <= j < k ==> HasColumns(elems[j], columns)
    decreases |elems|
  {
    if elems != [] {
      EveryValidThrows(elems[1..], columns);
      if |columns| > 0 && !elems[0].JNull? && HasColumns(elems[0], columns) {
        var tail := elems[1..];
        if exists k :: 0 <= k < |tail| && tail[k].JNull? && forall j :: 0 <= j < k ==> HasColumns(tail[j], columns) {
          var k :| 0 <= k < |tail| && tail[k].JNull? && forall j :: 0 <= j < k ==> HasColumns(tail[j], columns);
          assert elems[k + 1].JNull?;
          assert forall j :: 0 <= j < k + 1 ==> HasColumns(elems[j], columns) by {
            forall j | 0 <= j < k + 1 ensures HasColumns(elems[j], columns) {
              if j > 0 { assert elems[j] == tail[j - 1]; }
            }
          }
        }
        if exists k :: 0 <= k < |elems| && elems[k].JNull? && forall j :: 0 <= j < k ==> HasColumns(elems[j], columns) {
          var k :| 0 <= k < |elems| && elems[k].JNull? && forall j :: 0 <= j < k ==> HasColumns(elems[j], columns);
          assert k > 0;
          assert tail[k - 1].JNull?;
          assert forall j :: 0 <= j < k - 1 ==> HasColumns(tail[j], columns) by {
            forall j | 0 <= j < k - 1 ensures HasColumns(tail[j], columns) {
              assert tail[j] == elems[j + 1];
            }
          }
        }
      } else if |columns| > 0 && !elems[0].JNull? {
        assert !HasColumns(elems[0], columns);
      }
    }
  }

  /**
   * A body passes exactly when it is an object with every column, or an
   * array whose every element has every column.
   */
  lemma CpiDataPass(data: Option<Json>, columns: seq<string>)
    ensures CheckCpiData(data, columns) == Pass <==>
      data.Some? &&
      ((data.value.JObj? && HasColumns(data.value, columns)) ||
       (data.value.JArr? && forall k :: 0 <= k < |data.value.elems| ==> HasColumns(data.value.elems[k], columns)))
  {
    if data.Some? && data.value.JArr? {
      EveryValidAll(data.value.elems, columns);
    }
  }

  /** A missing or falsy body is refused first; a scalar body is refused as a format error. */
  lemma CpiDataRefused(data: Option<Json>, columns: seq<string>)
    ensures !Present(data) ==> CheckCpiData(data, columns) == Fail(NoData)
    ensures Present(data) && !data.value.JArr? && !data.value.JObj? ==>
      CheckCpiData(data, columns) == Fail(InvalidFormat)
  {
  }

  /** The check throws only on an array with a null element reached before any invalid one. */
  lemma CpiDataThrows(data: Option<Json>, columns: seq<string>)
    ensures CheckCpiData(data, columns) == Throws <==>
      data.Some? && data.value.JArr? && |columns| > 0 &&
      exists k :: 0 <= k < |data.value.elems| && data.value.elems[k].JNull? &&
        forall j :: 0 <= j < k ==> HasColumns(data.value.elems[j], columns)
  {
    if data.Some? && data.value.JArr? {
      EveryValidThrows(data.value.elems, columns);
    }
  }

  // ---------------------------------------------------------------------------
  // Survey votes

  const Base := "base"
  const Premium := "premium"
  const NoneChoice := "none"

  /** `['base', 'premium'].includes(before)` */
  predicate BeforeChoice(v: Json) {
    v == JStr(Base) || v == JStr(Premium)
  }

  /** `['base', 'premium', 'none'].includes(after)` */
  predicate AfterChoice(v: Json) {
    v == JStr(Base) || v == JStr(Premium) || v == JStr(NoneChoice)
  }

  /** `data.id == undefined || !data.id || data.before == undefined || data.after == undefined` */
  predicate FieldsMissing(d: Json) {
    Nullish(Field(d, "id")) || !Truthy(Field(d, "id").value) ||
    Nullish(Field(d, "before")) || Nullish(Field(d, "after"))
  }

  /** `checkSurveyData`: the checks in order, each with its own message. */
  function CheckSurveyData(data: Option<Json>): (r: Verdict)
    ensures r != Throws
    ensures r == Pass ==>
      data.Some? && data.value.JObj? &&
      "id" in data.value.fields && "before" in data.value.fields && "after" in data.value.fields
    ensures r.Fail? ==> r.msg in {NoData, MissingFields, BadBefore, BadAfter}
  {
    if !Present(data) then Fail(NoData)
    else if FieldsMissing(data.value) then Fail(MissingFields)
    else if !BeforeChoice(data.value.fields["before"]) then Fail(BadBefore)
    else if !AfterChoice(data.value.fields["after"]) then Fail(BadAfter)
    else Pass
  }

  /** `data.before + '_' + data.after`: the counter column a vote increments. */
  function Column(before: string, after: string): (r: string)
    ensures |r| == |before| + 1 + |after|
    ensures r[..|before|] == before && r[|before|] == '_' && r[|before| + 1..] == after
  {
    before + "_" + after
  }

  /** A vote passes exactly when it is an object with a truthy id and admissible choices. */
  lemma SurveyDataPass(data: Option<Json>)
    ensures CheckSurveyData(data) == Pass <==>
      && data.Some? && data.value.JObj?
      && "id" in data.value.fields && Truthy(data.value.fields["id"])
      && "before" in data.value.fields && BeforeChoice(data.value.fields["before"])
      && "after" in data.value.fields && AfterChoice(data.value.fields["after"])
  {
  }

  /** The failing checks, in the order the source runs them. */
  lemma SurveyDataFailures(data: Option<Json>)
    ensures !Present(data) ==> CheckSurveyData(data) == Fail(NoData)
    ensures Present(data) && FieldsMissing(data.value) ==> CheckSurveyData(data) == Fail(MissingFields)
    ensures (Present(data) && data.value.JObj? && !FieldsMissing(data.value) &&
             !BeforeChoice(data.value.fields["before"])) ==>
      CheckSurveyData(data) == Fail(BadBefore)
    ensures (Present(data) && data.value.JObj? && !FieldsMissing(data.value) &&
             BeforeChoice(data.value.fields["before"]) && !AfterChoice(data.value.fields["after"])) ==>
      CheckSurveyData(data) == Fail(BadAfter)
  {
  }

  /** An accepted vote names one of the six counter columns, and different votes name different columns. */
  lemma VoteColumn(b1: string, a1: string, b2: string, a2: string)
    requires BeforeChoice(JStr(b1)) && AfterChoice(JStr(a1))
    requires BeforeChoice(JStr(b2)) && AfterChoice(JStr(a2))
    ensures Column(b1, a1) == Column(b2, a2) <==> b1 == b2 && a1 == a2
  {
    var c1, c2 := Column(b1, a1), Column(b2, a2);
    if c1 == c2 {
      // The separator sits right after the first choice: position 4 for `base`, 7 for `premium`.
      assert c1[4] == (if b1 == Base then '_' else Premium[4]);
      assert c2[4] == (if b2 == Base then '_' else Premium[4]);
      assert b1 == b2;
      assert a1 == c1[|b1| + 1..];
      assert a2 == c2[|b2| + 1..];
    }
  }

  /** The six counter columns of the survey tables. */
  const CounterColumns: set<string> :=
    {"base_base", "base_premium", "base_none", "premium_base", "premium_premium", "premium_none"}

  /** An accepted vote names one of the six counter columns. */
  lemma VoteColumnIsCounter(before: string, after: string)
    requires BeforeChoice(JStr(before)) && AfterChoice(JStr(after))
    ensures Column(before, after) in CounterColumns
  {
    if before == Base {
      if after == Base { assert Column(before, after) == "base_base"; }
      else if after == Premium { assert Column(before, after) == "base_premium"; }
      else { assert Column(before, after) == "base_none"; }
    } else {
      if after == Base { assert Column(before, after) == "premium_base"; }
      else if after == Premium { assert Column(before, after) == "premium_premium"; }
      else { assert Column(before, after) == "premium_none"; }
    }
  }
}
