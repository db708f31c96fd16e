/**
 * The request dispatch of the `consumer-price-index-api` function: the CORS
 * preflight, the GET table and mode switch, and the POST path that checks
 * authorization before it looks at the table. Handlers that query or write
 * the database are named by an `Action`; their query-independent logic is in
 * the modules `LiveRange`, `CpiHandler` and `SurveySelect`.
 */
module Routing {

  import opened Maybe
  import opened Http
  import opened JsValue
  import opened Validators

  datatype Request = Request(
    verb: string,
    table: Option<string>,
    mode: Option<string>,
    authorization: Option<string>,
    body: Option<Json>)

  /** What the handler goes on to do with the database. */
  datatype Action =
    | RunMostRecentDate
    | RunCpiSelect
    | RunLive
    | RunSurveySelect
    | UpsertCpi(data: Json)
    | CountVote(table: string, id: Json, column: string)

  /**
   * The outcome of dispatch: a response sent without touching the database,
   * an action, an exception escaping the dispatch itself, or no response at
   * all (a method other than OPTIONS, GET and POST). The select and live
   * handlers an action names can still throw: see `HandleCpiSelect`'s
   * `Crashed` and `HandleLive`'s `Thrown`.
   */
  datatype Dispatch = Respond(response: Response) | Run(action: Action) | Crash | NoResponse

  const CpiTable := "consumer-price-index"
  const SurveyTable := "survey"
  const SurveyTestTable := "survey_test"

  const CpiModeInvalid :=
    "Parameter <i>mode</i> is invalid. Valid modes for table <i>consumer-price-index</i>: " +
    "<i>most-recent-date</i>, <i>select</i>, <i>live</i>"
  const SurveyModeInvalid :=
    "Parameter <i>mode</i> is invalid. Valid modes for table <i>survey</i>: <i>select</i>"
  const TableInvalid :=
    "Parameter <i>table</i> is missing or invalid. " +
    "Valid tables are: <i>consumer-price-index</i>, <i>survey</i>, <i>survey_test</i>"

  /** The columns every consumer-price-index record must carry. */
  const CpiColumns := ["id", "name", "year", "month", "value"]

  predicate IsSurveyTable(table: Option<string>) {
    table == Some(SurveyTable) || table == Some(SurveyTestTable)
  }

  /** `handleGET`: the table, then the mode, select the handler. */
  function RouteGet(table: Option<string>, mode: Option<string>): (r: Dispatch)
    ensures r.Respond? || r.Run?
    ensures r.Run? ==> (table == Some(CpiTable) || IsSurveyTable(table)) && mode.Some?
    ensures r.Run? ==> !r.action.UpsertCpi? && !r.action.CountVote?
    ensures r.Respond? ==> r.response.status in {Ok, BadRequest}
  {
    if table == Some(CpiTable) then
      if mode == Some("most-recent-date") then Run(RunMostRecentDate)
      else if mode == Some("select") then Run(RunCpiSelect)
      else if mode == Some("live") then Run(RunLive)
      else Respond(Response(BadRequest, CpiModeInvalid))
    else if IsSurveyTable(table) then
      if mode == Some("select") then Run(RunSurveySelect)
      else Respond(Response(Ok, SurveyModeInvalid))
    else Respond(Response(BadRequest, TableInvalid))
  }

  /** `updateConsumerPriceIndex` up to the insert. */
  function UpdateCpi(body: Option<Json>): (r: Dispatch)
    ensures r.Run? <==> CheckCpiData(body, CpiColumns) == Pass
    ensures r.Crash? <==> CheckCpiData(body, CpiColumns) == Throws
    ensures r.Run? ==> r.action == UpsertCpi(body.value)
    ensures r.Respond? ==> r.response == Response(BadRequest, CheckCpiData(body, CpiColumns).msg)
  {
    match CheckCpiData(body, CpiColumns)
    case Throws => Crash
    case Fail(msg) => Respond(Response(BadRequest, msg))
    case Pass => Run(UpsertCpi(body.value))
  }

  /** `updateSurvey` up to the upsert: the vote increments column `before_after` of row `id`. */
  function UpdateSurvey(table: string, body: Option<Json>): (r: Dispatch)
    ensures r.Run? || r.Respond?
    ensures r.Run? <==> CheckSurveyData(body) == Pass
    ensures r.Run? ==> r.action.CountVote? && r.action.table == table && r.action.column in CounterColumns
    ensures r.Run? ==>
      && body.Some? && body.value.JObj? && "id" in body.value.fields
      && "before" in body.value.fields && body.value.fields["before"].JStr?
      && "after" in body.value.fields && body.value.fields["after"].JStr?
      && r.action == CountVote(table, body.value.fields["id"],
                               Column(body.value.fields["before"].s, body.value.fields["after"].s))
    ensures r.Respond? ==> r.response == Response(BadRequest, CheckSurveyData(body).msg)
  {
    match CheckSurveyData(body)
    case Throws => Crash
    case Fail(msg) => Respond(Response(BadRequest, msg))
    case Pass =>
      var fields := body.value.fields;
      SurveyDataPass(body);
      VoteColumnIsCounter(fields["before"].s, fields["after"].s);
      Run(CountVote(table, fields["id"], Column(fields["before"].s, fields["after"].s)))
  }

  /** `handlePOST`: authorization first, then the table. */
  function RoutePost(req: Request, secret: Option<string>): (r: Dispatch)
    ensures r.Crash? <==>
      Authorize(req.authorization, secret) == Throws ||
      (Authorize(req.authorization, secret) == Pass && req.table == Some(CpiTable) &&
       CheckCpiData(req.body, CpiColumns) == Throws)
    ensures Authorize(req.authorization, secret).Fail? ==>
      r == Respond(Response(Unauthorized, Authorize(req.authorization, secret).msg))
    ensures r.Run? ==> Authorize(req.authorization, secret) == Pass
  {
    match Authorize(req.authorization, secret)
    case Throws => Crash
    case Fail(msg) => Respond(Response(Unauthorized, msg))
    case Pass =>
      if req.table == Some(CpiTable) then UpdateCpi(req.body)
      else if IsSurveyTable(req.table) then UpdateSurvey(req.table.value, req.body)
      else Respond(Response(BadRequest, TableInvalid))
  }

  /** The function's entry point; `secret` is the configured API secret. */
  function Route(req: Request, secret: Option<string>): (r: Dispatch)
    ensures r == Respond(Response(NoContent, "")) <==> req.verb == "OPTIONS"
    ensures r.NoResponse? <==> req.verb !in {"OPTIONS", "GET", "POST"}
    ensures r.Crash? ==> req.verb == "POST"
  {
    if req.verb == "OPTIONS" then Respond(Response(NoContent, ""))
    else if req.verb == "GET" then RouteGet(req.table, req.mode)
    else if req.verb == "POST" then RoutePost(req, secret)
    else NoResponse
  }

  predicate Writes(d: Dispatch) {
    d.Run? && (d.action.UpsertCpi? || d.action.CountVote?)
  }

  // ---------------------------------------------------------------------------
  // Properties of the dispatch

  /** A preflight request is answered with 204 whatever else it carries. */
  lemma PreflightAnswered(req: Request, secret: Option<string>)
    requires req.verb == "OPTIONS"
    ensures Route(req, secret) == Respond(Response(NoContent, ""))
  {
  }

  /** A survey table asked for an unknown mode answers 200, not 400. */
  lemma SurveyBadModeIsOk(table: Option<string>, mode: Option<string>)
    requires IsSurveyTable(table) && mode != Some("select")
    ensures RouteGet(table, mode) == Respond(Response(Ok, SurveyModeInvalid))
  {
  }

  /**
   * A GET never writes and its dispatch never throws (the select and live
   * handlers it names may), and it answers 400 exactly on an unknown table or
   * an unknown mode of the price table.
   */
  lemma GetNeverWrites(table: Option<string>, mode: Option<string>)
    ensures !Writes(RouteGet(table, mode)) && !RouteGet(table, mode).Crash?
    ensures RouteGet(table, mode).Respond? && RouteGet(table, mode).response.status == BadRequest <==>
      !IsSurveyTable(table) &&
      (table != Some(CpiTable) || mode !in {Some("most-recent-date"), Some("select"), Some("live")})
  {
  }

  /** Authorization is checked before the table: a refused token gets 401 whatever the table and body. */
  lemma AuthorizationFirst(req: Request, secret: Option<string>)
    requires req.verb == "POST"
    requires Authorize(req.authorization, secret).Fail?
    ensures Route(req, secret) == Respond(Response(Unauthorized, Authorize(req.authorization, secret).msg))
  {
  }

  /** A write happens only on an authorized POST to a known table whose body passed its check. */
  lemma WritesAreChecked(req: Request, secret: Option<string>)
    requires Writes(Route(req, secret))
    ensures req.verb == "POST" && Authorize(req.authorization, secret) == Pass
    ensures Route(req, secret).action.UpsertCpi? ==>
      req.table == Some(CpiTable) && CheckCpiData(req.body, CpiColumns) == Pass
    ensures Route(req, secret).action.CountVote? ==>
      IsSurveyTable(req.table) && CheckSurveyData(req.body) == Pass &&
      Route(req, secret).action.table == req.table.value
  {
  }

  /** A counted vote increments one of the six counter columns of the survey tables. */
  lemma CountedColumn(table: string, body: Option<Json>)
    requires UpdateSurvey(table, body).Run?
    ensures UpdateSurvey(table, body).action.column in CounterColumns
  {
    SurveyDataPass(body);
    var fields := body.value.fields;
    VoteColumnIsCounter(fields["before"].s, fields["after"].s);
  }

  /** Every response sent without the database has one of the four statuses of the function. */
  lemma StatusCodes(req: Request, secret: Option<string>)
    requires Route(req, secret).Respond?
    ensures Route(req, secret).response.status in {Ok, NoContent, BadRequest, Unauthorized}
  {
  }
}
