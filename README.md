# consumer-price-index-api: a Dafny model of the request logic

`index.js` is one HTTP cloud function. It serves two kinds of tables:

- the consumer-price-index table: the latest record, a filtered select, and a "live" month range;
- the survey tables (`survey`, `survey_test`): a select that zero-fills products nobody has voted on.

It also accepts authorized POSTs that upsert price records or count survey votes.

This project models the parts of that function that do not depend on the database, each in the form the JavaScript has:

- **Date tokens** (`DateToken`). This is the unanchored `/(\d{4})-(\d{2})/` match with unary `+` on the groups, so `"0018"` reads as 18. It also covers the `YYYY-MM` formatting with the month padded to two digits. Formatting then parsing gives back the year and month for four-digit years (1000..9999) and a month in 0..99; the token of a year with fewer digits does not match the pattern.
- **The filter builder of `getCPISelect`** (`CpiSelect`). It is an imperative method whose loop grows the condition string and the bind-value list.
  - It is specified by the functions `Condition`, `Inserts` and `SelectSql`.
  - Proved about them:
    - the placeholder count equals the number of bind values;
    - the bind values are the id list followed by one (year, month) pair per matching token;
    - `LIMIT 10` appears exactly when nothing filters;
    - the quirks are kept: the ` OR ` separator depends on the loop index alone, and a token with no match is silently dropped.
- **The `live` mode** (`LiveRange`). First-of-month `Date` values are represented by the month index `year * 12 + month - 1`.
  - `HandleLive` answers one of its three 400 messages, in the source's order, or returns the month tokens.
  - The tokens come from the `while` loop of `ExpandMonths`, proved against the predicate `MonthsFrom`.
  - The reference date goes through `DateYear`, because `new Date(y, ...)` reads years 0 to 99 as 1900 to 1999.
- **The `most-recent` sentinel** (`MostRecent`). The in-place overwrite loop works on an `array<string>` and is proved against `Substituted`. Lemmas cover length, per-element behaviour, that no sentinel is left, and idempotence.
- **The handler glue of the select and live modes** (`CpiHandler`, `QueryList`).
  - The comma split of the query values is covered, with `Join(Split(s)) == s`.
  - An absent `dates` value throws.
  - The live tokens reach the builder as one (year, month) pair per month.
- **The survey select** (`SurveySelect`). The zero-fill loop is proved against `ZeroFilled`. Every requested id is proved to appear in the answer. That no other id appears holds when the database's `IN` matches ids exactly (see "## Left out").
- **The POST validators** (`Validators`).
  - `authorize` models the unanchored `Bearer (.*)` match, including the exception on a bare `Bearer` header.
  - `checkCpiData` models the exception on a `null` array element, reached before any invalid element.
  - `checkSurveyData` has its four messages in order, and the `before_after` counter column.
- **Dispatch** (`Routing`). This covers the preflight answer, the GET table and mode switch, and the POST path, where authorization comes before the table.

Exceptions are outcomes (`Throws`, `Crashed`, `Thrown`, `Crash`), not preconditions.

## Model

| member | source | states |
|---|---|---|
| DateToken.ParseDate | index.js:59 | no match exactly when no position starts four digits, `-`, two digits; otherwise the fields of the leftmost match, year below 10000 and month below 100 |
| DateToken.FindMatch | index.js:146 | the first match position at or after `from`, with no match before it, or none at all |
| DateToken.MatchFields | index.js:154 | the two groups read with unary `+` are a year in 0..9999 and a month in 0..99 |
| DateToken.DigitsValueBound | index.js:64 | a k-digit group denotes a number below 10^k |
| DateToken.NatToStringValue | index.js:125 | reading back the digits of `n.toString()` gives n |
| DateToken.PaddedMonthValue | index.js:125 | `padStart(2, '0')` of a month below 100 is two digits denoting that month |
| DateToken.ParseWellFormed | index.js:59 | four digits, a dash and two digits parse as those two numbers |
| DateToken.FormatToken | index.js:125-126 | the year's digits (or a leading `-`), a dash and the padded month; for a four-digit year and a month below 100, exactly four digits, `-`, two digits |
| DateToken.ParseFormatRoundTrip | index.js:125-126 | a formatted token with a four-digit year and a month in 0..99 parses back to the same year and month |
| CpiSelect.BuildSelect | index.js:44-76 | the loop's condition, statement and bind values equal `Condition`, `SelectSql` and `Inserts` |
| CpiSelect.StepAt | index.js:58-66 | one more visited token extends the condition and the bind values by that token's own piece |
| CpiSelect.InsertsMatchPlaceholders | index.js:47-68 | bind values are `[ids]` (when non-empty) then one (year, month) pair per matching token in order; their number equals the `?` count of the condition |
| CpiSelect.DateInsertsAreMatchedPairs | index.js:58-66 | the loop pushes exactly a year and a month per matching token, in token order |
| CpiSelect.DisjunctionPlaceholders | index.js:58-66 | each matching token writes two placeholders, a non-matching one none |
| CpiSelect.LimitOnlyWithoutFilters | index.js:44-76 | the condition is empty iff neither ids nor dates filter, the statement ends in `LIMIT 10` iff the same, and an empty condition binds nothing |
| CpiSelect.IdsOnly | index.js:47-50 | ids without dates give the single `IN` predicate bound to the whole list |
| CpiSelect.NoTokenMatches | index.js:51-68 | a date list where nothing matches still writes `WHERE ()`, or ` AND ()` after the id predicate, and binds no dates |
| CpiSelect.DanglingOr | index.js:62 | a non-matching first token followed by a matching one leaves `WHERE ( OR year = ? AND month = ?)` |
| CpiSelect.PairBinds | index.js:64 | two bind values per month, year at even and month at odd positions |
| CpiSelect.MatchedAppend | index.js:58-61 | a token appended to the list adds its own reading, if it matches, to the end of the matched months |
| CpiSelect.PairBindsAppend | index.js:64 | the bind values of two month lists are the concatenation of each list's bind values |
| CpiSelect.PlaceholdersAppend | index.js:62-63 | the `?` count of a concatenation is the sum of the parts' counts |
| CpiSelect.IdPredicateMarks | index.js:48 | the id predicate carries one placeholder |
| CpiSelect.DatePredicateMarks | index.js:63 | a date predicate carries two placeholders |
| LiveRange.HandleLive | index.js:141-203 | 400 "is required" when `start-date` is absent or empty; 400 "not a valid date" when it has no match, or its year is below 2018 or its month outside 1..12; an exception without a reference record; 400 "lies in the future" when the reference month index is below the start's; otherwise every month token from start to reference month, in order |
| LiveRange.DateIndex | index.js:179-184 | the month index of `new Date(year, month - 1, 1)` for years inside the Date range: years 0..99 are read as 1900..1999, others as given |
| LiveRange.ExpandMonths | index.js:193-203 | the loop yields `last - first + 1` tokens (none when the start is later), token k being month `first + k` |
| LiveRange.NextMonth | index.js:171-177 | the next month stays in 1..12 and has index one more; December rolls into January of the next year |
| LiveRange.IndexRoundTrip | index.js:179 | the month index of a year and a month in 1..12 gives back that year and month |
| LiveRange.TokenAtIndex | index.js:200-201 | the token of a month's index is that month's `YYYY-MM` token |
| LiveRange.MonthsFromAppend | index.js:201 | pushing the token of the next month keeps the list consecutive from the start month |
| LiveRange.RangeLength | index.js:179-203 | the range has `12 * (ey - sy) + (em - sm) + 1` months |
| LiveRange.RangeEnds | index.js:194-201 | the first token is the start month's and the last the reference month's |
| LiveRange.ConsecutiveMonths | index.js:171-177 | consecutive indices are consecutive months under `getNextMonth` |
| LiveRange.MonthTokenParses | index.js:200-201 | every token of a four-digit-year range parses back as its own year and month |
| MostRecent.SubstituteSentinels | index.js:123-128 | the array afterwards is `Substituted` of its old contents |
| MostRecent.ResolveDates | index.js:121-129 | without a sentinel nothing changes; with one and no reference record it throws and nothing changes; otherwise every sentinel is resolved |
| MostRecent.SubstitutedAt | index.js:123-127 | same length; a sentinel becomes the reference `YYYY-MM` token, every other element is kept |
| MostRecent.SubstitutedLength | index.js:123 | the substitution keeps the length of the list |
| MostRecent.NoSentinelLeft | index.js:121-129 | no `most-recent` survives the substitution |
| MostRecent.FormatTokenIsNotSentinel | index.js:126 | a formatted token is never the sentinel |
| MostRecent.SubstituteIdempotent | index.js:121-129 | substituting twice is substituting once |
| QueryList.Split | index.js:118-119 | `split(',')` always yields at least one part |
| QueryList.JoinSplit | index.js:118-119 | joining the parts with commas gives back the query value |
| QueryList.JoinExtendLast | index.js:118-119 | a character appended to the last part is appended to the joined text |
| QueryList.SplitPartsHaveNoComma | index.js:118-119 | no part holds a comma |
| QueryList.SplitCount | index.js:118-119 | there is one part more than there are commas |
| CpiHandler.ListParam | index.js:118-119 | an absent or empty value gives no list; otherwise the parts, which join back to the value |
| CpiHandler.HandleCpiSelect | index.js:115-131 | an absent `dates` throws; a sentinel without a reference record throws; otherwise the statement and bind values of the builder on the split ids and the resolved dates |
| CpiHandler.MatchedWhenAllParse | index.js:58-61 | when every token matches, the matched months are the tokens' readings, one each, in order |
| CpiHandler.LiveRangeBinds | index.js:193-205 | for ranges within four-digit years, the live tokens reach the builder as the id list then one (year, month) pair per month of the range, in order |
| SurveySelect.FetchedIds | index.js:225 | the ids of the fetched rows, position by position |
| SurveySelect.MissingIds | index.js:226 | at most as many ids as requested, each requested and not fetched |
| SurveySelect.ZeroFill | index.js:225-239 | the fetched rows unchanged as a prefix, then one zero row per missing id in request order |
| SurveySelect.MissingIdsMembers | index.js:226 | an id is missing iff it was requested and not fetched |
| SurveySelect.MissingIdsCount | index.js:226 | a missing id occurs as often as it was requested (duplicates kept), a fetched one never |
| SurveySelect.EveryRequestedIdPresent | index.js:225-239 | every requested id has a row in the result |
| SurveySelect.AddedRowsAreZero | index.js:229-238 | every appended row has all six counters 0 and a requested, unfetched id |
| SurveySelect.RowsWithIds | index.js:222-223 | the stored rows whose id was requested, and all of them |
| SurveySelect.HandleSurveySelect | index.js:209-241 | no id list answers every row; otherwise the zero-filled rows for the requested ids |
| SurveySelect.AnswerIds | index.js:222-241 | the ids in the answer are exactly the requested ids |
| Validators.FindBearer | index.js:300 | the first `Bearer ` at or after `from`, none before it, or none at all |
| Validators.RestOfLine | index.js:300 | `(.*)` captures the longest run holding no line terminator |
| Validators.TokenToEnd | index.js:300 | on a text without line terminators `(.*)` captures the rest of the text |
| Validators.Authorize | index.js:293-306 | "No bearer token provided" iff the header is absent or does not start with `Bearer`; throws iff it does but holds no `Bearer ` anywhere; "Token invalid" iff it has the prefix and the secret differs from the line after the leftmost `Bearer `; no other failure message |
| Validators.BearerToken | index.js:293-306 | `Bearer <token>` on one line passes iff the secret is the token, otherwise "Token invalid" |
| Validators.NoBearerPrefix | index.js:296-298 | a missing header, or one not starting with `Bearer`, fails with "No bearer token provided" |
| Validators.BareBearerThrows | index.js:296-300 | the header `Bearer` alone passes the prefix test and then throws |
| Validators.UnanchoredToken | index.js:300 | the token is read after the first `Bearer ` anywhere in the header |
| Validators.AuthorizePass | index.js:293-306 | authorization passes iff the header starts with `Bearer`, holds a `Bearer ` match, and the secret is the line after the leftmost one |
| Validators.EveryValid | index.js:311-316 | `every(isValid)`: false only if some element misses a column; throws only with columns to read and a `null` element |
| Validators.CheckCpiData | index.js:308-322 | "No data provided" iff the body is absent or falsy; other failures are "Invalid data format"; throws only on an array body |
| Validators.EveryValidAll | index.js:311-316 | the element scan passes iff every element has every column |
| Validators.EveryValidThrows | index.js:311-316 | the scan throws iff there are columns and a `null` element comes before any element missing a column |
| Validators.CpiDataPass | index.js:308-322 | a body passes iff it is an object with every column or an array whose elements all have every column |
| Validators.CpiDataRefused | index.js:309-318 | a missing or falsy body fails "No data provided"; a scalar body fails "Invalid data format" |
| Validators.CpiDataThrows | index.js:308-318 | the check throws iff the body is an array with a `null` element reached before any invalid element |
| Validators.CheckSurveyData | index.js:353-385 | never throws; passes only for an object with `id`, `before` and `after`; fails only with one of its four messages |
| Validators.Column | index.js:399 | the `before` text, `_`, then the `after` text |
| Validators.SurveyDataPass | index.js:353-385 | a vote passes iff it is an object with a truthy `id`, `before` in {base, premium} and `after` in {base, premium, none} |
| Validators.SurveyDataFailures | index.js:353-382 | the failure messages in order: no data, missing fields, bad `before`, bad `after` |
| Validators.VoteColumn | index.js:399 | two accepted votes name the same column iff they have the same choices |
| Validators.VoteColumnIsCounter | index.js:399 | an accepted vote's column is one of the six counter columns |
| Routing.Route | index.js:90-438 | 204 with an empty body iff the method is OPTIONS; no response iff the method is not OPTIONS, GET or POST; the dispatch itself throws only on a POST (the select and live handlers a GET names can still throw, as `CpiHandler.HandleCpiSelect` and `LiveRange.HandleLive` state) |
| Routing.RouteGet | index.js:244-287 | a response or a read handler, never a write; a handler only for a known table with a mode; responses are 200 or 400 |
| Routing.RoutePost | index.js:290-434 | a refused token answers 401 with its message; throws iff authorization throws or an authorized price-index body makes the check throw; any handler runs only after authorization passed |
| Routing.UpdateCpi | index.js:324-332 | runs the upsert iff the body check passes, throws iff it throws, otherwise 400 with its message |
| Routing.UpdateSurvey | index.js:387-408 | counts the vote iff the body check passes: row `id` of the request's table, column `before_after` of the body, one of the six counter columns; otherwise 400 with its message |
| Routing.PreflightAnswered | index.js:93-99 | an OPTIONS request gets 204 with an empty body |
| Routing.SurveyBadModeIsOk | index.js:259-271 | a survey table with a mode other than `select` answers 200 with the list of valid modes |
| Routing.GetNeverWrites | index.js:244-287 | a GET never writes and its dispatch never throws (the select and live handlers it names can), and it answers 400 iff the table is unknown or the price table's mode is unknown |
| Routing.AuthorizationFirst | index.js:413-418 | a refused POST gets 401 with the refusal message whatever its table and body |
| Routing.WritesAreChecked | index.js:413-433 | a write happens only on an authorized POST to a known table whose body passed its check |
| Routing.CountedColumn | index.js:398-408 | a counted vote increments one of the six counter columns |
| Routing.StatusCodes | index.js:90-438 | every response sent without the database is 200, 204, 400 or 401 |

## Left out

- The database: the pool, every `pool.query` and the upserts (`ON DUPLICATE KEY UPDATE`). The statement builders stop at the statement and its bind values; the dispatch stops at an `Action`. The stored survey rows and the reference record are parameters.
- `getMostRecentDate` and the `most-recent-date` mode: both are one database query. The reference month is an input (`Option<YearMonth>`; `None` when the table holds no record of the reference series `CC13-0111101100`).
- `pool.escapeId` and `decodeURIComponent`: query values are taken as already decoded. A malformed percent sequence, which makes `decodeURIComponent` throw, is not modelled.
- The CORS and `Cache-Control` headers and the functions-framework registration. Responses are a status and a body.
- `process.env`: the API secret is the parameter `secret`.
- JavaScript `Date` beyond first-of-month values: month indices replace it, and the reference record's month is assumed to be an integer.
- Query values that Express parses as arrays (a repeated key) or objects: every query value is an optional string.
- JSON numbers are integers in `JsValue`. No validator looks at a fraction.
- JsValue.Field: only an object's own fields answer `v[key]`. Inherited keys (`"ab"["length"]`, `{}["toString"]`) are not modelled. `index.js` reads only `id`, `name`, `year`, `month`, `value`, `before` and `after`, which no JSON value inherits.
- The 500 answer on a failed insert: it comes from the database.
- SurveySelect.RowsWithIds: returns rows in table order; the database promises no order.
- SurveySelect.RowsWithIds: matches ids by exact string equality. The database's `IN` compares by the column's collation, which may ignore case and trailing spaces. A stored `ABC` then answers a request for `abc`, and the answer also gets a zero row for `abc`. The "no other id" half of `SurveySelect.AnswerIds` holds only under exact matching.
- The `ids.length === 0` test of `handleSurveySelect` is unreachable, because `split` always yields at least one part. `HandleSurveySelect` tests only for an absent or empty value.
- `index.js` has no added/removed event counter aggregation, so none is modelled.
- LiveRange.DateIndex: does not model the Invalid Date that `new Date` gives beyond about 275,760 years from 1970. For such a reference year `getTime()` is NaN and neither the future test (index.js:186) nor the loop test (index.js:199) holds, so the source queries with an empty date list (the id query, or `LIMIT 10`). `HandleLive` instead expands the range month by month.
- LiveRange.HandleLive: `DateIndex` maps reference years 0..99 to 1900..1999, as `new Date` does. Start years are at least 2018 and never hit this rule.
