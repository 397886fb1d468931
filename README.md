# SpecScansService core in Dafny

This project models the sequential core of the SpecScans service: the part of the
service that stores the motor positions of SPEC scans and joins them with the scan
metadata held in a document store.

The modules are:

- **Dynamic** (`dynamic.dfy`). Go's `any` values as a JSON decoder produces them
  (`Val`). Go maps, read as sequences of (key, value) pairs in one fixed
  iteration order, with `IndexOf` and `Lookup`. A `Fold` for `for ... range`
  loops that may panic.
- **MotorQuery** (`motor_query.dfy`). `translateQuery` and
  `translatePositionQuery`. They turn a user filter keyed by `"motors"` or
  `"motors.<mne>"` into a `MotorsDbQuery` of `MotorPositionQuery{Mne, Exact, Min, Max}`.
  The module also holds the queries built by `QueryMotorPosition` and
  `GetMotorRecords`.
- **MotorStore** (`motor_store.dfy`). The three tables `ScanIds`, `MotorMnes` and
  `MotorPositions`, with their auto-increment counters and the `UNIQUE` sid.
  `MotorsDb` is a class holding the tables as fields. Its `InsertMotors` runs the
  inserts on a transaction's copy of the tables, and commits the copy or discards it.
- **MotorRows** (`motor_rows.dfy`). `parseMotorRecords` and `parseMotorRecord`.
  They turn grouped result rows (a sid and two comma-joined lists) back into
  `MotorRecord`s. The module includes `strings.Split` and a map put.
- **Records** (`records.dfy`). `DecomposeRecord`, `CompleteRecord`,
  `getIntersectionRecords`, `CompleteMongoRecords` and `CompleteMotorRecords`.
  The motor store and the document store are function parameters.
- **WebServer** (`web_server.dfy`). `getPath` of the legacy web front end, with a
  corrected version.
- **WebAuth** (`web_auth.dfy`). `getUsername` and the `auth-session` cookie value it
  inverts.

How Go constructs are represented:

- A Go panic (a failed type assertion, an index out of range) is the `Panic` case
  of `Outcome`.
- Go's `(value, error)` pairs are `Result`. Where both halves are meaningful, they
  are `Insertion` or `Completed`.
- Loops that update local state are Dafny methods. Each method is proved equal to
  a specification function, and the properties are proved about those functions.

## Model

| member | source | states |
|---|---|---|
| MotorQuery.TranslateQuery | motorsdb.go:111-131 | the consolidating loop and the translating loop compute exactly `TranslatedQuery`, including its panics |
| MotorQuery.TranslatePositionQuery | motorsdb.go:133-168 | the type switch, the entry loop and the operator loop compute exactly `TranslatedPositionQuery` |
| MotorQuery.ApplyOperators | motorsdb.go:150-163 | the loop over an operator object is the fold of one operator step per entry |
| MotorQuery.AppendFloats | motorsdb.go:144-147 | appending a `[]any` to Exact appends its float64 elements in order, and panics when any element is not a float64 |
| MotorQuery.TranslatedQueryOneKey | motorsdb.go:116-130 | `"motors"` with a non-map value panics; `"motors"` gives one query per nested key, named after that key; any other key gives exactly one query, named after the key with a leading `"motors."` removed; Sids stays empty |
| MotorQuery.TranslatedEntriesPerEntry | motorsdb.go:127-129 | each consolidated entry becomes exactly one position query, in order; the result panics iff one entry's translation panics |
| MotorQuery.TranslatedQueryAppend | motorsdb.go:117-129 | a filter with more keys appends the queries of the new keys, so every key is translated on its own |
| MotorQuery.ConsolidateFrom | motorsdb.go:117-126 | the consolidating loop only appends to what it has gathered |
| MotorQuery.TranslateFrom | motorsdb.go:127-129 | the translating loop only appends to what it has gathered |
| MotorQuery.TranslateNumber | motorsdb.go:142-143 | a numeric value gives `Exact == [v]` with Min and Max left at 0 |
| MotorQuery.TranslateFloat32 | motorsdb.go:142-143 | a float32 value passes the type switch and then fails the float64 assertion |
| MotorQuery.TranslateList | motorsdb.go:144-147 | a list value gives `Exact` equal to its elements in order, with both bounds 0, and panics on a non-float64 element |
| MotorQuery.TranslateString | motorsdb.go:136-137 | a bare string sets only Mne; Exact is empty and both bounds are 0 |
| MotorQuery.EntryMne | motorsdb.go:139-140 | a one-entry map query is named after its key |
| MotorQuery.OpsKeepMne | motorsdb.go:151-163 | operators never change Mne |
| MotorQuery.OperatorsPanicIff | motorsdb.go:151-163 | an operator object panics iff a recognised operator has an operand of the wrong type |
| MotorQuery.OperatorsCompose | motorsdb.go:151-163 | `$gt` sets Min, `$lt` sets Max, `$eq` replaces Exact with `[v]`, and `$in` appends to Exact; together they compose into one query |
| MotorQuery.OperatorObjectTranslation | motorsdb.go:150-163 | an operator object under a mnemonic composes from an empty Exact and zero bounds |
| MotorQuery.UnknownOperatorIgnored | motorsdb.go:151-162 | an unrecognised operator key changes nothing, wherever it stands |
| MotorQuery.QueryMotorPositionIsTranslated | motorsdb.go:86-96 | QueryMotorPosition builds the same query as the filter `{"motors.<mne>": pos}` |
| MotorQuery.TranslateQueryMixedKeys | motorsdb_test.go:153-166 | a `"motors"` map next to a `"motors.mne1"` key gives the two queries the test expects |
| MotorQuery.TranslateQueryComposedOperators | motorsdb_test.go:233-248 | `$gt`, `$lt` and `$in` on one motor give the single query the test expects |
| MotorStore.MotorsDb.constructor | motorsdb_test.go:22-37 | the tables start empty, with both counters at 1 |
| MotorStore.MotorsDb.InsertMotors | motorsdb.go:45-84 | the new state of the tables, the returned id and the error are exactly `Insert` of the old state; the table invariants are kept |
| MotorStore.InsertOutcome | motorsdb.go:50-59 | the insert fails iff the sid is already stored; it then returns -1 and leaves every table and counter unchanged; on success it returns an id no ScanIds row had |
| MotorStore.InsertKeepsOldRows | motorsdb.go:55-81 | earlier rows stay in place. A successful insert adds one ScanIds row holding the new id and the sid. It adds one MotorMnes row per motor, carrying the new id and the motor's name. It adds one MotorPositions row per motor, holding the position under that motor's MotorMnes id |
| MotorStore.InsertKeepsConsistent | motorsdb.go:55-81 | auto-increment ids stay strictly increasing, and every MotorMnes and MotorPositions row refers to an existing row |
| MotorStore.InsertRowCounts | motorsdb_test.go:104-133 | after a successful insert: one ScanIds row has the sid; `len(Motors)` MotorMnes rows have the new scan_id; the join finds `len(Motors)` MotorPositions rows |
| MotorStore.JoinCountAfterInsert | motorsdb_test.go:124 | the MotorPositions–MotorMnes join finds exactly one row per new position and none of the earlier rows |
| MotorStore.CountSidZero | motorsdb_test.go:107 | no row holds the sid iff the count of its rows is 0 |
| MotorStore.InsertMotorsScenario | motorsdb_test.go:47-101 | on fresh tables the test's three inserts return 1, then -1 with the UNIQUE error, then 2 |
| MotorRows.ParseMotorRecord | motorsdb.go:203-220 | the loop computes exactly `ParsedRecord`: the zero record for a failed Scan, a panic for too few positions, otherwise the zipped map |
| MotorRows.ParseMotorRecords | motorsdb.go:188-201 | the loop computes exactly `ParsedRecords` |
| MotorRows.ParsedRecordMeaning | motorsdb.go:212-217 | a row panics iff it has fewer positions than mnemonics. Otherwise the record has the row's sid, and its map holds exactly the row's mnemonics, each bound to the parsed position at its last occurrence |
| MotorRows.ParseGroupedRow | motorsdb.go:212-217 | comma-joined lists of equal length, without commas inside items or repeated mnemonics, parse to each mnemonic bound to its own position |
| MotorRows.ParsedRecords | motorsdb.go:188-201 | the result always holds at least one record and with rows is one record per row |
| MotorRows.ParsedNoRows | motorsdb.go:193-195 | with no rows the result is one zero-valued MotorRecord |
| MotorRows.ParsedAll | motorsdb.go:196-199 | the loop over the rows panics iff some row's parse panics; otherwise it gives one record per row, in order |
| MotorRows.Split | motorsdb.go:212-213 | strings.Split gives at least one piece, and none contains the separator |
| MotorRows.SplitJoin | motorsdb.go:212-213 | joining the pieces of a split gives back the string |
| MotorRows.JoinSplit | motorsdb.go:212-213 | splitting a join of separator-free pieces gives back the pieces |
| MotorRows.Put | motorsdb.go:216 | a map assignment binds the key to the value, leaves every other key as it was, and keeps keys distinct |
| MotorRows.AssignedLookup | motorsdb.go:214-217 | after the loop each mnemonic is bound to the position of its last occurrence; other keys keep their old values |
| Records.DecomposeRecord | record.go:62-90 | both portions get the same sid: the start time when ScanId >= 0, the clock-derived value otherwise; the motor portion's Motors are the submitted Motors |
| Records.CompleteRecord | record.go:93-111 | ScanId comes from the document portion and Motors from the motor portion |
| Records.DecomposeThenComplete | record.go:62-111 | completing a decomposed record gives the submitted record, with only ScanId replaced by the derived sid |
| Records.DecomposeThenCompleteIdentity | record.go:62-111 | the round trip is the identity when ScanId >= 0 and ScanId equals StartTime |
| Records.DecomposeIgnoresSubmittedSid | record.go:64-69 | for ScanId >= 0 the submitted ScanId has no effect on either portion |
| Records.CompleteIgnoresMotorSid | record.go:93-110 | the motor portion's ScanId is not read |
| Records.CompleteThenDecompose | record.go:62-111 | decomposing a completed record gives back its document portion, and its Motors under that sid |
| Records.GetIntersectionRecords | record.go:168-178 | the nested loops compute exactly `Joined` |
| Records.AppendPairs | record.go:171-175 | the inner loop appends to what was collected so far exactly the completions of one document record with its equal-sid motor records, in motor order |
| Records.JoinedMembers | record.go:170-176 | a record is in the join iff it completes some document record with some motor record of equal sid |
| Records.JoinedSidsInBoth | record.go:165-178 | every output sid occurs among the document records and among the motor records |
| Records.JoinedAppend | record.go:170 | output is document-major: the join over `a + b` is the join over `a`, then over `b` |
| Records.PairsAppend | record.go:171 | within one document record, the output follows the motor records' order |
| Records.PairsMembers | record.go:171-175 | one document record's outputs are exactly its completions with equal-sid motor records |
| Records.CompleteMongoRecords | record.go:114-135 | the sid loop, the store call and the join compute exactly `MongoCompleted` |
| Records.MongoCompletedEmpty | record.go:116-118 | empty input gives empty output, whatever the motor store would answer |
| Records.MongoCompletedMeaning | record.go:119-134 | the motor store receives the query GetMotorRecords builds (motorsdb.go:98-100): exactly the input sids, in order, and no position constraint; its error is returned with no records; otherwise every equal-sid pair is completed |
| Records.MongoCompletedAsksOnce | record.go:123 | the result depends only on the store's answer to that one sid query |
| Records.SidsOf | record.go:119-122 | the sids of the records, one per record, in order; used for the document records here and the motor records at record.go:143-146 |
| Records.CompleteMotorRecords | record.go:138-163 | the sid loop, the document query and the loops with `break` compute exactly `MotorCompleted` |
| Records.MotorCompletedEmpty | record.go:140-142 | empty input gives empty output without a document query |
| Records.MotorCompleted | record.go:149-161 | at most one output per returned document record |
| Records.SidQueryMeaning | record.go:147 | the document filter is `{"sid": {"$in": sids}}` with exactly the motor records' sids, in order |
| Records.FirstMatchMeaning | record.go:155-160 | no output iff no motor record has the sid; otherwise the document record is completed with the first motor record of its sid |
| Records.MatchedAllDecoded | record.go:149-161 | when every document decodes, there is no error, and the outputs are exactly the documents' first matches |
| Records.MatchedStopsAtError | record.go:150-154 | the first decode error ends the loop, returning that error and the records completed before it |
| WebServer.GetPath | web/server.go:43-54 | with an empty base the result is `api`; with a non-empty base the result starts with `/` and with the base given a leading `/` |
| WebServer.WithLeadingSlash | web/server.go:46-48 | a base lacking a leading `/` gets exactly one prepended; a base with one is unchanged |
| WebServer.GetPathSlashApi | web/server.go:49-53 | with a base, an `api` starting with `/` is appended to the normalised base |
| WebServer.GetPathDropsApi | web/server.go:49-53 | with a base, an `api` without a leading `/` is discarded; the result is normalised base + `/` + normalised base |
| WebServer.GetPathConfusesEndpoints | web/server.go:49-51 | with a base, all endpoints without a leading `/` map to one path |
| WebServer.GetPathExample | web/server.go:43-54 | under base `app`, both `hello` and `world` become `/app//app`, while `/hello` becomes `/app/hello` |
| WebServer.GetPathDoesNotSeparate | web/server.go:49-51 | the as-written getPath maps the different endpoints `hello` and `world` to one path |
| WebServer.GetPathIntended | web/server.go:43-54 | the corrected getPath keeps the empty-base case and the leading `/` |
| WebServer.GetPathIntendedKeepsApi | web/server.go:43-54 | the corrected path is the normalised base followed by the endpoint with its leading `/`, so it ends in the endpoint |
| WebServer.GetPathIntendedSeparates | web/server.go:43-54 | the corrected getPath gives endpoints that differ by more than a leading `/` different paths |
| WebAuth.GetUsername | web/handlers.go:29-44 | test mode gives `"test"`; a missing cookie is net/http's no-cookie error; a value without `-` is the auth-session error; otherwise the result is the prefix before the last `-`, and the rest after that `-` has no `-` |
| WebAuth.LastIndex | web/handlers.go:39 | strings.LastIndex: -1 iff the character is absent, otherwise its last position |
| WebAuth.CookieValue | web/handlers.go:102 | the cookie value starts with the user name followed by `-` |
| WebAuth.UsernameRoundTrip | web/handlers.go:102 | for any user name, including one holding `-`, and either flag, getUsername on the login cookie's value returns the user name |
| WebAuth.CookieValueParts | web/handlers.go:38-43 | a value holding `-` is the result, a `-`, and the rest |

## Left out

- SQL text and execution. `getSqlStatement`, its `query_motorsdb.sql` template and
  the whitespace trim of motorsdb.go:237-240 are left out: the template is not part
  of this model. So are `queryMotorsDb`, `QueryMotorsDb` and the sqlite driver.
  The tables are modelled abstractly, and a query's result rows are the input of
  `ParseMotorRecords`.
- MotorStore.MotorsDb.InsertMotors: does not model failures of `db.Begin`,
  `LastInsertId`, `Commit` or the per-motor `Exec` calls (motorsdb.go:46-49,
  60-64, 67-80, 82). The in-memory tables can only fail on the UNIQUE sid. So the
  `continue` paths, which would skip a MotorMnes or MotorPositions row, never
  happen in the model.
- Go map iteration order is not modelled: a map is one fixed sequence of pairs.
  Properties are stated per entry.
- MotorQuery.OperatorsCompose: requires that `$in` and `$eq` do not both occur in
  one operator object. With both, the outcome depends on Go's iteration order.
  That case is left to the per-step function `OpStep`.
- MotorQuery.OperatorObjectTranslation: has the same requirement as
  `OperatorsCompose`, that `$in` and `$eq` do not both occur in one operator
  object, for the same reason: with both, the outcome depends on Go's iteration
  order.
- `strconv.ParseFloat` is an abstract function parameter `parse` (its error is
  discarded by the source). `parseMotorRecord`'s partial `Scan` failures become a
  whole-row `None`, which yields the zero record.
- A `float64` sid or position is a Dafny `real`: values are only copied and
  compared, and there is no floating-point arithmetic. `float32` filter values are
  a separate `Val` case.
- Records.CompleteMotorRecords: the document store's `mongo.Get` (with its
  database and collection names) is the parameter `getDocs`. `mapstructure.Decode`
  is the possibly failing parameter `decode`, so the struct tags of `UserRecord`
  and `MongoRecord` are not modelled. The `$in` list, a `[]float64` in the source,
  is an `Arr` of `Num` values.
- Records.CompleteMongoRecords: `queryMotorsDb` (the SQL round trip behind
  GetMotorRecords) is the parameter `run`, which is given the query
  `MotorRecordsQuery` builds. GetMotorRecords always returns a nil error
  (motorsdb.go:100), so a `run` that fails covers more cases than the source has.
- Records.DecomposeRecord: `time.Now()` is left out. The value
  `float64(time.Now().UnixNano()) / 1e9` is the parameter `clockSid`.
- The HTTP handlers, Kerberos login, HTML templates, config loading and
  `InitSchemaManager` are I/O and library plumbing. The same goes for `Server`,
  `Handlers` and `ParseConfig` in web/server.go, and all of handlers.go, server.go
  and main.go. `Config.Base` and `Config.TestMode` are parameters, and so is the
  cookie's presence. net/http's cookie parsing is not modelled.
- The out-of-date call sites in handlers.go and server.go use other signatures.
- Field routing and batch ingestion are not part of the code modelled here.

## Findings

| source | as written | input that shows it | evidently intended | confidence | as-written member | corrected member |
|---|---|---|---|---|---|---|
| web/server.go:49-51 | an `api` without a leading `/` is replaced by `"/" + base` | base `app`, api `hello` gives `/app//app` (as does `world`) | `"/" + api`, giving `/app/hello` | high; not executed | WebServer.GetPathDoesNotSeparate | WebServer.GetPathIntendedSeparates |
| motorsdb.go:193-195 | the first row is parsed before `for rows.Next()` even when there is no row | no result rows give `[MotorRecord{}]`, a record with sid 0 and no motors | one record per row, so no rows gives no records | medium; not executed | MotorRows.ParsedNoRows | MotorRows.ParsedAll |
