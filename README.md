# mysql.php — the per-module MySQL access layer

`mysql.php` is the data-access class that the layer's DAO objects use. Each module and table suffix gets a handle (`get_ins`). A handle opens its PDO connection lazily (`open`). It opens a transaction on its first write (`execute`, via `begin_trans`). It runs reads (`query`) with a paging rewrite appended (`pageSql`). When `show_sql` is on, it echoes each statement with its parameters substituted (`log_sql`). Two static passes, `commit` and `rollback`, finish the open transactions in registry order, stopping at the first driver call that raises, and then empty the registry of handles. They empty it whether the pass succeeded or a driver call raised.

The model is split into these modules:

- `Outcomes` holds `Option`, `Result`, and the layer's error value: a message with code 100. It also builds the message `"sql error=<driver message>. sql=<statement>"`.
- `Driver` holds the PDO driver's answers, which the model takes as parameters:
  - a connection attempt either returns a connection, raises, or returns a connection and then raises while configuring the session;
  - any other driver call either returns a value or raises with a message.
- `Decimal` writes integers in decimal, as PHP's `.` renders integers within PHP's 64-bit range, and reads them back.
- `Paging` holds `pageSql` and a decoder for the clause it appends.
- `SqlLog` holds `str_replace` with a single search string, the substitution loop of `log_sql`, and facts about both.
- `Lifecycle` states what `open`, `begin_trans`, `execute` and `query` do to a handle's two fields, `link` and `begin`, as functions of the old state and the driver's answers.
- `Sweep` states the `commit`/`rollback` pass on the handles' states, in registry order, stopping at the first driver failure.
- `MySql` holds the classes:
  - `Handle` has the fields `link` and `begin`, and methods proved to follow `Lifecycle`.
  - `Registry` has the map `ins` and the key order `order`. It provides `GetIns`, `Commit` and `Rollback`, and its pass is proved to follow `Sweep`.
- `Scenarios` holds concrete call sequences against a fresh registry.

## Model

| member | source | states |
|---|---|---|
| Outcomes.SqlError | mysql.php:221 | the error after a failed statement has code 100 and its message is "sql error=", then the driver's message, then ". sql=", then the statement's text |
| Decimal.IntToStringRoundTrip | mysql.php:185 | the decimal text of every integer, negative ones included, reads back as that integer |
| Decimal.NatToStringValue | mysql.php:185 | the digits written for a natural number have that number as their value |
| Paging.PageSql | mysql.php:168-188 | the rewrite only appends to the statement; it leaves it unchanged iff a paging map is given without a positive 'size' and with 'all' equal to "y"; in every other unsized case it appends " LIMIT 1" |
| Paging.PageSqlUnsized | mysql.php:169-178 | with no paging map, or one without a positive 'size', the appended clause asks for the first row, or for every row when 'all' is "y" |
| Paging.PageSqlSized | mysql.php:179-187 | with a positive 'size', the appended clause asks for a range; its count is min(size, 1000), so it lies in 1..1000; its offset is 'start' when set, else (cur - 1) * count with cur defaulting to 1 |
| Paging.LimitClauseRoundTrip | mysql.php:185 | every clause the rewrite can write ("", " LIMIT 1", " LIMIT from , size") decodes back to the window it asks for |
| Paging.RangeRoundTrip | mysql.php:185 | "from , size" is read back as that offset and count |
| Paging.PageSqlUnsizedExamples | mysql.php:169-178 | no map, or size 0, gives sql + " LIMIT 1"; size 0 with all = "y" gives sql unchanged |
| Paging.PageSqlThirdPage | mysql.php:180-185 | page 3 of size 20 gives sql + " LIMIT 40 , 20" |
| Paging.PageSqlCapped | mysql.php:183 | size 5000 is written as 1000: sql + " LIMIT 0 , 1000" |
| Paging.PageSqlExplicitStart | mysql.php:184 | an explicit start 7 replaces the offset of page 4: sql + " LIMIT 7 , 10" |
| SqlLog.LogSql | mysql.php:255-265 | the loop's line is the statement with each parameter key replaced in order by its quoted value; nothing is logged when show_sql is off; with no parameters the statement is logged as is |
| SqlLog.Replace | mysql.php:259 | str_replace with one search string; replacing a key by a text of the same length keeps the statement's length |
| SqlLog.Substituted | mysql.php:257-260 | the statement after the replacements of the first n parameters in order; its properties are LogSql and the lemmas below |
| SqlLog.ReplaceAbsent | mysql.php:259 | a key that does not occur in the text leaves the text unchanged |
| SqlLog.ReplaceSelf | mysql.php:259 | replacing a key by itself leaves the text unchanged |
| SqlLog.ReplaceRemovesChar | mysql.php:259 | a one-character key that is not in the replacement no longer occurs afterwards |
| SqlLog.ReplaceCharAfter | mysql.php:259 | a one-character key absent from a prefix leaves that prefix unchanged |
| SqlLog.SubstitutedAppend | mysql.php:258-260 | substituting a parameter list equals substituting its two halves one after the other |
| SqlLog.SubstitutedUnmentioned | mysql.php:257-260 | a statement that mentions none of the keys is logged verbatim |
| SqlLog.PositionalKeyRewritesDigit | mysql.php:257-260 | with a positional list, key "0" replaces the digit 0 in the statement text, not a placeholder |
| Lifecycle.Opened | mysql.php:134-144 | open changes nothing when a link is set; otherwise it succeeds iff the driver connects cleanly, the link becomes the driver's connection unless the connection attempt itself raised, and a failure reports the driver's message with code 100; the flag never changes |
| Lifecycle.Executed | mysql.php:233-247 | the statement is logged, unpaged, exactly when the open succeeded, even if beginning the transaction or running the statement then fails |
| Lifecycle.Queried | mysql.php:209-224 | the paged statement is logged exactly when the open succeeded, even if running it then fails |
| Lifecycle.Begun | mysql.php:150-159 | begin_trans keeps the link; the flag is true afterwards iff it was already true or the driver's beginTransaction returned; it succeeds iff the flag is set; a failure carries the driver's message |
| Lifecycle.OpenIdempotent | mysql.php:134-135 | after a successful open, a second open changes nothing and succeeds whatever the driver would answer |
| Lifecycle.BeginIdempotent | mysql.php:150-151 | after a successful begin_trans, a second one changes nothing and succeeds |
| Lifecycle.ExecuteOpensTransaction | mysql.php:233-247 | execute succeeds iff a connection exists or is made, a transaction is open or begins, and the statement runs; a success leaves the flag set on a connection and returns the driver's row count; an existing link and an open flag are kept; afterwards the flag is set iff it was set before or the connection was there or made and beginTransaction returned, so a statement that fails after the transaction began leaves the flag set |
| Lifecycle.ExecuteErrorNamesStatement | mysql.php:233-245 | when a link was set or the connect succeeds in this call, an execute failure is the "sql error=… sql=…" error naming the statement, with beginTransaction's message when that call raised and the statement's otherwise; when the open fails, the driver's message is reported bare with code 100 and nothing is logged |
| Lifecycle.QueryKeepsTransaction | mysql.php:209-224 | query never changes the flag and keeps an existing link; a success returns the driver's rows; a failure after connecting names the paged statement; a failed open is reported bare with the driver's message and code 100, and nothing is logged |
| Lifecycle.OperationsKeepConsistent | mysql.php:134-247 | open, begin_trans, execute and query each keep "a set flag implies a link" |
| Lifecycle.ExecuteThenQueryReusesConnection | mysql.php:209-247 | after a successful execute, a query leaves the handle's state as it was and succeeds whenever the statement runs |
| Sweep.Settled | mysql.php:97-101 | one handle's step: the driver is called once iff the handle has a transaction; the step fails iff that call raises; the handle ends unopened iff it had a transaction and the call returned, and is unchanged otherwise |
| Sweep.SweepStates | mysql.php:96-102 | the whole pass has one resulting state per handle; its other properties are the Sweep lemmas below |
| Sweep.FirstFailure | mysql.php:96-102 | the index it returns is either past the handles visited or a handle with an open transaction whose driver call raises |
| Sweep.FirstFailureIsFirst | mysql.php:96-102 | no handle before that index fails |
| Sweep.SweepStatesAt | mysql.php:96-106 | after a pass, each handle before the first failing one that had a transaction has no link and no flag; every other handle is unchanged; the pass fails iff some handle fails, with the first such handle's message |
| Sweep.SweepCalls | mysql.php:96-102 | the pass makes one driver call per handle with a transaction, in registry order, up to and including the first that raises |
| Sweep.SweepFromPrefix | mysql.php:95-106 | once a driver call has raised, the rest of the pass changes nothing |
| Sweep.SweepSuccess | mysql.php:94-103 | a pass succeeds iff no handle with a transaction has a driver call that raises; a successful pass leaves every such handle with no link and no flag, leaves the others untouched, and calls the driver once per transaction |
| Sweep.SweepKeepsConsistent | mysql.php:96-102 | a pass keeps "a set flag implies a link" for every handle |
| Sweep.NothingPending | mysql.php:96-102 | a pass over handles none of which has a transaction calls nothing and changes nothing |
| Sweep.SweepIdempotent | mysql.php:96-102 | no handle is left with a transaction by a successful pass: a pass over the states a successful pass leaves calls nothing and changes nothing (the registry itself is emptied, so the program never makes that pass) |
| MySql.Handle.constructor | mysql.php:59-65 | a new handle keeps its module's settings and has no link and no flag |
| MySql.Handle.Open | mysql.php:134-144 | the handle's new fields and the result are exactly Lifecycle.Opened's; a handle whose flag implies a link keeps that property |
| MySql.Handle.BeginTrans | mysql.php:150-159 | the handle's new fields and the result are exactly Lifecycle.Begun's; a handle whose flag implies a link keeps that property |
| MySql.Handle.Settle | mysql.php:97-101 | one handle's step of a pass: its new fields, the driver call and the failure are Sweep.Settled's; a handle whose flag implies a link keeps that property |
| MySql.Handle.Execute | mysql.php:233-247 | the handle's new fields, the row count or error, and the logged line are Lifecycle.Executed's; a handle whose flag implies a link keeps that property |
| MySql.Handle.Query | mysql.php:209-224 | the handle's new fields, the rows or error, and the logged line are Lifecycle.Queried's; a handle whose flag implies a link keeps that property |
| MySql.Registry.constructor | mysql.php:21 | the registry starts empty |
| MySql.Registry.GetIns | mysql.php:82-88 | the handle under the key mdl + suf: a key already present returns its handle and changes nothing; a new key gets a fresh unopened handle built from module mdl's settings, added last in order |
| MySql.Registry.Commit | mysql.php:94-108 | every handle ends in the state Sweep gives for a commit pass; the result is success or the first driver message with code 100; the registry is empty on both paths |
| MySql.Registry.Rollback | mysql.php:114-128 | the same as Commit, with rollBack calls |
| MySql.Registry.Pass | mysql.php:94-128 | the pass shared by commit and rollback follows Sweep.SweepStates, then empties the registry whatever the outcome |
| MySql.Registry.Settle | mysql.php:96-102 | the foreach over the registry follows Sweep.SweepStates: handle states, driver calls and result |
| MySql.Registry.Clear | mysql.php:103-105 | the registry is left empty and valid |
| MySql.Visit | mysql.php:96-102 | the loop over the handles in registry order leaves each handle in Sweep.SweepStates's state and returns its calls and failure |
| Scenarios.SameKeySameHandle | mysql.php:82-88 | asking twice for the same module and suffix yields the same handle and one registry entry |
| Scenarios.ConcatenatedKeysShareHandle | mysql.php:82-85 | ("ab", "c") and ("a", "bc") yield one handle, configured from module "ab" |
| Scenarios.DistinctKeysDistinctHandles | mysql.php:82-88 | different keys get distinct handles, registered in the order requested |
| Scenarios.SweepOne | mysql.php:96-102 | a pass over a single handle is that handle's settlement |
| Scenarios.CommitSingle | mysql.php:94-108 | commit on a one-handle registry settles that handle and empties the registry |
| Scenarios.UpdateThenCommit | mysql.php:94-108 | an update returns its row count and logs the statement; the commit that follows makes one commit call, succeeds, releases the connection and empties the registry, so the next get_ins builds a new handle |
| Scenarios.FailedCommitEmptiesRegistry | mysql.php:104-106 | a commit whose driver call raises reports that message with code 100, still empties the registry, and leaves the failing handle with its link and flag |

## Left out

- PDO itself (connecting, `setAttribute`, `SET NAMES utf8`, `prepare`, `execute`, `rowCount`, `fetchAll`, `beginTransaction`, `commit`, `rollBack`) is replaced by parameters that give each call's answer. Connections, rows and driver messages are opaque values.
- Which commit or rollBack calls raise is given as a map from registry key to driver message. The driver cannot behave differently for two visits to the same key; a pass visits each key once.
- `$GLOBALS['cfg']` becomes parameters: the module settings map (`ConfigFor`) and the `show_sql` flag. In PHP, a module missing from the configuration reads null entries; the model gives it empty settings.
- `$suf` is part of the registry key only; the constructor ignores it, as the source does.
- The `echo` of `log_sql`, with its trailing `<br/>`, is not modelled; the model returns the line that would be echoed.
- `uuid` (a query whose first row is read) and the empty `__destruct` are not modelled.
- The file declares `namespace now`, so `catch(Exception $e)` names `now\Exception`, not the global exception class. The model assumes every catch catches the driver's exception, which is what the code evidently intends. Whether those catch blocks are reachable is not modelled.
- Line 126 writes `throw new now/err(...)`, which PHP would not run as written. The model raises the same error as commit does, code 100 with the driver's message. It makes no claim about what PHP does with that line.
- The layer's `err` exception is modelled as a value with a message and a code, returned in `Result.Err`. Control does not transfer between frames.
- Parameters reach `log_sql` as a list of (key, value) pairs already rendered as PHP strings. Integer keys of a positional list appear as their decimal text. Arrays, objects and null values are not modelled.
- Paging values are integers, and 'all' is a string compared with "y". PHP's loose comparisons of other types (numeric strings, floats, booleans) are not modelled. 'cur' and 'start' that are present but null count as missing, as `isset` does.
- `str_replace` with an array of search strings, or with a counter argument, is not modelled; the source uses neither.
- Paging.PageOffset: PHP integers are 64-bit, and `($page['cur'] - 1) * $page['size']` becomes a float past PHP_INT_MAX, which line 185 would write in exponent form. The model computes with unbounded integers, so it covers only offsets within PHP's integer range.
- Decimal.IntToString: writes every integer as plain decimal digits; PHP writes only integers within its 64-bit range that way, and writes floats differently.
- Concurrency and the lifetime of the static registry across PHP requests are not modelled.
- Lifecycle.Opened: does not claim the link stays null after a failed open. A failure while configuring the session leaves the link set; only a failure of the connection attempt itself leaves it null.
