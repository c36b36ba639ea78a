# Database response-time probe, modelled in Dafny

The probe (`org.wso2.dbresponemeasure`) reads a flat property file, takes one
database connection from a lazily filled static cache (`DBConnection`), and runs
a configured SQL query a configured number of times. It adds each execution time
to `totalTime`. When one execution is strictly slower than the diagnostic
threshold, it runs a battery of four MySQL introspection queries and logs each
result set as a text block. A failed query or an interrupted sleep closes the
connection, and nothing ever reopens it. At the end the connection is closed.

This project models that core:

- `wrappers.dfy`: `Option` and `Result`, for Java's nulls and exceptions.
- `probe_failure.dfy` (module `ProbeFailure`): the exceptions that escape `main`
  uncaught and end a run.
- `java_int.dfy` (module `JavaInt`): the `int` range and `Integer.parseInt`,
  which every numeric setting goes through, with `Integer.toString` as its inverse.
- `db_connection.dfy` (module `DBConnection`): the JDBC session (`Connection`,
  which is either open or closed). It also holds the static field and
  `getConnection`, as the class `ConnectionCache`. The class has ghost counters
  of attempted and successful opens, and its invariant says at most one open
  ever succeeds. `GetConnectionSpec` and `Replay` state the same behaviour on
  values, over any sequence of calls. `LoadDriver` is `loadDBDriver`.
- `diagnostics.dfy` (module `Diagnostics`): `printDiagnostics` as an imperative
  method, proved against the `Render` function. `ParseReport` reads a block
  back, and the round-trip lemma ties it to `Render`. `runDiagnostics` is four
  independently guarded queries.
- `probe_config.dfy` (module `ProbeConfig`): how `main` defaults and parses its
  settings.
- `measurement.dfy` (module `Measurement`): the loop body (`Step`) and the loop
  (`Loop`) as functions. Their inputs are the connection's state and what each
  iteration meets: the query completing after some milliseconds or throwing,
  and the sleep being interrupted or not.
- `measurement_properties.dfy` (module `MeasurementProperties`): the loop's
  guarantees. These are exact accumulation, the threshold rule, the iteration
  count, and the permanence of a close.
- `db_response_measure.dfy` (module `DbResponseMeasure`): `main` as the
  imperative method `Probe`, with its `for` loop as `MeasureLoop`. Both are
  proved against the functions above.

Three facts about the code shape the model:

- The Javadoc of `getConnection` (`DBConnection.java`, line 40) says it creates
  a connection "if closed" and otherwise returns the existing one. The code
  tests only whether the static field is null, so it returns the cached handle
  even after the caller has closed it. The model follows the code.
- After a failure the loop never reacquires a connection. Every later
  `createStatement` fails on the closed session, so every later iteration calls
  `close()` again. JDBC makes that a no-op.
- The duration is added to `totalTime` before the diagnostics run.

## Model

| member | source | states |
|---|---|---|
| `JavaInt.ParseShowRoundTrip` | src/main/java/org/wso2/dbresponemeasure/DbResponseMeasure.java:48 | `Integer.parseInt` reads back every `int` written in decimal, so each numeric setting is the number written in the file |
| `JavaInt.ParseInt` | src/main/java/org/wso2/dbresponemeasure/DbResponseMeasure.java:48 | `Integer.parseInt` accepts a text exactly when it is one or more ASCII digits, optionally after a single `-` or `+`, whose value fits in an `int`. The result is that value, negated after a `-`. Anything else throws: a null or empty text, a lone sign, a stray character anywhere, or an out-of-range value |
| `JavaInt.ParseIntRejectsEmpty` | src/main/java/org/wso2/dbresponemeasure/DbResponseMeasure.java:48 | `Integer.parseInt` throws on a missing (null) property, an empty value, a lone sign, a stray character (`"1x2"`, `" 5"`, `"--5"`) |
| `DBConnection.LoadDriver` | src/main/java/org/wso2/dbresponemeasure/DBConnection.java:66-79 | a missing driver class name ends `main` with a `NullPointerException`, and a class that is not a `Driver` with a `ClassCastException`. The reflective exceptions (class not found, not instantiable, not accessible) are caught, and the run goes on |
| `DBConnection.GetConnectionSpec` | src/main/java/org/wso2/dbresponemeasure/DBConnection.java:46-59 | the driver manager is asked exactly when the field is null. A set field is returned unchanged and the arguments are ignored. A refused open returns null and leaves the field null. A granted open stores its handle and returns it |
| `DBConnection.ConnectionCache.constructor` | src/main/java/org/wso2/dbresponemeasure/DBConnection.java:37 | the static field starts null, with no open attempted |
| `DBConnection.ConnectionCache.GetConnection` | src/main/java/org/wso2/dbresponemeasure/DBConnection.java:46-59 | returns and stores what `GetConnectionSpec` says. It counts an attempted open only when the field was null, and a successful one only when the driver granted it. It keeps "at most one open ever succeeds, and the field is set exactly when one has" |
| `DBConnection.ReplayCacheHit` | src/main/java/org/wso2/dbresponemeasure/DBConnection.java:56-58 | once the field is set, every later call returns that same handle, whether or not it was closed. The field never changes and no open is attempted |
| `DBConnection.ReplayFromUnset` | src/main/java/org/wso2/dbresponemeasure/DBConnection.java:48-55 | from a null field, calls return null up to the first granted open. Opens are attempted up to and including that one and never after. Every call from it on returns its handle |
| `DBConnection.ReplayOpensAtMostOnce` | src/main/java/org/wso2/dbresponemeasure/DBConnection.java:37-59 | over any sequence of calls at most one open succeeds. None succeeds if the field was already set, and after a success the field is set |
| `Diagnostics.Render` | src/main/java/org/wso2/dbresponemeasure/DbResponseMeasure.java:165-175 | a logged block starts with the label and `" : \n"`. Zero rows give exactly that, and any row makes the block end with a newline |
| `Diagnostics.PrintDiagnostics` | src/main/java/org/wso2/dbresponemeasure/DbResponseMeasure.java:165-175 | the logged line is the label, `" : \n"`, then per row a tab before each column's value and a newline at the end. A SQL NULL is written "null" |
| `Diagnostics.ParseRowsRoundTrip` | src/main/java/org/wso2/dbresponemeasure/DbResponseMeasure.java:168-173 | when no value holds a tab or a newline, the rendered body splits back into exactly the rows and column texts it came from |
| `Diagnostics.RenderRoundTrip` | src/main/java/org/wso2/dbresponemeasure/DbResponseMeasure.java:174 | a logged block starts with its label and reads back to its rows. Zero rows give exactly label + `" : \n"` |
| `Diagnostics.DiagnosticsOf` | src/main/java/org/wso2/dbresponemeasure/DbResponseMeasure.java:129-163 | four entries, one per query, in the fixed order InnoDB status, process list, open tables, slow log. Each entry is that query's rendered block if it answered and its error otherwise, whatever the other three did |
| `Diagnostics.RunDiagnostics` | src/main/java/org/wso2/dbresponemeasure/DbResponseMeasure.java:129-163 | the four guarded blocks produce exactly `DiagnosticsOf` |
| `Diagnostics.RunDiagnostic` | src/main/java/org/wso2/dbresponemeasure/DbResponseMeasure.java:136-141 | one guarded block logs the rendered rows under its label, or an error for its query when it throws |
| `ProbeConfig.ResolveThreshold` | src/main/java/org/wso2/dbresponemeasure/DbResponseMeasure.java:48 | the threshold has no default. An absent or malformed value is a `NumberFormatException` on that key, and any other value is the parsed number |
| `ProbeConfig.ResolveSleep` | src/main/java/org/wso2/dbresponemeasure/DbResponseMeasure.java:50-55 | an absent sleep time is the default verbatim. A present one is parsed, and a malformed one throws |
| `ProbeConfig.ResolveQuery` | src/main/java/org/wso2/dbresponemeasure/DbResponseMeasure.java:69-71 | an absent query is the default text verbatim. A present one is used as written |
| `ProbeConfig.ResolveIterations` | src/main/java/org/wso2/dbresponemeasure/DbResponseMeasure.java:73-79 | the count is the default when absent and the parsed value otherwise, with -1 mapped to `Integer.MAX_VALUE` either way. A malformed value throws, and -1 never survives |
| `ProbeConfig.Unbounded` | src/main/java/org/wso2/dbresponemeasure/DbResponseMeasure.java:77-79 | -1 becomes `Integer.MAX_VALUE`, and every other count is kept |
| `ProbeConfig.LoopCount` | src/main/java/org/wso2/dbresponemeasure/DbResponseMeasure.java:81 | the loop body runs `iterations` times for a non-negative count and zero times for a negative one |
| `ProbeConfig.ConfigRoundTrip` | src/main/java/org/wso2/dbresponemeasure/DbResponseMeasure.java:73-75 | a threshold, sleep time or iteration count written as a decimal `int` is resolved to that number, with "-1" resolving to `Integer.MAX_VALUE` |
| `Measurement.Execute` | src/main/java/org/wso2/dbresponemeasure/DbResponseMeasure.java:82-104 | a query runs iff there is an open connection and it completes. A run reports the duration it was given, and it carries the battery's entries iff that duration is strictly above the threshold |
| `Measurement.Sleep` | src/main/java/org/wso2/dbresponemeasure/DbResponseMeasure.java:106-115 | `Thread.sleep` throws iff the sleep time is negative. Otherwise the sleep is interrupted iff the iteration says so |
| `Measurement.StepEffect` | src/main/java/org/wso2/dbresponemeasure/DbResponseMeasure.java:82-115 | after an uncaught exception an iteration changes nothing. A null connection throws at `createStatement` and logs nothing. Otherwise the iteration appends one entry with its query part and its sleep part, adds the query's contribution to the total, closes the connection when either part failed, and crashes iff the sleep time is negative |
| `Measurement.Loop` | src/main/java/org/wso2/dbresponemeasure/DbResponseMeasure.java:81-116 | the loop writes at most one log entry per pass, and exactly one per pass unless an exception escaped it |
| `MeasurementProperties.ClosedFrom` | src/main/java/org/wso2/dbresponemeasure/DbResponseMeasure.java:97-115 | once iteration `i` closed the connection, every later query fails and the connection ends closed |
| `MeasurementProperties.OpenIffHealthy` | src/main/java/org/wso2/dbresponemeasure/DbResponseMeasure.java:83-115 | from an open connection and without a crash, the connection is still open after `n` passes iff every one of them completed its query and was not interrupted |
| `MeasurementProperties.RanAt` | src/main/java/org/wso2/dbresponemeasure/DbResponseMeasure.java:83-104 | from an open connection, iteration `i` runs its query iff it completes and every earlier iteration completed and was not interrupted |
| `MeasurementProperties.LoopCrashPersists` | src/main/java/org/wso2/dbresponemeasure/DbResponseMeasure.java:81-116 | an exception the loop does not catch ends the run, and later iterations change nothing |
| `MeasurementProperties.LoopWithoutConnection` | src/main/java/org/wso2/dbresponemeasure/DbResponseMeasure.java:84 | with a null connection, zero iterations end normally. One or more die at the first `createStatement` with nothing logged and a total of 0 |
| `MeasurementProperties.LoopRunsCount` | src/main/java/org/wso2/dbresponemeasure/DbResponseMeasure.java:106-108 | with a connection, the body runs exactly `n` times and never crashes when the sleep time is not negative. A negative sleep time ends the run after the first query |
| `MeasurementProperties.LoopTotal` | src/main/java/org/wso2/dbresponemeasure/DbResponseMeasure.java:91-92 | `totalTime` equals the sum of the logged durations. A failed iteration adds nothing |
| `MeasurementProperties.ThresholdRule` | src/main/java/org/wso2/dbresponemeasure/DbResponseMeasure.java:91-96 | iteration `i` that ran reports the duration it was given. It ran the battery exactly once iff that duration is strictly above the threshold, so equal to it never triggers. The battery's log is the battery's answers |
| `MeasurementProperties.CloseSticks` | src/main/java/org/wso2/dbresponemeasure/DbResponseMeasure.java:97-115 | after any iteration that closed the connection, every later query fails and the connection ends closed. A run that starts on a closed connection never runs a query |
| `MeasurementProperties.RanIffHealthy` | src/main/java/org/wso2/dbresponemeasure/DbResponseMeasure.java:83-115 | from an open connection, iteration `i` runs its query iff it completes and no earlier iteration failed or was interrupted. The connection is still open iff that holds of every iteration so far |
| `MeasurementProperties.TotalIsHealthyTotal` | src/main/java/org/wso2/dbresponemeasure/DbResponseMeasure.java:83-97 | from an open connection and a sleep time that is not negative, `totalTime` is the sum of the durations of the queries that completed before the first failure or interruption (an interrupted iteration's own query included) |
| `DbResponseMeasure.MeasureLoop` | src/main/java/org/wso2/dbresponemeasure/DbResponseMeasure.java:81-116 | the `for` loop leaves `totalTime`, the log, the uncaught exception if any, and the connection's open or closed state exactly as `Loop` describes |
| `DbResponseMeasure.Expected` | src/main/java/org/wso2/dbresponemeasure/DbResponseMeasure.java:38-127 | a missing or malformed threshold, or a malformed sleep time, ends the run with a `NumberFormatException` on that key, and after those a missing or non-driver driver class ends it with the exception `loadDBDriver` lets escape. Each of these stops it before it connects, with nothing logged. A malformed iteration count ends it after connecting and leaves the connection as it was. A finished run got as far as connecting, reports the resolved query and iteration count, and logged one entry per pass |
| `DbResponseMeasure.Probe` | src/main/java/org/wso2/dbresponemeasure/DbResponseMeasure.java:38-127 | `main` ends as `Expected` says, given the state of the connection `getConnection` returns. A run that crashes before asking for a connection (a bad threshold, sleep time or driver class) changes neither the cache nor any session. When the field was already set, the driver manager is not asked, and any session it would have handed out, if it is not the cached one, is untouched. Otherwise the cache changes as `GetConnectionSpec` says and keeps its handle, one open is attempted iff the field was null, and one succeeds iff the driver also granted it. A run that finishes closes that handle, and a crashed run reports the state it left that handle in |
| `DbResponseMeasure.RunFromOpenConnection` | src/main/java/org/wso2/dbresponemeasure/DbResponseMeasure.java:81-118 | with an open connection and a sleep time that is not negative, the run finishes after exactly the resolved number of iterations. Its total is the sum of its logged durations and of the durations before the first failure or interruption |
| `DbResponseMeasure.RunWithoutIterationsOrConnection` | src/main/java/org/wso2/dbresponemeasure/DbResponseMeasure.java:120-126 | zero iterations finish with total 0 and an empty log on any connection, even null. A null connection with at least one iteration dies at the first `createStatement`, before the final close |
| `DbResponseMeasure.RunSettings` | src/main/java/org/wso2/dbresponemeasure/DbResponseMeasure.java:47-79 | a missing or malformed threshold, a malformed sleep time, or (after those) a missing driver class name stops the run before it connects. Absent optional keys give the default query and the default iteration count |

## Left out

- Reading `config.properties` (`ReadConfigFile`) is file I/O. The properties come in as a map, and an unreadable file is the empty map.
- `DBConnection.loadDBDriver` registers a `DriverShim` in the global `DriverManager` registry. The model keeps only which exception, if any, escapes it. What the class name resolves to on the class path is a `ClassLookup` parameter. Registration is not modelled. When the class cannot be loaded, the shim wraps a null driver, and what the driver manager then does depends on `DriverShim`. `DriverShim` is not part of this model, and the supplied `OpenAnswer` stands for the driver manager's reply.
- JDBC itself (`Statement.execute`, `ResultSet`, metadata column counts) is replaced by supplied outcomes and rows. The model assumes the JDBC contract that `createStatement` on a closed session throws `SQLException`.
- `System.currentTimeMillis` and `Thread.sleep` are not modelled. Each duration and each interruption is supplied per iteration. Durations are unbounded integers, so `totalTime`'s 64-bit overflow, which would take over 2^63 ms, is not modelled.
- The average at line 118 is floating point (NaN for 0 iterations). A finished run exposes the pair (`totalTime`, `iterations`) instead.
- Log messages other than the diagnostic blocks are not modelled. The per-iteration log records what happened (ran with its duration and diagnostics, failed, slept, interrupted), not the text.
- `JavaInt.ParseInt`: accepts ASCII digits only, while `Integer.parseInt` also accepts other Unicode decimal digits.
- The values of the built-in defaults (`Constents`) are not part of this model. They are a `Defaults` parameter.
- A `close()` that itself throws is caught and logged. The model treats every `close()` as closing the session.
- A failure of the implicit `Statement.close()` after a successful diagnostic block would log an extra error after the block. This is not modelled.
- `Probe`: the driver manager's answer must be an open session. The first call in a run is the only one that can ask for it.
