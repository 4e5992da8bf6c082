# Oracle module for Metricbeat: version gating, row parsing and the status fetch

This project models the core of the `oracledb` Metricbeat module in Dafny.

- **`oracledb.go`**:
  - `ProcessMetric` runs one SQL statement and turns each row of the result set into a map from column name to string.
  - `parseRow` converts the cells of one row into that map.
  - `VersionMatch` decides whether the instance's dotted version lies between a low and a high bound, comparing only the major and minor components.
- **`status/status.go`**: `Fetch` runs one collection cycle of the `status` metricset:
  1. It opens a connection.
  2. It picks one of three `gv$instance` queries through an if/else-if chain of `VersionMatch` calls.
  3. It runs that query and maps every row to an event.
  4. A failure yields the single event `{status: "OFFLINE"}` together with a wrapped error.

The model is organised in four modules.

- **`GoLib`** (`golib.dfy`) holds the pieces of Go the code relies on:
  - strings are byte sequences;
  - a call either returns or panics (`Run`);
  - `strings.Split` on `"."` comes with its inverse `Join`;
  - `strconv.Atoi` is modelled for a 64-bit `int`. A syntax error gives 0. A value out of range saturates to the int64 bound. A token that overflows before its first non-digit is a range error, not a syntax error.
- **`Driver`** (`driver.dfy`) is the database as `database/sql` presents it:
  - a statement either fails or opens a cursor;
  - a cursor has column names and rows, and each row either scans into typed cells or fails to scan;
  - the `Database` class stands for the connection handle. Its `answers` are what the server returns for each statement during one cycle. It records every statement it was asked to run and how many times it was closed.
- **`OracleDb`** (`oracledb.dfy`) holds `parseRow`, the row loop of `ProcessMetric`, the version parsing and comparison of `VersionMatch`, and `VersionMatch` against a live instance (it first runs `SELECT version FROM v$instance`).
- **`Status`** (`status.dfy`) holds the query-selection chain, the three query texts, and `Fetch` with its deferred `Close`.

Each imperative routine of the source is a `method` whose loop or branch structure follows the Go code. Each method is proved equal to a specification function, such as `ParsedRow`, `Collected`, `VersionMatchOf`, `SelectedOf` or `FetchOf`. The lemmas state what the source promises about those functions.

## Behaviour of the code that the model keeps

These points follow the Go code even where a reader of the module's documentation would expect something else.

- **An integer cell panics.** `parseRow` handles integer cells with `val.(string)`, and that type assertion always fails for an integer. A row that holds an integer cell therefore panics instead of being rendered as decimal text (`ParsedRowCells`, `CollectedStopsAtBadRow`).
- **A short statement panics before anything is sent.** `ProcessMetric` first prints `sql[:20]`, which panics on a statement shorter than 20 bytes. When no version range matches, the status query stays `""`, so `Fetch` panics instead of failing the query or reporting OFFLINE (`FetchPanicsWithoutVariant`).
- **A failed version statement leads to that panic.** When the version statement fails, every `VersionMatch` call returns 0. No variant is chosen, and `Fetch` reaches the same panic (`FetchPanicsWhenVersionQueryFails`).
- **A missing minor panics.** `VersionMatch` reads the minor (index 1) whenever the majors are equal. A version or bound without a minor then panics with an index out of range; the code never treats the missing minor as 0. For example, an instance reporting `"11"` or `"12"` panics in the status chain (`VersionMatchPanics`, `SelectVariantMajorOnly`).
- **An empty version is not rejected.** Only the bounds are checked for emptiness. An empty instance version parses as the single component 0 (`EmptyVersion`), and the status chain then panics on it.
- **Versions between the ranges match no branch.** The status ranges are 0–11.2, 12.1–12.1 and 12.2–9999. Versions in the gaps, 11.3 and above within major 11 and 12.0, match no branch (`SelectVariantByRelease`).
- **A repeated column name keeps the last column.** Column names key a map, so when a name repeats, the last column carrying it wins (`Bind`).
- **Row maps do not depend on visiting order.** `parseRow` visits the columns in Go's unspecified map order. The model's loop picks an arbitrary remaining column each time, and the result does not depend on the order.

## Model

| member | source | states |
|---|---|---|
| GoLib.Split | oracledb.go:170-181 | strings.Split on "." yields at least one piece, and no piece contains a dot |
| GoLib.JoinSplit | oracledb.go:170-181 | joining the pieces of Split with "." rebuilds the original string, so no byte is lost or invented |
| GoLib.SplitJoin | oracledb.go:170-181 | splitting dot-free pieces joined with "." gives back exactly those pieces |
| GoLib.ParseDigits | oracledb.go:171 | the digit loop of ParseUint never yields a value below the prefix read so far or above 2^64-1 |
| GoLib.ParseDigitsValue | oracledb.go:171 | an all-digit token yields its decimal value, or a range error exactly when that value exceeds 2^64-1 |
| GoLib.Atoi | oracledb.go:171 | the value kept from strconv.Atoi always lies in the int64 range |
| GoLib.AtoiNumeric | oracledb.go:171 | an optional sign followed by digits reads as its decimal value, negated after '-', saturated to the int64 range |
| GoLib.AtoiDecimalText | oracledb.go:171 | every int64 written in decimal, with a leading '-' when negative, reads back as itself, MinInt64 (-9223372036854775808) included |
| GoLib.AtoiMalformed | oracledb.go:170-181 | a token of at most 20 bytes that is not a sign followed by digits reads as 0: the error is discarded, not reported |
| Driver.Database.Query | oracledb.go:65 | db.Query returns the server's answer for the statement and records the statement as executed |
| Driver.Database.Close | status/status.go:68 | closing the handle is counted once per call |
| OracleDb.ParsedRowCells | oracledb.go:106-143 | parseRow panics exactly when an integer cell is present. Otherwise it only adds keys. Strings and byte slices are stored as text and timestamps as rendered text. NULL and other cells add no key. Keys outside the row data keep their value |
| OracleDb.ParseRow | oracledb.go:106-143 | the range loop, in whichever order it visits the columns, yields ParsedRow, and it panics at an integer cell |
| OracleDb.Bind | oracledb.go:72-82 | the row data holds exactly the column names, and each name is bound to the cell scanned for its last column |
| OracleDb.CollectedAllRows | oracledb.go:85-103 | when every row scans and parses, the result holds exactly one map per row, in row order |
| OracleDb.CollectedStopsAtBadRow | oracledb.go:85-100 | the first failing row decides the outcome: a scan failure returns the scan error, and a parse failure panics |
| OracleDb.BadRowMeansNoResult | oracledb.go:86-88 | a failing row anywhere in the result set means that no maps are returned |
| OracleDb.ReadRows | oracledb.go:85-103 | the rows loop that appends to resultMap computes Collected |
| OracleDb.ProcessMetric | oracledb.go:58-104 | a statement under 20 bytes panics and is never sent. Otherwise it is sent exactly once, and a query error returns the error and no rows. The connection is not closed |
| OracleDb.ProcessMetricRows | oracledb.go:58-104 | a failing statement gives QueryFailed. If every row scans and parses, the result is one map per row, in row order |
| OracleDb.Components | oracledb.go:170-181 | a version string yields one integer per dot-separated piece, and at least one |
| OracleDb.ParseVersion | oracledb.go:170-181 | the append loop over the pieces builds Components |
| OracleDb.VersionMatchOf | oracledb.go:164-167 | an empty bound gives 0, and any value returned is 0 or 1 |
| OracleDb.VersionMatch | oracledb.go:164-207 | the nested comparisons compute VersionMatchOf, panicking where VersionMatchOf panics |
| OracleDb.VersionMatchInRange | oracledb.go:183-207 | with two components everywhere, the result is 1 exactly when low <= version <= high on (major, minor) in lexicographic order, and 0 otherwise |
| OracleDb.VersionMatchWhenReturns | oracledb.go:164-207 | whenever it does not panic, with non-empty bounds, the result is 1 exactly when low <= version <= high in lexicographic order on (major, minor), a version without a minor counting by its major alone (so one-component bounds such as "0" and "9999" are covered), and 0 otherwise |
| OracleDb.VersionMatchIgnoresPatchLevels | oracledb.go:170-207 | components after the minor, whether of the instance version or of either bound, never change the result; only whether a bound is empty, its major and its minor matter |
| OracleDb.VersionMatchPanics | oracledb.go:185-201 | it panics exactly when the majors are equal and one of the two compared versions has no minor |
| OracleDb.ComponentsOfRelease | oracledb.go:170-181 | "major.minor" written in decimal parses to [major, minor] |
| OracleDb.ComponentsOfMajor | oracledb.go:170-181 | a bare decimal major parses to [major] |
| OracleDb.BoundComponents | status/status.go:75-85 | the bounds of the status chain parse as [0], [11, 2], [12, 1], [12, 2] and [9999] |
| OracleDb.VersionMatchWholeRange | oracledb.go:185-201 | a major strictly between 0 and 9999 matches "0".."9999" without reading any minor |
| OracleDb.VersionMatchTestTable | oracledb_test.go:11-17 | the seven cases of the package's test table give the expected 0 or 1 |
| OracleDb.InstanceVersionMatch | oracledb.go:148-173 | it runs the version statement once. A failed read or an empty bound gives 0. No row panics, and so does a first row without VERSION. Otherwise the result is VersionMatch of that version |
| Status.QueryText | status/status.go:74-90 | the query is long enough for ProcessMetric exactly when a variant was chosen |
| Status.Probes | status/status.go:75-90 | the chain evaluates between one and three conditions |
| Status.RunChain | status/status.go:74-90 | the if/else-if chain computes ChainAfter and runs the version statement once per condition it evaluates |
| Status.SelectQuery | status/status.go:74-90 | the query selection of Fetch yields SelectedOf and records one version statement per evaluated condition |
| Status.RangesParse | status/status.go:75-85 | the three ranges of the chain parse to their (major, minor) bounds |
| Status.SelectVariantByRelease | status/status.go:75-90 | with a minor and a major strictly between 0 and 9999, the chain never panics. 11g is chosen iff the version is <= 11.2, 12cR1 iff it is exactly 12.1, and 12cR2 iff it is >= 12.2. No branch is taken iff the version is 11.x with x > 2 or 12.x with x <= 0 |
| Status.SelectVariantIgnoresPatchLevels | status/status.go:75-90 | the choice depends only on the major and minor of the instance version (on the major alone when it has no minor) |
| Status.SelectVariantMajorOnly | status/status.go:75-90 | a version without a minor panics for majors 0, 11, 12 and 9999. Otherwise majors 1-10 give 11g, majors 13-9998 give 12cR2, and the rest give no variant |
| Status.EmptyVersion | oracledb.go:170-173 | an empty version string parses as [0] |
| Status.SelectedFromInstance | status/status.go:75-90 | when the version statement's first row reports a version, the chain against the instance chooses what SelectVariant chooses for it |
| Status.SelectedWhenVersionQueryFails | oracledb.go:159-162 | a failing version statement makes all three conditions 0, so all three are evaluated and no variant is chosen |
| Status.FetchOf | status/status.go:62-100 | a failed open gives [OFFLINE] and the wrapped open error, and any error comes with exactly [OFFLINE] |
| Status.MapEvents | status/status.go:102-106 | the event loop yields eventMapping of each map, in order |
| Status.FetchOpened | status/status.go:70-109 | with an open connection it computes FetchOpenedOf. It runs the version statements of the chain and then the chosen query |
| Status.Fetch | status/status.go:53-110 | a failed open runs nothing and closes nothing. Otherwise the deferred Close runs exactly once on every path, a panicking one included |
| Status.FetchOfflineOnQueryError | status/status.go:95-100 | a failing status query gives [OFFLINE] and the wrapped query error |
| Status.FetchStopsAtBadRow | status/status.go:95-100 | at the first bad row, a scan failure gives [OFFLINE] with the wrapped scan error, and a parse failure panics |
| Status.FetchEventPerRow | status/status.go:102-109 | when every row scans and parses, Fetch returns no error and one event per row, in row order |
| Status.FetchPanicsWithoutVariant | status/status.go:74-95 | when no variant matches, Fetch panics on the empty query after three version statements and never reports OFFLINE |
| Status.FetchPanicsWhenVersionQueryFails | status/status.go:75-95 | a failing version statement makes Fetch panic |

## Left out

- **Connection opening**: `NewDB` (oracledb.go:43-55) sets `NLS_LANG` and `NLS_DATE_FORMAT` in the process environment and calls `sql.Open`. Environment changes and the driver are outside the model. Whether the open succeeded is the `connected` parameter of `Fetch`.
- **Database server and driver**: `database/sql` and the OCI driver are abstract. A statement's answer is a fixed function of its text for the cycle, and rows come as already-typed cells. Cursor `Close`, the ignored error of `Columns()` and `rows.Err()`, which the code never checks, are not modelled.
- **Panic recovery**: the deferred `recover()` in `Fetch` prints the panic and lets `Fetch` return `nil, nil`. The model stops at the panic (`Panics`) and does not model that zero return or the printing.
- **Diagnostics**: `fmt.Println` and `logp` diagnostics are side effects only and are left out.
- **Unused error result**: `parseRow`'s error result is always nil, and its `v == nil` check can never fire. The model has neither.
- **Handle reset**: `m.oraDB.Db = nil` (status/status.go:98) assigns a field of a type that is not part of this model.
- **Event mapping**: `eventMapping` and the schema in status/data.go depend on `schema.Apply` from the Metricbeat library, which is not part of this model. `Fetch` takes the mapping as a parameter.
- **Timestamp text**: `common.Time(t).String()` is the `render` parameter.
- **Registration**: module and metricset registration (`init`, `NewModule`, `New`) and configuration unpacking are not modelled.
- **Other metricsets**: the `tablespace` and `fra` metricsets are not modelled. Each runs a fixed query through the same glue.
- **Machine width**: `int` is taken to be 64 bits wide, as on the platforms Metricbeat ships for.
- **Byte text**: bytes are written as characters below 256. The model does no text decoding.
- **Shared maps**: Go maps are reference values. The model passes them as values, so aliasing between `rowData` pointers and Scan destinations is not captured; each scanned row is a fresh set of cells.
