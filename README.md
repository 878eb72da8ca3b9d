# Oracle → Postgres chunked-checksum reconciliation, modelled in Dafny

The reconciler checks that a table migrated from Oracle to Postgres holds the
same rows on both sides. It works from a table list that is either read from
`tables.csv` or derived from Oracle's primary-key metadata. For every table it
runs these steps:

- count the rows on both engines;
- build a canonical concatenation expression of each row's columns;
- have each engine number the rows with `NTILE` over the primary-key order,
  hash each row to 32 bits and report, per chunk, the sum of the hashes and
  the number of rows;
- join the two chunk results and report the chunks whose sums differ.

This project models that logic and proves properties of it. Each module is
one file:

| module | file | what it models |
|---|---|---|
| `Wrappers` | wrappers.dfy | `Option` and `Result`, standing in for raised and caught exceptions |
| `Text` | text.dfy | Python's `strip`, `split(",")`, `join`, `in`, `lower`/`upper`, `int()`/`str()` on strings of characters |
| `TableList` | table_list.dfy | `load_tables` (a loop over the lines) and `fetch_oracle_tables` (a loop over metadata rows) |
| `Canonical` | canonical.dfy | the Oracle `CASE`/`LISTAGG` expression builder and the Postgres column loop |
| `Chunking` | chunking.dfy | `NTILE` of ISO/IEC 9075-2 section 6.10: bucket ids, sizes and order |
| `Fingerprint` | fingerprint.dfy | the two 32-bit row fingerprints: the MD5 prefix as a signed `int` on Postgres, `ORA_HASH` on Oracle |
| `Checksum` | checksum.dfy | the two checksum queries: order, NTILE, hash, `GROUP BY chunk_id` with sum and count, and the labels |
| `Compare` | compare.dfy | `compare_chunks`: column upper-casing in place, inner merge, filter, exception path |
| `ReconRun` | recon_run.dfy | the per-table loop of `main` with its three accumulators and its two `try` blocks |

The modules follow these conventions:

- The databases are abstract. Each query function takes the table's rows
  already in the order its engine's `ORDER BY` gives them, plus the hash
  function as a parameter: `md5` is an uninterpreted function into 32-digit
  lower-case hex strings and `ORA_HASH` one into 0..2^32-1.
- In `ReconRun`, what each statement returns for a table is a `Probe`: the
  outcome on a healthy connection.
- Source lines below are in `recon_lib.py` and `recon_run.py`.

Some behaviours of the code that the model captures deliberately:

- The comparison is an inner join that compares only the sums, so a chunk
  present on one side only, or a difference in row counts, is never reported
  (`Compare.OneSidedNeverReported`, `Compare.CountsNotCompared`).
- Nothing checks the chunk count: `NTILE` fails at run time, and only when
  the table has rows (`Checksum.OraChunkSums`).
- The Postgres side sums signed `int`s, the Oracle side values in
  0..2^32-1 (`Fingerprint.SignedSum`).
- Only the Oracle builder guards against zero columns. The Postgres builder
  returns the empty string and the query then calls `md5()` with no argument
  (`Canonical.PgCatExpr`, `Checksum.PgChunkSumsLabelled`).
- The Postgres query quotes the key name exactly as the table list gives it,
  so the key resolves only to a Postgres column of exactly that spelling
  (`Checksum.PgChunkSumsLabelled`); a finding below.
- Nothing rolls back the Postgres connection after a failed statement; a
  finding below.

## Model

| member | source | states |
|---|---|---|
| Text.LStripFacts | recon_lib.py:39 | `lstrip()` removes exactly a run of leading whitespace, as `str.isspace` defines it |
| Text.RStripFacts | recon_lib.py:39 | `rstrip()` removes exactly a run of trailing whitespace |
| Text.StripFacts | recon_lib.py:39 | `strip()` gives a contiguous slice with only whitespace cut off either end, and the result is stripped |
| Text.StripStripped | recon_lib.py:42 | stripping a string with no whitespace at either end leaves it unchanged |
| Text.StripCommute | recon_lib.py:39 | cutting leading and trailing whitespace commute |
| Text.StripAfterOneEnd | recon_lib.py:39-42 | stripping one end first does not change what `strip()` gives |
| Text.StripIdempotent | recon_lib.py:39-42 | stripping twice is the same as stripping once |
| Text.Split | recon_lib.py:42 | `split(",")` yields at least one piece, and no piece contains the separator |
| Text.JoinSplit | recon_lib.py:42 | joining the pieces of a split with the separator restores the line |
| Text.SplitNoSeparator | recon_lib.py:42 | a line without a comma splits into itself alone |
| Text.SplitAtSeparator | recon_lib.py:42 | splitting at the first comma gives the text before it, then the split of the rest |
| Text.SplitJoin | recon_lib.py:42 | splitting a join of separator-free pieces gives those pieces back |
| Text.JoinCount | recon_lib.py:115 | a character occurs in a join as often as in the parts, plus once per separator copy |
| Text.JoinFirst | recon_lib.py:173 | a join whose first part is non-empty starts with that part's first character (also recon_lib.py:115) |
| Text.JoinEmpty | recon_lib.py:173 | a join of non-empty parts is empty exactly when there are no parts |
| Text.Contains | recon_lib.py:111 | `sub in s` and `LIKE '%sub%'` hold exactly when `sub` occurs at some position |
| Text.NotContains | recon_lib.py:111 | a string missing one of `sub`'s characters cannot contain `sub` |
| Text.ToLower | recon_lib.py:95-96 | `lower()` keeps the length, maps each character and leaves no upper-case ASCII letter |
| Text.ToUpper | recon_lib.py:242 | `upper()` keeps the length, maps each character and leaves no lower-case ASCII letter |
| Text.NatText | recon_lib.py:45 | the decimal text of `n` is all digits and denotes `n` |
| Text.ParseIntText | recon_lib.py:45 | `int(str(i)) == i` for every integer, negative ones included |
| TableList.LoadTables | recon_lib.py:35-47 | the loop with its `continue` and `raise` returns exactly what `LoadedTables` defines: the specs in file order, or the first error |
| TableList.CollectAppend | recon_lib.py:38-46 | reading two pieces of a file one after the other is reading the whole file; an error in the first piece stops there |
| TableList.LoadedTablesAppend | recon_lib.py:38-46 | the same for raw lines |
| TableList.CollectLines | recon_lib.py:38-46 | loading succeeds iff no outcome is an error; the specs are exactly the parsed lines in file order; otherwise the error is that of the first rejected line |
| TableList.LoadedTablesLines | recon_lib.py:38-46 | the same for raw lines: one spec per line that is not ignored, in file order; the first bad line's error otherwise |
| TableList.ParseLineSkips | recon_lib.py:39-44 | a line is skipped iff it is empty or a `#` comment once stripped; it is rejected as invalid iff otherwise it has fewer than five comma-separated fields |
| TableList.ParseFormatLine | recon_lib.py:42-46 | a line written from a spec parses back to that spec, whatever its chunk count: zero and negative counts are accepted |
| TableList.ParseFields | recon_lib.py:42-46 | for a line of at least five comma-free fields with any padding, the spec holds each field whitespace-stripped, fields past the sixth are ignored, a missing or empty stripped sixth field gives the default chunk count, and an unreadable one raises with that field |
| TableList.FieldsOfPaddedJoin | recon_lib.py:39-42 | stripping the line and then splitting it and stripping each piece gives each field stripped, and the stripped line starts with the first field's first non-space character, or with the comma when that field is blank |
| TableList.FieldsOfJoin | recon_lib.py:42 | the fields of a comma-joined line of plain fields are those fields |
| TableList.JoinStripped | recon_lib.py:39 | a comma-joined line of stripped fields needs no stripping |
| TableList.IntTextPlain | recon_lib.py:45 | the text of a chunk count is a plain, non-empty field |
| TableList.FetchOracleTables | recon_lib.py:90-100 | one spec per metadata row in row order: the Oracle names as given, the Postgres names lower-cased, the key column, and the default chunk count |
| TableList.SpecsPerKeyColumn | recon_lib.py:83-100 | a table appears in the list once per primary-key column, so a composite key repeats it |
| Canonical.OraCatExpr | recon_lib.py:105-123 | the builder raises iff there are no columns (the LISTAGG is NULL), and otherwise returns a non-empty expression |
| Canonical.PgCatExpr | recon_lib.py:164-173 | the expression is empty exactly when there are no columns: nothing guards against that |
| Canonical.BuildPgCatExpr | recon_lib.py:164-173 | the loop appending one part per column, then joining them, builds exactly `PgCatExpr` |
| Canonical.SentinelOnce | recon_lib.py:108-113 | a part holds its own sentinel exactly once and neither the other sentinel nor `\|` |
| Canonical.OraConvertPlain | recon_lib.py:106-114 | every CASE branch adds neither sentinel nor `\|` to the column name |
| Canonical.OraInnerPlain | recon_lib.py:106-114 | the same for the branch a declared type selects |
| Canonical.PgConvertPlain | recon_lib.py:166-172 | every branch of the Postgres loop adds neither sentinel nor `\|` to the quoted name |
| Canonical.PgInnerPlain | recon_lib.py:166-172 | the same for the branch a declared type selects |
| Canonical.OraPartCounts | recon_lib.py:108-113 | each Oracle part is `NVL`-wrapped with `∅` (U+2205) exactly once, and holds no `Ø` and no `\|` |
| Canonical.PgPartCounts | recon_lib.py:168-172 | each Postgres part is `coalesce`-wrapped with `Ø` (U+00D8) exactly once, and holds no `∅` and no `\|` |
| Canonical.OraCatExprParts | recon_lib.py:105-123 | with columns, the Oracle expression holds `∅` once per column, `\|` five times per gap between columns, and no `Ø` |
| Canonical.PgCatExprParts | recon_lib.py:164-173 | the Postgres expression holds `Ø` once per column and no `∅`; with columns, it holds `\|` five times per gap |
| Canonical.PgPartsCounts | recon_lib.py:164-172 | every Postgres part holds `Ø` once and neither `∅` nor `\|` |
| Canonical.OraSeparatorCounts | recon_lib.py:115 | Oracle's separator `\|\|'\|'\|\|` holds five `\|` and no sentinel |
| Canonical.PgSeparatorCounts | recon_lib.py:173 | Postgres's separator `" \|\| '\|' \|\| "` holds five `\|` and no sentinel |
| Canonical.BuildersDisagree | recon_lib.py:105-123 | the two builders differ: the sentinels differ; with no columns Oracle raises while Postgres returns `""`; with any columns at all the two expressions differ, already in their first character (`NVL(` against `coalesce(`) |
| Canonical.PgHasNoOtherCategory | recon_lib.py:167-172 | every Postgres type falls into one of the three branches, and anything unlisted is trimmed text |
| Canonical.OraTimestampPrecision | recon_lib.py:107 | Oracle's exact-name test sends `TIMESTAMP(6)` to the plain `TO_CHAR` branch |
| Canonical.PgTimestampVariant | recon_lib.py:169 | Postgres's substring test sends `timestamp without time zone` to the temporal branch |
| Canonical.FloatingPointSplit | recon_lib.py:109 | `BINARY_DOUBLE` is not numeric to the Oracle builder, while `double precision` is numeric to the Postgres one (also recon_lib.py:167) |
| Canonical.OraVarcharTextual | recon_lib.py:111-112 | a `VARCHAR2` column is trimmed as text on Oracle, by the `LIKE '%CHAR%'` test |
| Canonical.OraRawOther | recon_lib.py:111-113 | a `RAW` column falls to the plain `TO_CHAR` branch on Oracle |
| Canonical.PgByteaTextual | recon_lib.py:169-172 | a `bytea` column is trimmed like text on Postgres |
| Chunking.Tiles | recon_lib.py:177 | a layout of `c` buckets uses only the ids 1..c (also recon_lib.py:195) |
| Chunking.TilesLength | recon_lib.py:177 | the layout holds `c*q + s` rows (also recon_lib.py:195) |
| Chunking.Ntile | recon_lib.py:177 | `NTILE(C)` over R rows gives every row a bucket in 1..C (also recon_lib.py:195) |
| Chunking.NtileCount | recon_lib.py:177 | bucket `b` holds exactly `R/C + 1` rows when `b ≤ R mod C`, `R/C` rows for the other buckets up to C, and none outside 1..C (also recon_lib.py:195) |
| Chunking.TilesCount | recon_lib.py:177 | the same count for every layout (also recon_lib.py:195) |
| Chunking.TilesFirst | recon_lib.py:177 | the first row in the ordering is always in chunk 1 (also recon_lib.py:195) |
| Chunking.NtileSorted | recon_lib.py:177 | chunk ids never decrease along the ordering and rise by at most one from a row to the next (also recon_lib.py:195) |
| Chunking.TilesSorted | recon_lib.py:177 | the same for every layout (also recon_lib.py:195) |
| Chunking.BucketsBalanced | recon_lib.py:177 | bucket sizes never increase with the id and differ by at most one; the larger size is exactly the first `R mod C` buckets' (also recon_lib.py:195) |
| Chunking.BucketOccupied | recon_lib.py:177 | a bucket is non-empty iff its id lies in 1..min(C, R) (also recon_lib.py:195) |
| Chunking.SizesUpToClosed | recon_lib.py:177 | the first `k` buckets hold `k*(R/C) + min(k, R mod C)` rows (also recon_lib.py:195) |
| Chunking.SizesSum | recon_lib.py:177 | the bucket sizes add up to R (also recon_lib.py:195) |
| Chunking.Occurring | recon_lib.py:184-186 | `GROUP BY chunk_id ORDER BY chunk_id` lists exactly the ids that occur, strictly ascending |
| Chunking.NtileHas | recon_lib.py:177 | bucket `k` of 1..C occurs among the chunk ids iff `k ≤ R` (also recon_lib.py:195) |
| Chunking.OccurringPrefix | recon_lib.py:184-186 | when exactly the ids 1..m of 1..k occur, the grouped ids up to k are 1..min(k, m) |
| Chunking.NtileOccurring | recon_lib.py:177 | the chunk ids NTILE produces are exactly 1, 2, …, min(C, R) (also recon_lib.py:184-186) |
| Fingerprint.HexValue | recon_lib.py:182 | a string of `n` hex digits denotes a value below 16^n |
| Fingerprint.ToInt32 | recon_lib.py:182 | `::bit(32)::int` keeps values below 2^31, and otherwise differs by a multiple of 2^32 |
| Fingerprint.HighDigit | recon_lib.py:182 | eight hex digits stay below 2^31 iff the first is below 8 |
| Fingerprint.PgRowHashSign | recon_lib.py:182 | the Postgres fingerprint lies in [-2^31, 2^31); it equals the prefix's unsigned value iff the first hex digit is below 8, and otherwise is that value minus 2^32 and negative |
| Fingerprint.OraRowHashRange | recon_lib.py:196 | the Oracle fingerprint lies in [0, 2^32) |
| Fingerprint.SignedSum | recon_lib.py:182-183 | summing signed readings loses 2^32 per word whose top bit is set; signed and unsigned sums agree iff no such word exists (also recon_lib.py:196-200) |
| Checksum.Assign | recon_lib.py:177 | every row gets a chunk id in 1..chunks, and an empty table gets none (also recon_lib.py:195) |
| Checksum.Groups | recon_lib.py:180-186 | each result row carries the labels, a chunk id some row has, that chunk's hash sum and its positive row count; chunk ids strictly ascend; every chunk id in 1..k that some row has is listed (also recon_lib.py:199-203) |
| Checksum.GroupsShape | recon_lib.py:180-186 | the recursive grouping over ids 1..k meets what `GROUP BY chunk_id ORDER BY chunk_id` promises: each listed row has the labels, an id in 1..k that occurs, that chunk's sum and positive count, ids strictly ascend, and every occurring id in 1..k is listed (also recon_lib.py:199-203) |
| Checksum.HashesOra | recon_lib.py:196 | one `ORA_HASH` fingerprint per row, in order, each in [0, 2^32) |
| Checksum.HashesPg | recon_lib.py:178 | one MD5-prefix fingerprint per row, in order, each in [-2^31, 2^31) as a signed `int` |
| Checksum.OraChunkSums | recon_lib.py:193-205 | over rows in non-decreasing key order, ties (a non-unique key column) in any order, the Oracle query fails iff the table has rows and the chunk count is below 1; otherwise it has the upper-case column names and every row is labelled `ORA`, the schema and the bare table name |
| Checksum.PgChunkSumsLabelled | recon_lib.py:164-188 | over rows in non-decreasing key-text order, ties in any order, the Postgres query fails iff there are no columns (`md5()` with no argument), or the quoted key `"pk"` names no column of the table exactly, or there are rows and the chunk count is below 1, with that error; otherwise it has the lower-case column names and its rows carry `PG` and the bound labels |
| Checksum.PgChunkSums | recon_lib.py:188 | as written, every Postgres row's TABLE_NAME is `schema.table` and so contains a `.` |
| Checksum.QuotedKeyUnresolved | recon_lib.py:177 | as written, a key name holding a capital letter never resolves against Postgres column names without capitals, so the query fails with an unknown column for every content of the table |
| Checksum.QuotedKeyExample | recon_lib.py:92-99 | the Oracle metadata row `HR`, `EMPLOYEES`, `EMPLOYEE_ID` becomes the target `hr.employees`, whose query then fails on the column `"EMPLOYEE_ID"` (also recon_lib.py:177) |
| Checksum.PgChunkSumsLoweredKey | recon_lib.py:95-96 | with the key folded to lower case like the table names, the query fails iff there are no columns, the folded key names no column, or there are rows and the chunk count is below 1 (also recon_lib.py:177) |
| Checksum.LoweredKeyResolves | recon_lib.py:95-97 | with Postgres columns named as Oracle's folded to lower case, the folded key of any Oracle key column resolves, and the query succeeds iff the table is empty or the chunk count is at least 1 |
| Checksum.ChunkIds | recon_lib.py:177-186 | a query reports min(chunks, rows) chunks, with ids 1, 2, … in order (also recon_lib.py:195-203) |
| Checksum.GroupsIds | recon_lib.py:184-186 | the grouped result lists exactly the occurring chunk ids, in ascending order |
| Checksum.GroupsTotals | recon_lib.py:180-186 | the row counts and hash sums of the groups add up to the per-bucket totals |
| Checksum.BucketSumsAll | recon_lib.py:182 | every row's hash is in exactly one of the buckets 1..k (also recon_lib.py:200) |
| Checksum.BucketCountsSizes | recon_lib.py:187 | the per-bucket counts are NTILE's bucket sizes (also recon_lib.py:200) |
| Checksum.ChunkTotals | recon_lib.py:175-187 | a query's row counts add up to the table's row count, and its chunk sums to the sum of all row hashes (also recon_lib.py:193-203) |
| Checksum.SumWhereUpdate | recon_lib.py:182 | changing one row's hash moves only its own bucket's sum, by the difference (also recon_lib.py:200) |
| Checksum.OneRowChanged | recon_lib.py:175-187 | replacing one row's hash changes only its chunk's sum, by the difference; chunk ids and row counts stay (also recon_lib.py:193-203) |
| Checksum.SwapInChunk | recon_lib.py:182 | chunk sums do not depend on the order of rows inside a chunk (also recon_lib.py:200) |
| Checksum.LexLessIrreflexive | recon_lib.py:177 | no key text sorts before itself, so rows with equal keys are in text order whichever comes first |
| Checksum.TiedKeys | recon_lib.py:195 | rows tied on the key, as each column of a composite key gives, are in order for both engines whichever comes first, and that choice decides their chunks (also recon_lib.py:177, recon_lib.py:83-99) |
| Checksum.TwoRowsTwoChunks | recon_lib.py:195 | NTILE(2) over two rows puts one row in each chunk, in order (also recon_lib.py:177) |
| Checksum.TextOrderSplitsChunks | recon_lib.py:177 | keys 2 and 10 are in native order for Oracle, but Postgres's text order puts `"10"` first; with two chunks, key 2 lands in chunk 1 on one side and chunk 2 on the other (also recon_lib.py:195) |
| Checksum.SameLengthOrder | recon_lib.py:177 | for non-negative keys of equal digit count, text order and numeric order agree (also recon_lib.py:195) |
| Checksum.DigitsOrder | recon_lib.py:177 | equal-length digit strings compare as their values |
| Compare.MatchRowExactly | recon_lib.py:244-246 | one Oracle row yields exactly the records of the Postgres rows it joins with whose sums differ |
| Compare.MismatchesExactly | recon_lib.py:243-247 | the report holds exactly the inner-joined (SCHEMA, TABLE_NAME, CHUNK_ID) pairs whose CHUNK_SUMs differ, each with both sums and both row counts |
| Compare.ReportedOnBothSides | recon_lib.py:243-247 | a reported chunk has differing sums and a key present on both sides |
| Compare.OneSidedNeverReported | recon_lib.py:243 | a chunk present on one side only is never reported |
| Compare.MatchRowEmpty | recon_lib.py:244-246 | a row none of whose partners differ in sum yields nothing |
| Compare.MismatchesEmpty | recon_lib.py:243-247 | the report is empty iff every joined pair has equal sums |
| Compare.IdenticalInputs | recon_lib.py:243-247 | a result compared with itself, with keys unique as in a grouped result, gives an empty report |
| Compare.CountsNotCompared | recon_lib.py:244-246 | results that differ only in ROWS_IN_CHUNK give the same reported chunks with the same sums |
| Compare.DisjointLabels | recon_lib.py:243 | when no Oracle TABLE_NAME holds a `.` and every Postgres one does, nothing joins and the report is empty |
| Compare.UpperAll | recon_lib.py:242 | every column name is upper-cased, position by position, and no lower-case ASCII letter is left in any name |
| Compare.ChunkDiff | recon_lib.py:241-250 | a missing merge or selected column (the exception path) gives an empty report; anything reported is a joined pair whose sums differ |
| Compare.ChunkDiffExactly | recon_lib.py:242-247 | once the columns are there, the report is exactly the joined pairs whose sums differ |
| Compare.UpperPgColumns | recon_lib.py:242 | upper-casing Postgres's result columns gives exactly Oracle's |
| Compare.QueryResultsMergeable | recon_lib.py:242-246 | the real query results never lack a merge key (SCHEMA, TABLE_NAME, CHUNK_ID) or a selected column (CHUNK_SUM, ROWS_IN_CHUNK), so the merge does not fail for want of a column |
| Compare.FrameRef.constructor | recon_run.py:53 | a mutable result frame starts with the columns and rows of the query result |
| Compare.CompareChunks | recon_lib.py:241-250 | renames the caller's Postgres columns to upper case in place, keeps its rows, and returns `ChunkDiff` of the two results as they came in |
| Compare.AsWrittenNeverReports | recon_lib.py:188 | as written, two successful results never produce a single mismatch when the Oracle table name has no `.`, however the sums differ (also recon_lib.py:199) |
| Compare.AlignedLabelsReport | recon_lib.py:241-250 | with the Postgres rows labelled with Oracle's schema and table name, the report is exactly the shared chunk ids whose sums differ |
| ReconRun.ReconcileTables | recon_run.py:32-63 | the loop with its `continue` and caught failures leaves its three accumulators exactly as the fold `Run` defines |
| ReconRun.CountFailureAddsNothing | recon_run.py:36-41 | if either count raises, the table adds nothing, not even the Oracle count that succeeded |
| ReconRun.CountRowsAppended | recon_run.py:43-44 | once both counts succeed, exactly two count rows are appended: the ORA row with the Oracle names, then the PG row with the configured schema |
| ReconRun.ChunkRowsAppended | recon_run.py:48-55 | chunk rows are appended, Oracle's before Postgres's, iff every checksum statement succeeds; a checksum failure leaves them as they were (also recon_run.py:62-63) |
| ReconRun.MismatchAppended | recon_run.py:56-61 | one report is appended iff every stage succeeds and the comparison is non-empty, and it is that comparison |
| ReconRun.RunFromAppend | recon_run.py:32 | the run over two lists is the run over the second starting where the first ended |
| ReconRun.RunFromExtends | recon_run.py:43-59 | the accumulators only grow |
| ReconRun.RunPrefix | recon_run.py:32-63 | tables are visited once each, in order: the first i tables' contributions are final, a prefix of every accumulator |
| ReconRun.CountRowsPaired | recon_run.py:36-44 | counts come in ORA-then-PG pairs, two for each table that gets past both counts |
| ReconRun.CountFailureOrAbort | recon_run.py:36-41 | a turn that does not get past both counts leaves every accumulator alone |
| ReconRun.CountRowsLength | recon_run.py:36-44 | `counts_rows` has 2 × (tables whose counts succeeded) rows, in ORA/PG pairs |
| ReconRun.ListSchemaIgnored | recon_run.py:38 | the table list's own Postgres schema is never used: the configured one is (also recon_run.py:44, recon_run.py:53) |
| ReconRun.AbortedStaysAborted | recon_run.py:36-41 | as written, once a Postgres statement has failed, every later table adds nothing and the transaction stays aborted (also recon_run.py:62-63) |
| ReconRun.FailureLeaksIntoLaterTables | recon_run.py:36-41 | a table whose Postgres count fails makes the next, healthy table contribute nothing; with a rollback it contributes as it does alone |
| ReconRun.VisitShift | recon_run.py:32-63 | with a rollback, one turn only appends to whatever came before |
| ReconRun.RecoveringRunIsolated | recon_run.py:32-63 | with a rollback, the run never stays aborted and appends exactly what the same tables give alone |
| ReconRun.RecoveringRunsCompose | recon_run.py:32-63 | with a rollback, the run over two lists is the two runs' results one after the other |
| ReconRun.QueriesLabelledAsWritten | recon_run.py:52-53 | the frames `ora_chunk_sums` and `pg_chunk_sums` return for a table, called as `main` calls them, carry the as-written labels: Oracle's bare table name and Postgres's `schema.table` (also recon_lib.py:188, recon_lib.py:199) |
| ReconRun.AsWrittenDiffEmpty | recon_run.py:56 | with the labels as written, a table's comparison is empty (also recon_lib.py:188, recon_lib.py:199) |
| ReconRun.NoMismatchEverRecorded | recon_run.py:56-59 | with the labels as written and no `.` in an Oracle table name, `mismatches` never receives anything |

## Left out

- Connections, query execution, the SQL text of the counts, the YAML configuration, the file read in `load_tables`, the CSV reports, the output directory and all printing (recon_lib.py:25-33, 49-79, 252-254; recon_run.py:13-31, 65-104): these are I/O. Counts and query results enter `ReconRun` as a `Probe` per table.
- The foreign-key orphan check (recon_lib.py:207-235, recon_run.py:83-97): it is catalogue-side SQL templating run against the database.
- The MD5 algorithm (RFC 1321) and `ORA_HASH`: they are uninterpreted functions with their ranges.
- The output of `TO_CHAR`/`to_char`, `RTRIM` and `::numeric::text`: it is engine-defined and involves floating point. Only the expression text is modelled.
- The commented-out older `pg_chunk_sums` (recon_lib.py:129-154), `safe_int` (recon_lib.py:237-239) and the unused `matplotlib` import (recon_lib.py:1): none is called.
- Text.ParseInt: accepts an optional sign and ASCII digits only, without the underscores or non-ASCII digits Python's `int()` also takes.
- Text.ToLower: maps ASCII letters only. Oracle names are upper-case ASCII identifiers.
- Text.ToUpper: maps ASCII letters only. The column names it is applied to are ASCII.
- Canonical.OraCatExpr: does not model LISTAGG's 4000-byte result limit, which makes Oracle raise for very wide tables.
- Checksum.OraChunkSums: takes no column list and assumes the unquoted key resolves. Oracle folds the unquoted key, schema and table names to capitals, so a key read from Oracle's metadata resolves unless its column was created under a quoted name that is not all capitals (such as `"id"`), and the same holds for the unquoted `FROM schema.table`. Such a failure, and a key in a hand-written table list that names no Oracle column, is not modelled here; in `ReconRun` it is one of the failures a `Probe` carries.
- Checksum.TextOrdered: assumes C collation for the key text. The byte order of a database collation is not modelled, and keys are integers only.
- Checksum.Groups: sums are unbounded integers. The overflow of Postgres's `bigint` sum is not modelled, and neither is the conversion of a large Oracle `NUMBER` by the driver.
- Compare.Mismatches: with duplicate join keys, lists joined pairs in the order of the left rows and then the right rows. Pandas' row order in that case is not modelled. Query results never have duplicate keys.
- ReconRun.Probe: a `Probe` gives each statement's outcome on a healthy connection. It does not model which database errors abort the Postgres transaction: every failed Postgres statement is taken to abort it, and a connection that drops is not told apart.

## Findings

| source | as written | input that shows it | evidently intended | confidence | as-written member | corrected member |
|---|---|---|---|---|---|---|
| recon_lib.py:188, recon_lib.py:199 | the Postgres query labels its rows with TABLE_NAME `schema.table` (and the configured Postgres schema), Oracle with the bare table name (and the Oracle schema); `compare_chunks` joins on those labels | any table, e.g. `HR.EMPLOYEES` migrated to `hr.employees`, with one row changed on one side: Oracle rows carry `EMPLOYEES`, Postgres rows `hr.employees`, nothing joins and the table is reported as a match | both results labelled with the same schema and table name, so that the join pairs chunks by id | high, not executed | Compare.AsWrittenNeverReports | Compare.AlignedLabelsReport |
| recon_lib.py:177, recon_lib.py:95-97 | the Postgres query orders by `"{pk}"::text`, quoting the key exactly as the `TableSpec` holds it (`t.pk`); `fetch_oracle_tables` folds the schema and table names to lower case but keeps the key as Oracle's metadata spells it, in capitals | Oracle key `EMPLOYEE_ID` of `HR.EMPLOYEES`, migrated to `hr.employees` with the column `employee_id`: the statement fails with column "EMPLOYEE_ID" does not exist, whatever the data, and this failure also starts the aborted-transaction cascade of the next table | the key folded to lower case like the table name, so that it names the migrated column | medium (assumes the migration folded column names to lower case, as it did table names), not executed | Checksum.QuotedKeyUnresolved | Checksum.LoweredKeyResolves |
| recon_run.py:36-41, recon_run.py:62-63 | a failed Postgres statement is caught and the loop goes on, but the Postgres transaction is never rolled back, so every later Postgres statement fails as well | table 1 is missing on Postgres, so its `pg_count` raises; table 2 exists on both sides, but its `pg_count` now fails in the aborted transaction and it contributes nothing | roll back the Postgres connection after a failed statement, so that each table is reconciled on its own | medium (psycopg2's default non-autocommit transaction), not executed | ReconRun.AbortedStaysAborted | ReconRun.RecoveringRunIsolated |
