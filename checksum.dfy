/**
 * The two chunked-checksum queries (`ora_chunk_sums`, `pg_chunk_sums`): each
 * engine orders the table's rows by the key, numbers them with NTILE, hashes
 * each row's canonical text and, grouped by chunk id in ascending order,
 * reports the sum of the hashes and the number of rows.
 *
 * The rows come in as the engine's ORDER BY delivers them: Oracle orders by
 * the key's native (numeric) value, Postgres by `"pk"::text`, the key's
 * decimal text, compared character by character.
 */
module Checksum {

  import opened Wrappers
  import opened Text
  import opened Chunking
  import opened Fingerprint
  import opened Canonical
  import TableList

  /** One table row: its integer primary key and the text its engine's canonical expression yields. */
  datatype TableRow = TableRow(key: int, canon: string)

  /** A row of a checksum query's result. */
  datatype ChunkResult = ChunkResult(
    side: string, schema: string, tableName: string,
    chunkId: int, chunkSum: int, rowsInChunk: int)

  /** A query result as the driver hands it over: the column names and the rows. */
  datatype Frame = Frame(columns: seq<string>, rows: seq<ChunkResult>)

  /** Why a checksum query fails. */
  datatype QueryError =
    | NtileArgument(chunks: int)   // NTILE's argument is not positive
    | EmptyMd5Argument             // `md5()` with no argument: the table has no columns
    | UnknownColumn(name: string)  // a quoted identifier that names no column of the table
    | Unavailable                  // a failure the model does not look into (connection, permissions, missing table)

  /** The names Oracle reports for the unquoted aliases, folded to upper case. */
  const OraColumns: seq<string> := ["SIDE", "SCHEMA", "TABLE_NAME", "CHUNK_ID", "CHUNK_SUM", "ROWS_IN_CHUNK"]

  /** The names Postgres reports for the same unquoted aliases, folded to lower case. */
  const PgColumns: seq<string> := ["side", "schema", "table_name", "chunk_id", "chunk_sum", "rows_in_chunk"]

  // ------------------------------------------------------------- ordering

  /**
   * `ORDER BY pk` on Oracle: non-decreasing native key. A key column need not
   * be unique (each column of a composite key is ordered on alone), and rows
   * with equal keys come in whatever order the engine picks.
   */
  predicate NativeOrdered(rows: seq<TableRow>) {
    forall i, j :: 0 <= i < j < |rows| ==> rows[i].key <= rows[j].key
  }

  /** Character-by-character comparison of two texts, a proper prefix first. */
  predicate LexLess(a: string, b: string)
    decreases |a|
  {
    if a == [] then b != []
    else if b == [] then false
    else if a[0] != b[0] then a[0] < b[0]
    else LexLess(a[1..], b[1..])
  }

  /**
   * `ORDER BY "pk"::text` on Postgres: non-decreasing decimal text of the key,
   * no later row's text sorting before an earlier one's; rows with equal key
   * texts come in whatever order the engine picks.
   */
  predicate TextOrdered(rows: seq<TableRow>) {
    forall i, j :: 0 <= i < j < |rows| ==> !LexLess(IntText(rows[j].key), IntText(rows[i].key))
  }

  /** No text sorts before itself. */
  lemma {:induction false} LexLessIrreflexive(a: string)
    ensures !LexLess(a, a)
    decreases |a|
  {
    if a != [] {
      LexLessIrreflexive(a[1..]);
    }
  }

  /**
   * Rows tied on the key, as each column of a composite key gives, are ordered
   * for both engines whichever comes first, and which one comes first decides
   * its chunk: with two chunks the row first in the engine's order is in
   * chunk 1 and the other in chunk 2.
   */
  lemma TiedKeys(k: int, a: string, b: string)
    ensures NativeOrdered([TableRow(k, a), TableRow(k, b)]) && NativeOrdered([TableRow(k, b), TableRow(k, a)])
    ensures TextOrdered([TableRow(k, a), TableRow(k, b)]) && TextOrdered([TableRow(k, b), TableRow(k, a)])
    ensures Assign(2, 2) == [1, 2]
  {
    LexLessIrreflexive(IntText(k));
    TwoRowsTwoChunks();
  }

  /** Two rows in two chunks: one row each, in order. */
  lemma TwoRowsTwoChunks()
    ensures Assign(2, 2) == [1, 2]
  {
    assert Ntile(2, 2) == Tiles(1, 0, 2);
    assert Tiles(1, 0, 2) == [1] + Shift(Tiles(1, 0, 1));
    assert Tiles(1, 0, 1) == [1] + Shift(Tiles(1, 0, 0));
  }

  // ---------------------------------------------------------- aggregation

  /** The chunk id of every row, in order; an empty table has none, whatever the chunk count. */
  function Assign(r: nat, chunks: int): (ids: seq<int>)
    requires r > 0 ==> chunks >= 1
    ensures |ids| == r
    ensures forall i :: 0 <= i < r ==> 1 <= ids[i] <= chunks
  {
    if r == 0 then [] else Ntile(r, chunks)
  }

  /** `SUM(row_hash)` over the rows of chunk `b`. */
  function SumWhere(ids: seq<int>, fps: seq<int>, b: int): int
    requires |ids| == |fps|
  {
    if ids == [] then 0
    else (if ids[0] == b then fps[0] else 0) + SumWhere(ids[1..], fps[1..], b)
  }

  /**
   * `GROUP BY chunk_id ORDER BY chunk_id` over chunk ids 1..k: one result per
   * chunk id that some row carries, ascending, with its sum and row count.
   */
  function Groups(side: string, schema: string, table: string, ids: seq<int>, fps: seq<int>, k: nat): (g: seq<ChunkResult>)
    requires |ids| == |fps|
    ensures forall n :: 0 <= n < |g| ==>
      g[n].side == side && g[n].schema == schema && g[n].tableName == table &&
      1 <= g[n].chunkId <= k && g[n].chunkId in ids &&
      g[n].chunkSum == SumWhere(ids, fps, g[n].chunkId) &&
      g[n].rowsInChunk == Count(ids, g[n].chunkId) >= 1
    ensures forall n, m :: 0 <= n < m < |g| ==> g[n].chunkId < g[m].chunkId
    ensures forall id :: 1 <= id <= k && id in ids ==> exists n :: 0 <= n < |g| && g[n].chunkId == id
  {
    GroupsShape(side, schema, table, ids, fps, k);
    GroupRows(side, schema, table, ids, fps, k)
  }

  /** The grouping itself: chunk ids 1..k in turn, each adding its result if some row carries it. */
  function GroupRows(side: string, schema: string, table: string, ids: seq<int>, fps: seq<int>, k: nat): seq<ChunkResult>
    requires |ids| == |fps|
  {
    if k == 0 then []
    else
      var prev := GroupRows(side, schema, table, ids, fps, k - 1);
      if k in ids then
        prev + [ChunkResult(side, schema, table, k, SumWhere(ids, fps, k), Count(ids, k))]
      else prev
  }

  /** What `GROUP BY chunk_id ORDER BY chunk_id` promises of its result `g`: the rows it lists are right, and it lists every occurring id. */
  predicate GroupedAs(g: seq<ChunkResult>, side: string, schema: string, table: string, ids: seq<int>, fps: seq<int>, k: nat)
    requires |ids| == |fps|
  {
    ListedRight(g, side, schema, table, ids, fps, k) && ListsAll(g, ids, k)
  }

  /** Each listed row carries the labels, an occurring id in 1..k, that chunk's sum and count, with ids strictly ascending. */
  predicate ListedRight(g: seq<ChunkResult>, side: string, schema: string, table: string, ids: seq<int>, fps: seq<int>, k: nat)
    requires |ids| == |fps|
  {
    (forall n :: 0 <= n < |g| ==>
      g[n].side == side && g[n].schema == schema && g[n].tableName == table &&
      1 <= g[n].chunkId <= k && g[n].chunkId in ids &&
      g[n].chunkSum == SumWhere(ids, fps, g[n].chunkId) &&
      g[n].rowsInChunk == Count(ids, g[n].chunkId) >= 1) &&
    (forall n, m :: 0 <= n < m < |g| ==> g[n].chunkId < g[m].chunkId)
  }

  /** Every id in 1..k that some row carries has a listed row. */
  predicate ListsAll(g: seq<ChunkResult>, ids: seq<int>, k: nat) {
    forall id :: 1 <= id <= k && id in ids ==> exists n :: 0 <= n < |g| && g[n].chunkId == id
  }

  lemma {:induction false} GroupsShape(side: string, schema: string, table: string, ids: seq<int>, fps: seq<int>, k: nat)
    requires |ids| == |fps|
    ensures GroupedAs(GroupRows(side, schema, table, ids, fps, k), side, schema, table, ids, fps, k)
  {
    GroupsListedRight(side, schema, table, ids, fps, k);
    GroupsListAll(side, schema, table, ids, fps, k);
  }

  lemma {:induction false} GroupsListedRight(side: string, schema: string, table: string, ids: seq<int>, fps: seq<int>, k: nat)
    requires |ids| == |fps|
    ensures ListedRight(GroupRows(side, schema, table, ids, fps, k), side, schema, table, ids, fps, k)
  {
    if k > 0 {
      GroupsListedRight(side, schema, table, ids, fps, k - 1);
      var prev := GroupRows(side, schema, table, ids, fps, k - 1);
      if k in ids {
        var g := prev + [ChunkResult(side, schema, table, k, SumWhere(ids, fps, k), Count(ids, k))];
        assert Count(ids, k) >= 1;
        assert forall n :: 0 <= n < |prev| ==> g[n] == prev[n];
      }
    }
  }

  lemma {:induction false} GroupsListAll(side: string, schema: string, table: string, ids: seq<int>, fps: seq<int>, k: nat)
    requires |ids| == |fps|
    ensures ListsAll(GroupRows(side, schema, table, ids, fps, k), ids, k)
  {
    if k > 0 {
      GroupsListAll(side, schema, table, ids, fps, k - 1);
      var prev := GroupRows(side, schema, table, ids, fps, k - 1);
      var g := GroupRows(side, schema, table, ids, fps, k);
      assert forall n :: 0 <= n < |prev| ==> g[n] == prev[n];
      forall id | 1 <= id <= k && id in ids
        ensures exists n :: 0 <= n < |g| && g[n].chunkId == id
      {
        if id == k {
          assert g[|prev|].chunkId == id;
        } else {
          var n :| 0 <= n < |prev| && prev[n].chunkId == id;
          assert g[n].chunkId == id;
        }
      }
    }
  }

  function HashesOra(oraHash: OraHash, rows: seq<TableRow>): (fps: seq<int>)
    ensures |fps| == |rows|
    ensures forall i :: 0 <= i < |rows| ==> fps[i] == OraRowHash(oraHash, rows[i].canon)
    ensures forall i :: 0 <= i < |fps| ==> 0 <= fps[i] < Two32
  {
    seq(|rows|, i requires 0 <= i < |rows| => OraRowHash(oraHash, rows[i].canon) as int)
  }

  function HashesPg(md5: Md5, rows: seq<TableRow>): (fps: seq<int>)
    ensures |fps| == |rows|
    ensures forall i :: 0 <= i < |rows| ==> fps[i] == PgRowHash(md5, rows[i].canon)
    ensures forall i :: 0 <= i < |fps| ==> -Two31 <= fps[i] < Two31
  {
    seq(|rows|, i requires 0 <= i < |rows| => PgRowHash(md5, rows[i].canon) as int)
  }

  /** The result rows of a checksum query over rows already in the engine's order. */
  function ChunkRows(side: string, schema: string, table: string, fps: seq<int>, chunks: int): seq<ChunkResult>
    requires |fps| > 0 ==> chunks >= 1
  {
    var ids := Assign(|fps|, chunks);
    Groups(side, schema, table, ids, fps, if chunks >= 1 then chunks else 0)
  }

  /**
   * `ora_chunk_sums`: labelled with the Oracle schema and the bare table name.
   * NTILE rejects a chunk count below 1 once there is a row to number.
   */
  function OraChunkSums(oraHash: OraHash, schema: string, table: string, rows: seq<TableRow>, chunks: int): (r: Result<Frame, QueryError>)
    requires NativeOrdered(rows)
    ensures r.Failure? <==> |rows| > 0 && chunks < 1
    ensures r.Failure? ==> r.error == NtileArgument(chunks)
    ensures r.Success? ==> r.value.columns == OraColumns
    ensures r.Success? ==> forall n :: 0 <= n < |r.value.rows| ==>
      r.value.rows[n].side == "ORA" && r.value.rows[n].schema == schema && r.value.rows[n].tableName == table
  {
    if |rows| > 0 && chunks < 1 then Failure(NtileArgument(chunks))
    else Success(Frame(OraColumns, ChunkRows("ORA", schema, table, HashesOra(oraHash, rows), chunks)))
  }

  /** A quoted identifier resolves only to a column of exactly that spelling. */
  predicate NamesColumn(cols: seq<Column>, name: string) {
    exists i :: 0 <= i < |cols| && cols[i].0 == name
  }

  /**
   * The query `pg_chunk_sums` runs, with the SCHEMA and TABLE_NAME labels it
   * binds left to the caller. `cols` is what `information_schema.columns`
   * reports for the table. With no columns the statement calls `md5()`
   * without an argument, which Postgres rejects while it analyses the select
   * list; the window's `ORDER BY "pk"::text` is analysed after that and
   * fails when `pk` names no column; NTILE rejects a chunk count below 1 once
   * there is a row.
   */
  function PgChunkSumsLabelled(md5: Md5, schemaLabel: string, tableLabel: string, pk: string,
      cols: seq<Column>, rows: seq<TableRow>, chunks: int): (r: Result<Frame, QueryError>)
    requires TextOrdered(rows)
    ensures r.Failure? <==> cols == [] || !NamesColumn(cols, pk) || (|rows| > 0 && chunks < 1)
    ensures r.Failure? && cols == [] ==> r.error == EmptyMd5Argument
    ensures r.Failure? && cols != [] && !NamesColumn(cols, pk) ==> r.error == UnknownColumn(pk)
    ensures r.Failure? && cols != [] && NamesColumn(cols, pk) ==> r.error == NtileArgument(chunks)
    ensures r.Success? ==> r.value.columns == PgColumns
    ensures r.Success? ==> forall n :: 0 <= n < |r.value.rows| ==>
      r.value.rows[n].side == "PG" && r.value.rows[n].schema == schemaLabel && r.value.rows[n].tableName == tableLabel
  {
    if PgCatExpr(cols) == [] then Failure(EmptyMd5Argument)
    else if !NamesColumn(cols, pk) then Failure(UnknownColumn(pk))
    else if |rows| > 0 && chunks < 1 then Failure(NtileArgument(chunks))
    else Success(Frame(PgColumns, ChunkRows("PG", schemaLabel, tableLabel, HashesPg(md5, rows), chunks)))
  }

  /** `pg_chunk_sums` as written: SCHEMA is the schema and TABLE_NAME is `schema.table`. */
  function PgChunkSums(md5: Md5, schema: string, table: string, pk: string,
      cols: seq<Column>, rows: seq<TableRow>, chunks: int): (r: Result<Frame, QueryError>)
    requires TextOrdered(rows)
    ensures r.Success? ==> forall n :: 0 <= n < |r.value.rows| ==>
      r.value.rows[n].tableName == schema + "." + table && '.' in r.value.rows[n].tableName
  {
    var qualified := schema + "." + table;
    assert qualified[|schema|] == '.';
    PgChunkSumsLabelled(md5, schema, qualified, pk, cols, rows, chunks)
  }

  /** No ASCII capital letter in `s`: how a migration that folds names to lower case leaves them. */
  predicate NoCapital(s: string) {
    forall i :: 0 <= i < |s| ==> !('A' <= s[i] <= 'Z')
  }

  /**
   * As written, the key name is quoted verbatim: a spec whose key holds a
   * capital letter, such as every key `fetch_oracle_tables` reads from
   * Oracle's upper-case metadata, names no column of a Postgres table whose
   * column names were folded to lower case, so the query fails for every
   * content of the table.
   */
  lemma QuotedKeyUnresolved(md5: Md5, spec: TableList.TableSpec, cols: seq<Column>, rows: seq<TableRow>, k: nat)
    requires TextOrdered(rows)
    requires cols != []
    requires forall i :: 0 <= i < |cols| ==> NoCapital(cols[i].0)
    requires k < |spec.pk| && 'A' <= spec.pk[k] <= 'Z'
    ensures PgChunkSums(md5, spec.pgSchema, spec.pgTable, spec.pk, cols, rows, spec.chunks)
      == Failure(UnknownColumn(spec.pk))
  {
    forall i | 0 <= i < |cols|
      ensures cols[i].0 != spec.pk
    {
      if |cols[i].0| == |spec.pk| {
        assert !('A' <= cols[i].0[k] <= 'Z');
      }
    }
  }

  /** The case above for one Oracle primary-key metadata row, as `fetch_oracle_tables` maps it. */
  lemma QuotedKeyExample(md5: Md5)
    ensures var spec := TableList.SpecOfPkRow(TableList.PkRow("HR", "EMPLOYEES", "EMPLOYEE_ID"), 4);
      spec.pgSchema == "hr" && spec.pgTable == "employees" &&
      PgChunkSums(md5, spec.pgSchema, spec.pgTable, spec.pk,
        [("employee_id", "integer"), ("name", "text")], [], spec.chunks)
        == Failure(UnknownColumn("EMPLOYEE_ID"))
  {
    var spec := TableList.SpecOfPkRow(TableList.PkRow("HR", "EMPLOYEES", "EMPLOYEE_ID"), 4);
    var cols: seq<Column> := [("employee_id", "integer"), ("name", "text")];
    assert spec.pk[0] == 'E';
    QuotedKeyUnresolved(md5, spec, cols, [], 0);
  }

  /**
   * `pg_chunk_sums` with the key name folded to lower case, the mapping
   * `fetch_oracle_tables` applies to the schema and table names: the key
   * resolves whenever the Postgres column of that name exists.
   */
  function PgChunkSumsLoweredKey(md5: Md5, schema: string, table: string, pk: string,
      cols: seq<Column>, rows: seq<TableRow>, chunks: int): (r: Result<Frame, QueryError>)
    requires TextOrdered(rows)
    ensures r.Failure? <==> cols == [] || !NamesColumn(cols, ToLower(pk)) || (|rows| > 0 && chunks < 1)
  {
    PgChunkSums(md5, schema, table, ToLower(pk), cols, rows, chunks)
  }

  /**
   * With the key folded like the table names, a Postgres table whose column
   * names are Oracle's folded to lower case resolves every Oracle key column,
   * and the query fails only on its own count or on an empty column list.
   */
  lemma LoweredKeyResolves(md5: Md5, spec: TableList.TableSpec, oraNames: seq<string>,
      cols: seq<Column>, rows: seq<TableRow>)
    requires TextOrdered(rows)
    requires |cols| == |oraNames|
    requires forall i :: 0 <= i < |cols| ==> cols[i].0 == ToLower(oraNames[i])
    requires spec.pk in oraNames
    ensures PgChunkSumsLoweredKey(md5, spec.pgSchema, spec.pgTable, spec.pk, cols, rows, spec.chunks).Success?
      <==> |rows| == 0 || spec.chunks >= 1
  {
    var i :| 0 <= i < |oraNames| && oraNames[i] == spec.pk;
    assert cols[i].0 == ToLower(spec.pk);
  }

  // ----------------------------------------------------------- properties

  /** The chunk ids a query reports are exactly 1..min(chunks, rows), ascending. */
  lemma ChunkIds(side: string, schema: string, table: string, fps: seq<int>, chunks: int)
    requires chunks >= 1
    ensures |ChunkRows(side, schema, table, fps, chunks)| == Min(chunks, |fps|)
    ensures forall n :: 0 <= n < |ChunkRows(side, schema, table, fps, chunks)| ==>
      ChunkRows(side, schema, table, fps, chunks)[n].chunkId == n + 1
  {
    var ids := Assign(|fps|, chunks);
    var g := ChunkRows(side, schema, table, fps, chunks);
    GroupsIds(side, schema, table, ids, fps, chunks);
    if |fps| == 0 {
      assert Occurring(ids, chunks) == [] by {
        OccurringEmpty(chunks);
      }
    } else {
      NtileOccurring(|fps|, chunks, chunks);
    }
  }

  lemma {:induction false} OccurringEmpty(k: nat)
    ensures Occurring([], k) == []
  {
    if k > 0 {
      OccurringEmpty(k - 1);
    }
  }

  /** The chunk ids of `Groups` are the occurring ids. */
  lemma {:induction false} GroupsIds(side: string, schema: string, table: string, ids: seq<int>, fps: seq<int>, k: nat)
    requires |ids| == |fps|
    ensures |Groups(side, schema, table, ids, fps, k)| == |Occurring(ids, k)|
    ensures forall n :: 0 <= n < |Occurring(ids, k)| ==>
      Groups(side, schema, table, ids, fps, k)[n].chunkId == Occurring(ids, k)[n]
  {
    if k > 0 {
      GroupsIds(side, schema, table, ids, fps, k - 1);
    }
  }

  function RowsTotal(g: seq<ChunkResult>): int {
    if g == [] then 0 else RowsTotal(g[..|g| - 1]) + g[|g| - 1].rowsInChunk
  }

  function SumsTotal(g: seq<ChunkResult>): int {
    if g == [] then 0 else SumsTotal(g[..|g| - 1]) + g[|g| - 1].chunkSum
  }

  /** `Σ_{b=1..k} SumWhere(ids, fps, b)`. */
  function BucketSums(ids: seq<int>, fps: seq<int>, k: nat): int
    requires |ids| == |fps|
  {
    if k == 0 then 0 else BucketSums(ids, fps, k - 1) + SumWhere(ids, fps, k)
  }

  /** `Σ_{b=1..k} Count(ids, b)`. */
  function BucketCounts(ids: seq<int>, k: nat): int {
    if k == 0 then 0 else BucketCounts(ids, k - 1) + Count(ids, k)
  }

  lemma {:induction false} GroupsTotals(side: string, schema: string, table: string, ids: seq<int>, fps: seq<int>, k: nat)
    requires |ids| == |fps|
    ensures RowsTotal(GroupRows(side, schema, table, ids, fps, k)) == BucketCounts(ids, k)
    ensures SumsTotal(GroupRows(side, schema, table, ids, fps, k)) == BucketSums(ids, fps, k)
  {
    if k > 0 {
      GroupsTotals(side, schema, table, ids, fps, k - 1);
      GroupsStep(side, schema, table, ids, fps, k);
      assert BucketCounts(ids, k) == BucketCounts(ids, k - 1) + Count(ids, k);
      assert BucketSums(ids, fps, k) == BucketSums(ids, fps, k - 1) + SumWhere(ids, fps, k);
    }
  }

  /** The last chunk id either adds its own result or, carrying no row, contributes nothing. */
  lemma GroupsStep(side: string, schema: string, table: string, ids: seq<int>, fps: seq<int>, k: nat)
    requires |ids| == |fps| && k > 0
    ensures RowsTotal(GroupRows(side, schema, table, ids, fps, k)) ==
      RowsTotal(GroupRows(side, schema, table, ids, fps, k - 1)) + Count(ids, k)
    ensures SumsTotal(GroupRows(side, schema, table, ids, fps, k)) ==
      SumsTotal(GroupRows(side, schema, table, ids, fps, k - 1)) + SumWhere(ids, fps, k)
  {
    var prev := GroupRows(side, schema, table, ids, fps, k - 1);
    var g := GroupRows(side, schema, table, ids, fps, k);
    if k in ids {
      assert g == prev + [g[|g| - 1]];
      assert g[..|g| - 1] == prev;
    } else {
      assert Count(ids, k) == 0;
      SumWhereAbsent(ids, fps, k);
    }
  }

  lemma {:induction false} SumWhereAbsent(ids: seq<int>, fps: seq<int>, b: int)
    requires |ids| == |fps| && b !in ids
    ensures SumWhere(ids, fps, b) == 0
  {
    if ids != [] {
      SumWhereAbsent(ids[1..], fps[1..], b);
    }
  }

  /** Peeling the first row off the per-bucket sums. */
  lemma {:induction false} BucketSumsCons(ids: seq<int>, fps: seq<int>, k: nat)
    requires |ids| == |fps| > 0
    ensures BucketSums(ids, fps, k) == (if 1 <= ids[0] <= k then fps[0] else 0) + BucketSums(ids[1..], fps[1..], k)
  {
    if k > 0 {
      BucketSumsCons(ids, fps, k - 1);
    }
  }

  /** Every row's hash lands in exactly one of the buckets 1..k. */
  lemma {:induction false} BucketSumsAll(ids: seq<int>, fps: seq<int>, k: nat)
    requires |ids| == |fps|
    requires forall i :: 0 <= i < |ids| ==> 1 <= ids[i] <= k
    ensures BucketSums(ids, fps, k) == Sum(fps)
  {
    if ids == [] {
      BucketSumsEmpty(k);
    } else {
      BucketSumsCons(ids, fps, k);
      BucketSumsAll(ids[1..], fps[1..], k);
    }
  }

  lemma {:induction false} BucketSumsEmpty(k: nat)
    ensures BucketSums([], [], k) == 0
  {
    if k > 0 {
      BucketSumsEmpty(k - 1);
    }
  }

  lemma {:induction false} BucketCountsSizes(r: nat, c: nat, k: nat)
    requires 1 <= c && k <= c
    ensures BucketCounts(Ntile(r, c), k) == SizesUpTo(k, r, c)
  {
    if k > 0 {
      BucketCountsSizes(r, c, k - 1);
      NtileCount(r, c, k);
    }
  }

  /**
   * A query's row counts add up to the table's row count and its chunk sums
   * to the sum of all row hashes: every row is in exactly one chunk.
   */
  lemma ChunkTotals(side: string, schema: string, table: string, fps: seq<int>, chunks: int)
    requires chunks >= 1
    ensures RowsTotal(ChunkRows(side, schema, table, fps, chunks)) == |fps|
    ensures SumsTotal(ChunkRows(side, schema, table, fps, chunks)) == Sum(fps)
  {
    var ids := Assign(|fps|, chunks);
    GroupsTotals(side, schema, table, ids, fps, chunks);
    BucketSumsAll(ids, fps, chunks);
    if |fps| == 0 {
      BucketCountsEmpty(chunks);
    } else {
      BucketCountsSizes(|fps|, chunks, chunks);
      SizesSum(|fps|, chunks);
    }
  }

  lemma {:induction false} BucketCountsEmpty(k: nat)
    ensures BucketCounts([], k) == 0
  {
    if k > 0 {
      BucketCountsEmpty(k - 1);
    }
  }

  /** Changing one row's hash moves only its own chunk's sum, by the change. */
  lemma {:induction false} SumWhereUpdate(ids: seq<int>, fps: seq<int>, i: nat, v: int, b: int)
    requires |ids| == |fps| && i < |ids|
    ensures SumWhere(ids, fps[i := v], b) == SumWhere(ids, fps, b) + (if ids[i] == b then v - fps[i] else 0)
  {
    if i > 0 {
      assert fps[i := v][1..] == fps[1..][i - 1 := v];
      SumWhereUpdate(ids[1..], fps[1..], i - 1, v, b);
    } else {
      assert fps[i := v][1..] == fps[1..];
    }
  }

  /**
   * Sensitivity of a query to one row: replacing row `i`'s hash leaves every
   * chunk's id and row count as they were, changes the sum of chunk
   * `ids[i]` by the difference, and leaves every other chunk's sum alone.
   */
  lemma OneRowChanged(side: string, schema: string, table: string, fps: seq<int>, chunks: int, i: nat, v: int)
    requires chunks >= 1 && i < |fps|
    ensures var before := ChunkRows(side, schema, table, fps, chunks);
      var after := ChunkRows(side, schema, table, fps[i := v], chunks);
      var ids := Assign(|fps|, chunks);
      |after| == |before| &&
      forall n :: 0 <= n < |before| ==>
        after[n].chunkId == before[n].chunkId && after[n].rowsInChunk == before[n].rowsInChunk &&
        after[n].chunkSum == before[n].chunkSum + (if before[n].chunkId == ids[i] then v - fps[i] else 0)
  {
    var ids := Assign(|fps|, chunks);
    GroupsIds(side, schema, table, ids, fps, chunks);
    GroupsIds(side, schema, table, ids, fps[i := v], chunks);
    var before := ChunkRows(side, schema, table, fps, chunks);
    forall n | 0 <= n < |before| {
      SumWhereUpdate(ids, fps, i, v, before[n].chunkId);
    }
  }

  /**
   * Sums cannot see order inside a chunk: exchanging the hashes of two rows
   * of the same chunk leaves every chunk's sum as it was.
   */
  lemma SwapInChunk(ids: seq<int>, fps: seq<int>, i: nat, j: nat, b: int)
    requires |ids| == |fps| && i < |ids| && j < |ids| && ids[i] == ids[j]
    ensures SumWhere(ids, fps[i := fps[j]][j := fps[i]], b) == SumWhere(ids, fps, b)
  {
    SumWhereUpdate(ids, fps, i, fps[j], b);
    SumWhereUpdate(ids, fps[i := fps[j]], j, fps[i], b);
  }

  /**
   * The engines order integer keys differently: 2 comes before 10 natively,
   * but the text "10" sorts before "2". Over the keys {2, 10} with two
   * chunks, Oracle puts key 2 in chunk 1 while Postgres puts it in chunk 2,
   * so the same row lands in different chunks and the per-chunk sums are
   * over different rows.
   */
  lemma TextOrderSplitsChunks(a: string, b: string)
    ensures NativeOrdered([TableRow(2, a), TableRow(10, b)])
    ensures TextOrdered([TableRow(10, b), TableRow(2, a)])
    ensures !TextOrdered([TableRow(2, a), TableRow(10, b)])
    ensures Assign(2, 2) == [1, 2]
  {
    assert IntText(2) == "2" by {
      assert NatText(2) == [DigitChar(2)];
    }
    assert IntText(10) == "10" by {
      assert NatText(10) == NatText(1) + [DigitChar(0)];
    }
    assert LexLess("10", "2");
    assert !LexLess("2", "10");
    var rows := [TableRow(2, a), TableRow(10, b)];
    assert LexLess(IntText(rows[1].key), IntText(rows[0].key));
    TwoRowsTwoChunks();
  }

  /** Text order and native order agree on non-negative keys of the same length. */
  lemma {:induction false} SameLengthOrder(x: nat, y: nat)
    requires |NatText(x)| == |NatText(y)|
    ensures x < y <==> LexLess(NatText(x), NatText(y))
  {
    DigitsOrder(NatText(x), NatText(y));
  }

  /** Equal-length digit strings compare as their values do. */
  lemma {:induction false} DigitsOrder(s: string, t: string)
    requires DigitString(s) && DigitString(t) && |s| == |t|
    ensures DigitsValue(s) < DigitsValue(t) <==> LexLess(s, t)
    decreases |s|
  {
    if s != [] {
      DigitsOrder(s[1..], t[1..]);
      DigitsHead(s);
      DigitsHead(t);
      assert s[0] != t[0] ==> (DigitValue(s[0]) < DigitValue(t[0]) <==> s[0] < t[0]);
      var p := Pow10(|s| - 1);
      var a, b := DigitsValue(s[1..]), DigitsValue(t[1..]);
      DigitsBound(s[1..]);
      DigitsBound(t[1..]);
      if DigitValue(s[0]) < DigitValue(t[0]) {
        MulLess(DigitValue(s[0]), DigitValue(t[0]), p);
      } else if DigitValue(s[0]) > DigitValue(t[0]) {
        MulLess(DigitValue(t[0]), DigitValue(s[0]), p);
      }
    }
  }

  lemma MulLess(d: nat, e: nat, p: nat)
    requires d < e
    ensures d * p + p <= e * p
  {
    var k := e - d;
    assert e * p == d * p + k * p;
    if p > 0 {
      MulAtLeast(p, k);
    }
  }

  predicate DigitString(s: string) {
    forall i :: 0 <= i < |s| ==> IsDigit(s[i])
  }

  function Pow10(n: nat): (p: nat)
    ensures p >= 1
  {
    if n == 0 then 1 else 10 * Pow10(n - 1)
  }

  lemma {:induction false} DigitsBound(s: string)
    requires DigitString(s)
    ensures DigitsValue(s) < Pow10(|s|)
  {
    if s != [] {
      DigitsHead(s);
      DigitsBound(s[1..]);
      MulLess(DigitValue(s[0]), 10, Pow10(|s| - 1));
    }
  }

  /** The leading digit's weight in the value of a digit string. */
  lemma {:induction false} DigitsHead(s: string)
    requires DigitString(s) && s != []
    ensures DigitsValue(s) == DigitValue(s[0]) * Pow10(|s| - 1) + DigitsValue(s[1..])
    decreases |s|
  {
    if |s| > 1 {
      var n := |s|;
      var init, tail := s[..n - 1], s[1..];
      DigitsHead(init);
      assert init[1..] == tail[..n - 2];
      assert init[0] == s[0] && tail[n - 2] == s[n - 1];
      var d, p, l := DigitValue(s[0]), Pow10(n - 2), DigitValue(s[n - 1]);
      var x := DigitsValue(init[1..]);
      assert DigitsValue(tail) == x * 10 + l;
      assert DigitsValue(s) == DigitsValue(init) * 10 + l;
      assert Pow10(n - 1) == 10 * p;
      ShiftDigit(d, p, x, l);
    }
  }

  lemma ShiftDigit(d: int, p: int, x: int, l: int)
    ensures (d * p + x) * 10 + l == d * (10 * p) + (x * 10 + l)
  {
  }
}
