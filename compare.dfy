/**
 * `compare_chunks`: the two checksum results are inner-joined on
 * (SCHEMA, TABLE_NAME, CHUNK_ID) and the joined pairs whose CHUNK_SUMs
 * differ are kept, with both sums and both row counts. The Postgres result's
 * column names are first upper-cased in place, so that they meet Oracle's.
 * Any exception (a join or selected column that is not there) makes the result empty.
 */
module Compare {

  import opened Text
  import opened Canonical
  import opened Checksum

  /** One row of the mismatch report. */
  datatype MismatchRecord = MismatchRecord(
    schema: string, tableName: string, chunkId: int,
    chunkSumOra: int, chunkSumPg: int, rowsOra: int, rowsPg: int)

  /** The join key of `merge(on=["SCHEMA", "TABLE_NAME", "CHUNK_ID"])`. */
  predicate SameKey(o: ChunkResult, p: ChunkResult) {
    o.schema == p.schema && o.tableName == p.tableName && o.chunkId == p.chunkId
  }

  /** The seven selected columns of a joined pair; both counts are carried along. */
  function Record(o: ChunkResult, p: ChunkResult): MismatchRecord {
    MismatchRecord(o.schema, o.tableName, o.chunkId, o.chunkSum, p.chunkSum, o.rowsInChunk, p.rowsInChunk)
  }

  /** The pairs of one Oracle row with the Postgres rows it joins with, in order, whose sums differ. */
  function MatchRow(o: ChunkResult, pg: seq<ChunkResult>): seq<MismatchRecord> {
    if pg == [] then []
    else (if SameKey(o, pg[0]) && o.chunkSum != pg[0].chunkSum then [Record(o, pg[0])] else []) + MatchRow(o, pg[1..])
  }

  /** The inner join in the order of the left rows, filtered to `match == False`. */
  function Mismatches(ora: seq<ChunkResult>, pg: seq<ChunkResult>): seq<MismatchRecord> {
    if ora == [] then [] else MatchRow(ora[0], pg) + Mismatches(ora[1..], pg)
  }

  /** `r` is the record of a joined pair whose sums differ. */
  predicate Differs(ora: seq<ChunkResult>, pg: seq<ChunkResult>, r: MismatchRecord) {
    exists i, j :: 0 <= i < |ora| && 0 <= j < |pg| &&
      SameKey(ora[i], pg[j]) && ora[i].chunkSum != pg[j].chunkSum && r == Record(ora[i], pg[j])
  }

  lemma {:induction false} MatchRowExactly(o: ChunkResult, pg: seq<ChunkResult>, r: MismatchRecord)
    ensures r in MatchRow(o, pg) <==>
      exists j :: 0 <= j < |pg| && SameKey(o, pg[j]) && o.chunkSum != pg[j].chunkSum && r == Record(o, pg[j])
  {
    if pg != [] {
      MatchRowExactly(o, pg[1..], r);
      if r in MatchRow(o, pg[1..]) {
        var j :| 0 <= j < |pg[1..]| && SameKey(o, pg[1..][j]) && o.chunkSum != pg[1..][j].chunkSum && r == Record(o, pg[1..][j]);
        assert pg[j + 1] == pg[1..][j];
      }
      forall j | 0 < j < |pg| && SameKey(o, pg[j]) && o.chunkSum != pg[j].chunkSum && r == Record(o, pg[j])
        ensures r in MatchRow(o, pg[1..])
      {
        assert pg[1..][j - 1] == pg[j];
      }
    }
  }

  /**
   * The report holds exactly the inner-joined (SCHEMA, TABLE_NAME, CHUNK_ID)
   * pairs whose CHUNK_SUMs differ, each with both sums and both row counts.
   */
  lemma {:induction false} MismatchesExactly(ora: seq<ChunkResult>, pg: seq<ChunkResult>, r: MismatchRecord)
    ensures r in Mismatches(ora, pg) <==> Differs(ora, pg, r)
  {
    if ora != [] {
      MismatchesExactly(ora[1..], pg, r);
      MatchRowExactly(ora[0], pg, r);
      if r in Mismatches(ora[1..], pg) {
        var i, j :| 0 <= i < |ora[1..]| && 0 <= j < |pg| && SameKey(ora[1..][i], pg[j]) &&
          ora[1..][i].chunkSum != pg[j].chunkSum && r == Record(ora[1..][i], pg[j]);
        assert ora[i + 1] == ora[1..][i];
      }
      if Differs(ora, pg, r) {
        var i, j :| 0 <= i < |ora| && 0 <= j < |pg| &&
          SameKey(ora[i], pg[j]) && ora[i].chunkSum != pg[j].chunkSum && r == Record(ora[i], pg[j]);
        if i > 0 {
          assert ora[1..][i - 1] == ora[i];
        }
      }
    }
  }

  /** A reported record's sums differ, and its key occurs among the Oracle rows and among the Postgres rows. */
  lemma ReportedOnBothSides(ora: seq<ChunkResult>, pg: seq<ChunkResult>, r: MismatchRecord)
    requires r in Mismatches(ora, pg)
    ensures r.chunkSumOra != r.chunkSumPg
    ensures exists i :: 0 <= i < |ora| && ora[i].schema == r.schema && ora[i].tableName == r.tableName && ora[i].chunkId == r.chunkId
    ensures exists j :: 0 <= j < |pg| && pg[j].schema == r.schema && pg[j].tableName == r.tableName && pg[j].chunkId == r.chunkId
  {
    MismatchesExactly(ora, pg, r);
  }

  /** A chunk that only one side reports never shows up, whatever its sum. */
  lemma OneSidedNeverReported(ora: seq<ChunkResult>, pg: seq<ChunkResult>, o: ChunkResult, r: MismatchRecord)
    requires forall j :: 0 <= j < |pg| ==> !SameKey(o, pg[j])
    requires r.schema == o.schema && r.tableName == o.tableName && r.chunkId == o.chunkId
    ensures r !in Mismatches(ora, pg)
  {
    MismatchesExactly(ora, pg, r);
    forall i, j | 0 <= i < |ora| && 0 <= j < |pg| && r == Record(ora[i], pg[j])
      ensures !SameKey(ora[i], pg[j])
    {
      assert !SameKey(o, pg[j]);
    }
  }

  /** No two rows of a result share a join key, as in a result grouped by chunk id. */
  predicate UniqueKeys(xs: seq<ChunkResult>) {
    forall i, j :: 0 <= i < j < |xs| ==> !SameKey(xs[i], xs[j])
  }

  /** Every joined pair has equal sums. */
  predicate SumsAgree(ora: seq<ChunkResult>, pg: seq<ChunkResult>) {
    forall i, j :: 0 <= i < |ora| && 0 <= j < |pg| && SameKey(ora[i], pg[j]) ==> ora[i].chunkSum == pg[j].chunkSum
  }

  lemma {:induction false} MatchRowEmpty(o: ChunkResult, pg: seq<ChunkResult>)
    requires forall j :: 0 <= j < |pg| && SameKey(o, pg[j]) ==> o.chunkSum == pg[j].chunkSum
    ensures MatchRow(o, pg) == []
  {
    if pg != [] {
      MatchRowEmpty(o, pg[1..]);
    }
  }

  /** The report is empty, and the tables count as matching, exactly when every joined pair has equal sums. */
  lemma {:induction false} MismatchesEmpty(ora: seq<ChunkResult>, pg: seq<ChunkResult>)
    ensures Mismatches(ora, pg) == [] <==> SumsAgree(ora, pg)
  {
    if SumsAgree(ora, pg) && ora != [] {
      MatchRowEmpty(ora[0], pg);
      assert SumsAgree(ora[1..], pg) by {
        forall i, j | 0 <= i < |ora[1..]| && 0 <= j < |pg| && SameKey(ora[1..][i], pg[j])
          ensures ora[1..][i].chunkSum == pg[j].chunkSum
        {
          assert ora[1..][i] == ora[i + 1];
        }
      }
      MismatchesEmpty(ora[1..], pg);
    }
    if Mismatches(ora, pg) == [] {
      forall i, j | 0 <= i < |ora| && 0 <= j < |pg| && SameKey(ora[i], pg[j])
        ensures ora[i].chunkSum == pg[j].chunkSum
      {
        MismatchesExactly(ora, pg, Record(ora[i], pg[j]));
      }
    }
  }

  /** Comparing a result with itself reports nothing. */
  lemma IdenticalInputs(xs: seq<ChunkResult>)
    requires UniqueKeys(xs)
    ensures Mismatches(xs, xs) == []
  {
    MismatchesEmpty(xs, xs);
  }

  /** What a record says about the chunk, apart from the two row counts. */
  datatype SumReport = SumReport(schema: string, tableName: string, chunkId: int, chunkSumOra: int, chunkSumPg: int)

  function SumReports(m: seq<MismatchRecord>): (s: seq<SumReport>)
    ensures |s| == |m|
    ensures forall k :: 0 <= k < |m| ==>
      s[k] == SumReport(m[k].schema, m[k].tableName, m[k].chunkId, m[k].chunkSumOra, m[k].chunkSumPg)
  {
    seq(|m|, k requires 0 <= k < |m| => SumReport(m[k].schema, m[k].tableName, m[k].chunkId, m[k].chunkSumOra, m[k].chunkSumPg))
  }

  /** The two results agree on everything but the row counts. */
  predicate SameButCounts(xs: seq<ChunkResult>, ys: seq<ChunkResult>) {
    |xs| == |ys| &&
    forall k :: 0 <= k < |xs| ==> xs[k] == ys[k].(rowsInChunk := xs[k].rowsInChunk)
  }

  lemma {:induction false} MatchRowCounts(o: ChunkResult, o': ChunkResult, pg: seq<ChunkResult>, pg': seq<ChunkResult>)
    requires o == o'.(rowsInChunk := o.rowsInChunk) && SameButCounts(pg, pg')
    ensures SumReports(MatchRow(o, pg)) == SumReports(MatchRow(o', pg'))
  {
    if pg != [] {
      assert SameButCounts(pg[1..], pg'[1..]) by {
        forall k | 0 <= k < |pg[1..]| ensures pg[1..][k] == pg'[1..][k].(rowsInChunk := pg[1..][k].rowsInChunk) {
          assert pg[1..][k] == pg[k + 1] && pg'[1..][k] == pg'[k + 1];
        }
      }
      MatchRowCounts(o, o', pg[1..], pg'[1..]);
      assert pg[0] == pg'[0].(rowsInChunk := pg[0].rowsInChunk);
      var h := if SameKey(o, pg[0]) && o.chunkSum != pg[0].chunkSum then [Record(o, pg[0])] else [];
      var h' := if SameKey(o', pg'[0]) && o'.chunkSum != pg'[0].chunkSum then [Record(o', pg'[0])] else [];
      SumReportsConcat(h, MatchRow(o, pg[1..]));
      SumReportsConcat(h', MatchRow(o', pg'[1..]));
    }
  }

  lemma SumReportsConcat(a: seq<MismatchRecord>, b: seq<MismatchRecord>)
    ensures SumReports(a + b) == SumReports(a) + SumReports(b)
  {
  }

  /**
   * Row counts are only carried along: results that differ in nothing but
   * their ROWS_IN_CHUNK values yield the same reported chunks with the same sums.
   */
  lemma {:induction false} CountsNotCompared(ora: seq<ChunkResult>, ora': seq<ChunkResult>, pg: seq<ChunkResult>, pg': seq<ChunkResult>)
    requires SameButCounts(ora, ora') && SameButCounts(pg, pg')
    ensures SumReports(Mismatches(ora, pg)) == SumReports(Mismatches(ora', pg'))
  {
    if ora != [] {
      assert SameButCounts(ora[1..], ora'[1..]) by {
        forall k | 0 <= k < |ora[1..]| ensures ora[1..][k] == ora'[1..][k].(rowsInChunk := ora[1..][k].rowsInChunk) {
          assert ora[1..][k] == ora[k + 1] && ora'[1..][k] == ora'[k + 1];
        }
      }
      CountsNotCompared(ora[1..], ora'[1..], pg, pg');
      MatchRowCounts(ora[0], ora'[0], pg, pg');
      SumReportsConcat(MatchRow(ora[0], pg), Mismatches(ora[1..], pg));
      SumReportsConcat(MatchRow(ora'[0], pg'), Mismatches(ora'[1..], pg'));
    }
  }

  /**
   * When no Oracle TABLE_NAME contains a `.` and every Postgres one does, no
   * pair joins and the report is empty, whatever the sums.
   */
  lemma DisjointLabels(ora: seq<ChunkResult>, pg: seq<ChunkResult>)
    requires forall i :: 0 <= i < |ora| ==> '.' !in ora[i].tableName
    requires forall j :: 0 <= j < |pg| ==> '.' in pg[j].tableName
    ensures Mismatches(ora, pg) == []
  {
    forall i, j | 0 <= i < |ora| && 0 <= j < |pg| ensures !SameKey(ora[i], pg[j]) {
      assert '.' in pg[j].tableName && '.' !in ora[i].tableName;
    }
    MismatchesEmpty(ora, pg);
  }

  // ------------------------------------------------------------- frames

  /** `[c.upper() for c in pg_df.columns]`. */
  function UpperAll(cols: seq<string>): (us: seq<string>)
    ensures |us| == |cols|
    ensures forall k :: 0 <= k < |cols| ==> us[k] == ToUpper(cols[k])
    ensures forall k, i :: 0 <= k < |us| && 0 <= i < |us[k]| ==> !('a' <= us[k][i] <= 'z')
  {
    seq(|cols|, k requires 0 <= k < |cols| => ToUpper(cols[k]))
  }

  /** The merge keys and the two selected value columns are all there. */
  predicate Mergeable(cols: seq<string>) {
    "SCHEMA" in cols && "TABLE_NAME" in cols && "CHUNK_ID" in cols &&
    "CHUNK_SUM" in cols && "ROWS_IN_CHUNK" in cols
  }

  /**
   * The report `compare_chunks` returns for the two results: the merge and
   * filter once the Postgres columns are upper-cased, or nothing when a
   * needed column is missing and the merge or the selection raises.
   */
  function ChunkDiff(ora: Frame, pg: Frame): (m: seq<MismatchRecord>)
    ensures !Mergeable(ora.columns) || !Mergeable(UpperAll(pg.columns)) ==> m == []
    ensures forall r :: r in m ==> Differs(ora.rows, pg.rows, r)
  {
    if Mergeable(ora.columns) && Mergeable(UpperAll(pg.columns)) then
      var m := Mismatches(ora.rows, pg.rows);
      forall r | r in m ensures Differs(ora.rows, pg.rows, r) {
        MismatchesExactly(ora.rows, pg.rows, r);
      }
      m
    else []
  }

  /** Once both results have their columns, the report is exactly the joined pairs whose sums differ. */
  lemma ChunkDiffExactly(ora: Frame, pg: Frame, r: MismatchRecord)
    requires Mergeable(ora.columns) && Mergeable(UpperAll(pg.columns))
    ensures r in ChunkDiff(ora, pg) <==> Differs(ora.rows, pg.rows, r)
  {
    MismatchesExactly(ora.rows, pg.rows, r);
  }

  lemma UpperPgColumns()
    ensures UpperAll(PgColumns) == OraColumns
  {
    var us := UpperAll(PgColumns);
    assert us[0] == "SIDE" && us[1] == "SCHEMA" && us[2] == "TABLE_NAME";
    assert us[3] == "CHUNK_ID" && us[4] == "CHUNK_SUM" && us[5] == "ROWS_IN_CHUNK";
  }

  /** The results of the two checksum queries never lack a merge key or a selected column. */
  lemma QueryResultsMergeable()
    ensures Mergeable(OraColumns)
    ensures Mergeable(UpperAll(PgColumns))
  {
    UpperPgColumns();
    assert OraColumns[1] == "SCHEMA" && OraColumns[2] == "TABLE_NAME" && OraColumns[3] == "CHUNK_ID";
    assert OraColumns[4] == "CHUNK_SUM" && OraColumns[5] == "ROWS_IN_CHUNK";
  }

  /** A pandas DataFrame the caller holds a reference to. */
  class FrameRef {
    var columns: seq<string>
    var rows: seq<ChunkResult>

    constructor (f: Frame)
      ensures columns == f.columns && rows == f.rows
    {
      columns := f.columns;
      rows := f.rows;
    }

    function Value(): Frame
      reads this
    {
      Frame(columns, rows)
    }
  }

  /**
   * `compare_chunks(ora_df, pg_df)`: renames the caller's Postgres columns to
   * upper case in place, then returns the report.
   */
  method CompareChunks(ora: Frame, pg: FrameRef) returns (diff: seq<MismatchRecord>)
    modifies pg
    ensures pg.columns == UpperAll(old(pg.columns)) && pg.rows == old(pg.rows)
    ensures diff == ChunkDiff(ora, old(pg.Value()))
  {
    var original := pg.Value();
    pg.columns := UpperAll(pg.columns);
    if Mergeable(ora.columns) && Mergeable(pg.columns) {
      diff := Mismatches(ora.rows, pg.rows);
    } else {
      diff := [];
    }
    assert diff == ChunkDiff(ora, original);
  }

  // -------------------------------------------------- with the queries

  /**
   * As written, the two queries label their rows so that nothing joins:
   * Oracle's TABLE_NAME is the bare table name, Postgres's is `schema.table`.
   * Whenever the Oracle table name has no `.`, no chunk is ever reported,
   * however the sums differ.
   */
  lemma AsWrittenNeverReports(oraHash: Fingerprint.OraHash, md5: Fingerprint.Md5,
      oraSchema: string, oraTable: string, pgSchema: string, pgTable: string,
      pk: string, cols: seq<Column>, oraRows: seq<TableRow>, pgRows: seq<TableRow>, chunks: int)
    requires NativeOrdered(oraRows) && TextOrdered(pgRows)
    requires '.' !in oraTable
    requires OraChunkSums(oraHash, oraSchema, oraTable, oraRows, chunks).Success?
    requires PgChunkSums(md5, pgSchema, pgTable, pk, cols, pgRows, chunks).Success?
    ensures ChunkDiff(OraChunkSums(oraHash, oraSchema, oraTable, oraRows, chunks).value,
      PgChunkSums(md5, pgSchema, pgTable, pk, cols, pgRows, chunks).value) == []
  {
    var o := OraChunkSums(oraHash, oraSchema, oraTable, oraRows, chunks).value;
    var p := PgChunkSums(md5, pgSchema, pgTable, pk, cols, pgRows, chunks).value;
    DisjointLabels(o.rows, p.rows);
  }

  /**
   * With the Postgres rows labelled by the Oracle schema and table name, the
   * report is exactly the chunk ids both sides have whose sums differ.
   */
  lemma AlignedLabelsReport(oraHash: Fingerprint.OraHash, md5: Fingerprint.Md5,
      schema: string, table: string,
      pk: string, cols: seq<Column>, oraRows: seq<TableRow>, pgRows: seq<TableRow>, chunks: int, r: MismatchRecord)
    requires NativeOrdered(oraRows) && TextOrdered(pgRows)
    requires OraChunkSums(oraHash, schema, table, oraRows, chunks).Success?
    requires PgChunkSumsLabelled(md5, schema, table, pk, cols, pgRows, chunks).Success?
    ensures var o := OraChunkSums(oraHash, schema, table, oraRows, chunks).value.rows;
      var p := PgChunkSumsLabelled(md5, schema, table, pk, cols, pgRows, chunks).value.rows;
      r in ChunkDiff(OraChunkSums(oraHash, schema, table, oraRows, chunks).value,
        PgChunkSumsLabelled(md5, schema, table, pk, cols, pgRows, chunks).value) <==>
      exists i, j :: 0 <= i < |o| && 0 <= j < |p| && o[i].chunkId == p[j].chunkId &&
        o[i].chunkSum != p[j].chunkSum && r == Record(o[i], p[j])
  {
    var o := OraChunkSums(oraHash, schema, table, oraRows, chunks).value;
    var p := PgChunkSumsLabelled(md5, schema, table, pk, cols, pgRows, chunks).value;
    QueryResultsMergeable();
    ChunkDiffExactly(o, p, r);
  }
}
