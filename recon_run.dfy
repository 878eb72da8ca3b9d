/**
 * The per-table loop of the reconciliation run: for every table of the list,
 * in order, count the rows on both sides, then fetch both chunked checksums
 * and compare them, catching each stage's failure and carrying on with the
 * next table. Three lists accumulate: the count rows, the chunk rows and the
 * non-empty mismatch reports.
 *
 * What the databases answer for a table is abstract: a `Probe` records the
 * outcome each statement has on a healthy connection. The Postgres
 * connection is transactional and the loop never rolls it back, so once one
 * Postgres statement has failed, every later one fails too; `rollback`
 * selects the loop that rolls back after a failed Postgres statement
 * instead (`rollback == false` is the loop as written).
 */
module ReconRun {

  import opened Wrappers
  import opened TableList
  import opened Checksum
  import opened Compare

  /** What each statement of one table's turn yields on a healthy connection. */
  datatype Probe = Probe(
    oraCount: Option<nat>,                    // `ora_count`, or None when it raises
    pgCount: Option<nat>,                     // `pg_count`
    catExpr: Option<string>,                  // `ora_build_cat_expr`
    oraChunks: Result<Frame, QueryError>,     // `ora_chunk_sums`
    pgChunks: Result<Frame, QueryError>)      // `pg_chunk_sums`

  /** A row of `counts_rows`: side, schema, table and the exact row count. */
  datatype CountRow = CountRow(side: string, schema: string, table: string, rowsExact: nat)

  /** The three accumulators: `counts_rows`, `chunks_rows` and `mismatches`. */
  datatype Acc = Acc(counts: seq<CountRow>, chunks: seq<ChunkResult>, mismatches: seq<seq<MismatchRecord>>)

  /** The accumulators and whether the Postgres transaction is in the failed state. */
  datatype State = State(acc: Acc, pgAborted: bool)

  const Init: State := State(Acc([], [], []), false)

  /**
   * One turn of the loop for table `t`. `pgSchema` is the configured Postgres
   * schema, which both Postgres statements and the PG count row use. A failed
   * Postgres statement leaves the transaction aborted unless it is rolled back.
   */
  function Visit(s: State, t: TableSpec, p: Probe, pgSchema: string, rollback: bool): State {
    if p.oraCount.None? then s
    else if s.pgAborted || p.pgCount.None? then State(s.acc, !rollback)
    else
      var counts := s.acc.counts + [CountRow("ORA", t.oraSchema, t.oraTable, p.oraCount.value),
                                    CountRow("PG", pgSchema, t.pgTable, p.pgCount.value)];
      if p.catExpr.None? || p.oraChunks.Failure? then State(s.acc.(counts := counts), false)
      else if p.pgChunks.Failure? then State(s.acc.(counts := counts), !rollback)
      else
        var ora, pg := p.oraChunks.value, p.pgChunks.value;
        var diff := ChunkDiff(ora, pg);
        State(Acc(counts, s.acc.chunks + ora.rows + pg.rows,
                  s.acc.mismatches + (if diff != [] then [diff] else [])), false)
  }

  /** The loop over `ts` from state `s`, one turn per table in order. */
  function RunFrom(s: State, ts: seq<TableSpec>, ps: seq<Probe>, pgSchema: string, rollback: bool): State
    requires |ts| == |ps|
    decreases |ts|
  {
    if ts == [] then s
    else
      var n := |ts| - 1;
      Visit(RunFrom(s, ts[..n], ps[..n], pgSchema, rollback), ts[n], ps[n], pgSchema, rollback)
  }

  function Run(ts: seq<TableSpec>, ps: seq<Probe>, pgSchema: string, rollback: bool): State
    requires |ts| == |ps|
  {
    RunFrom(Init, ts, ps, pgSchema, rollback)
  }

  lemma RunStep(ts: seq<TableSpec>, ps: seq<Probe>, pgSchema: string, rollback: bool, i: nat)
    requires |ts| == |ps| && i < |ts|
    ensures Run(ts[..i + 1], ps[..i + 1], pgSchema, rollback) ==
      Visit(Run(ts[..i], ps[..i], pgSchema, rollback), ts[i], ps[i], pgSchema, rollback)
  {
    assert ts[..i + 1][..i] == ts[..i] && ps[..i + 1][..i] == ps[..i];
  }

  /**
   * The table loop of `main`, with its three accumulators, the `continue`
   * after a failed count and the caught checksum failure.
   */
  method ReconcileTables(tables: seq<TableSpec>, probes: seq<Probe>, pgSchema: string, rollback: bool)
    returns (countsRows: seq<CountRow>, chunksRows: seq<ChunkResult>, mismatches: seq<seq<MismatchRecord>>)
    requires |tables| == |probes|
    ensures Acc(countsRows, chunksRows, mismatches) == Run(tables, probes, pgSchema, rollback).acc
  {
    countsRows, chunksRows, mismatches := [], [], [];
    var pgAborted := false;
    for i := 0 to |tables|
      invariant State(Acc(countsRows, chunksRows, mismatches), pgAborted) == Run(tables[..i], probes[..i], pgSchema, rollback)
    {
      RunStep(tables, probes, pgSchema, rollback, i);
      var t, p := tables[i], probes[i];
      // row counts: either failure skips the table
      if p.oraCount.None? {
        continue;
      }
      if pgAborted || p.pgCount.None? {
        pgAborted := !rollback;
        continue;
      }
      countsRows := countsRows + [CountRow("ORA", t.oraSchema, t.oraTable, p.oraCount.value)];
      countsRows := countsRows + [CountRow("PG", pgSchema, t.pgTable, p.pgCount.value)];
      // chunked checksum: a failure is caught and the table's count rows stay
      if p.catExpr.None? || p.oraChunks.Failure? {
        continue;
      }
      if p.pgChunks.Failure? {
        pgAborted := !rollback;
        continue;
      }
      var oraChunks, pgChunks := p.oraChunks.value, p.pgChunks.value;
      chunksRows := chunksRows + oraChunks.rows;
      chunksRows := chunksRows + pgChunks.rows;
      var pgFrame := new FrameRef(pgChunks);
      var diff := CompareChunks(oraChunks, pgFrame);
      if diff != [] {
        mismatches := mismatches + [diff];
      }
    }
    assert tables[..|tables|] == tables && probes[..|probes|] == probes;
  }

  // ------------------------------------------------------- one table's turn

  /** A failed count adds nothing for the table, not even the Oracle count that succeeded. */
  lemma CountFailureAddsNothing(s: State, t: TableSpec, p: Probe, pgSchema: string, rollback: bool)
    requires p.oraCount.None? || p.pgCount.None?
    ensures Visit(s, t, p, pgSchema, rollback).acc == s.acc
  {
  }

  /** Whether both counts of the turn succeed. */
  predicate CountsPass(s: State, p: Probe) {
    p.oraCount.Some? && !s.pgAborted && p.pgCount.Some?
  }

  /** Both counts succeeding append exactly two count rows, Oracle's and then Postgres's. */
  lemma CountRowsAppended(s: State, t: TableSpec, p: Probe, pgSchema: string, rollback: bool)
    requires CountsPass(s, p)
    ensures Visit(s, t, p, pgSchema, rollback).acc.counts == s.acc.counts +
      [CountRow("ORA", t.oraSchema, t.oraTable, p.oraCount.value), CountRow("PG", pgSchema, t.pgTable, p.pgCount.value)]
  {
  }

  /** Whether every checksum-stage statement of the turn succeeds. */
  predicate ChunksPass(p: Probe) {
    p.catExpr.Some? && p.oraChunks.Success? && p.pgChunks.Success?
  }

  /**
   * Once the counts succeed, the chunk rows are appended, Oracle's before
   * Postgres's, exactly when every checksum statement succeeds; a checksum
   * failure leaves the chunk rows as they were.
   */
  lemma ChunkRowsAppended(s: State, t: TableSpec, p: Probe, pgSchema: string, rollback: bool)
    requires CountsPass(s, p)
    ensures ChunksPass(p) ==> (Visit(s, t, p, pgSchema, rollback).acc.chunks ==
      s.acc.chunks + p.oraChunks.value.rows + p.pgChunks.value.rows)
    ensures !ChunksPass(p) ==> Visit(s, t, p, pgSchema, rollback).acc.chunks == s.acc.chunks
  {
  }

  /**
   * A mismatch report is appended exactly when every stage succeeds and the
   * comparison is not empty, and it is that comparison's report.
   */
  lemma MismatchAppended(s: State, t: TableSpec, p: Probe, pgSchema: string, rollback: bool)
    ensures var m := Visit(s, t, p, pgSchema, rollback).acc.mismatches;
      (|m| == |s.acc.mismatches| + 1 <==>
        CountsPass(s, p) && ChunksPass(p) && ChunkDiff(p.oraChunks.value, p.pgChunks.value) != []) &&
      (|m| == |s.acc.mismatches| + 1 ==> m == s.acc.mismatches + [ChunkDiff(p.oraChunks.value, p.pgChunks.value)]) &&
      (|m| != |s.acc.mismatches| + 1 ==> m == s.acc.mismatches)
  {
  }

  // ------------------------------------------------------------- the loop

  lemma {:induction false} RunFromAppend(s: State, a: seq<TableSpec>, pa: seq<Probe>, b: seq<TableSpec>, pb: seq<Probe>, pgSchema: string, rollback: bool)
    requires |a| == |pa| && |b| == |pb|
    ensures RunFrom(s, a + b, pa + pb, pgSchema, rollback) ==
      RunFrom(RunFrom(s, a, pa, pgSchema, rollback), b, pb, pgSchema, rollback)
    decreases |b|
  {
    if b == [] {
      assert a + b == a && pa + pb == pa;
    } else {
      var n := |b| - 1;
      RunFromAppend(s, a, pa, b[..n], pb[..n], pgSchema, rollback);
      assert (a + b)[..|a| + n] == a + b[..n];
      assert (pa + pb)[..|pa| + n] == pa + pb[..n];
    }
  }

  /** The accumulators only grow: `x` is a prefix of `y`, list by list. */
  predicate Extends(x: Acc, y: Acc) {
    x.counts <= y.counts && x.chunks <= y.chunks && x.mismatches <= y.mismatches
  }

  lemma {:induction false} RunFromExtends(s: State, ts: seq<TableSpec>, ps: seq<Probe>, pgSchema: string, rollback: bool)
    requires |ts| == |ps|
    ensures Extends(s.acc, RunFrom(s, ts, ps, pgSchema, rollback).acc)
    decreases |ts|
  {
    if ts != [] {
      var n := |ts| - 1;
      RunFromExtends(s, ts[..n], ps[..n], pgSchema, rollback);
    }
  }

  /**
   * Every table is visited once, in list order: what the first `i` tables
   * contribute is already final, a prefix of each accumulator of the whole
   * run, and the rest of the run continues from there.
   */
  lemma RunPrefix(ts: seq<TableSpec>, ps: seq<Probe>, pgSchema: string, rollback: bool, i: nat)
    requires |ts| == |ps| && i <= |ts|
    ensures Extends(Run(ts[..i], ps[..i], pgSchema, rollback).acc, Run(ts, ps, pgSchema, rollback).acc)
    ensures Run(ts, ps, pgSchema, rollback) ==
      RunFrom(Run(ts[..i], ps[..i], pgSchema, rollback), ts[i..], ps[i..], pgSchema, rollback)
  {
    assert ts == ts[..i] + ts[i..] && ps == ps[..i] + ps[i..];
    RunFromAppend(Init, ts[..i], ps[..i], ts[i..], ps[i..], pgSchema, rollback);
    RunFromExtends(Run(ts[..i], ps[..i], pgSchema, rollback), ts[i..], ps[i..], pgSchema, rollback);
  }

  /** How many turns of the run get past both counts. */
  function CountedFrom(s: State, ts: seq<TableSpec>, ps: seq<Probe>, pgSchema: string, rollback: bool): nat
    requires |ts| == |ps|
    decreases |ts|
  {
    if ts == [] then 0
    else
      var n := |ts| - 1;
      CountedFrom(s, ts[..n], ps[..n], pgSchema, rollback) +
        (if CountsPass(RunFrom(s, ts[..n], ps[..n], pgSchema, rollback), ps[n]) then 1 else 0)
  }

  /** The count rows come in pairs, an ORA row followed by a PG row. */
  predicate Paired(counts: seq<CountRow>) {
    |counts| % 2 == 0 &&
    forall k :: 0 <= k < |counts| ==> counts[k].side == (if k % 2 == 0 then "ORA" else "PG")
  }

  /**
   * `counts_rows` receives two rows, ORA then PG, for every table whose counts
   * both succeed and none for the others.
   */
  lemma {:induction false} CountRowsPaired(s: State, ts: seq<TableSpec>, ps: seq<Probe>, pgSchema: string, rollback: bool)
    requires |ts| == |ps| && Paired(s.acc.counts)
    ensures |RunFrom(s, ts, ps, pgSchema, rollback).acc.counts| == |s.acc.counts| + 2 * CountedFrom(s, ts, ps, pgSchema, rollback)
    ensures Paired(RunFrom(s, ts, ps, pgSchema, rollback).acc.counts)
    decreases |ts|
  {
    if ts != [] {
      var n := |ts| - 1;
      CountRowsPaired(s, ts[..n], ps[..n], pgSchema, rollback);
      var before := RunFrom(s, ts[..n], ps[..n], pgSchema, rollback);
      if CountsPass(before, ps[n]) {
        var c := before.acc.counts;
        var c' := RunFrom(s, ts, ps, pgSchema, rollback).acc.counts;
        assert c' == c + [c'[|c|], c'[|c| + 1]];
        PairedAppend(c, c'[|c|], c'[|c| + 1]);
      } else {
        CountFailureOrAbort(before, ts[n], ps[n], pgSchema, rollback);
      }
    }
  }

  lemma PairedAppend(c: seq<CountRow>, ora: CountRow, pg: CountRow)
    requires Paired(c) && ora.side == "ORA" && pg.side == "PG"
    ensures Paired(c + [ora, pg])
  {
    var c' := c + [ora, pg];
    forall k | 0 <= k < |c'| ensures c'[k].side == (if k % 2 == 0 then "ORA" else "PG") {
      if k < |c| {
        assert c'[k] == c[k];
      } else if k == |c| {
        assert k % 2 == 0;
      } else {
        assert k == |c| + 1 && k % 2 == 1;
      }
    }
  }

  /** A turn that does not get past the counts leaves the count rows alone. */
  lemma CountFailureOrAbort(s: State, t: TableSpec, p: Probe, pgSchema: string, rollback: bool)
    requires !CountsPass(s, p)
    ensures Visit(s, t, p, pgSchema, rollback).acc == s.acc
  {
  }

  /** The run over the whole list from the start: |counts_rows| == 2 × the tables whose counts succeeded. */
  lemma CountRowsLength(ts: seq<TableSpec>, ps: seq<Probe>, pgSchema: string, rollback: bool)
    requires |ts| == |ps|
    ensures |Run(ts, ps, pgSchema, rollback).acc.counts| == 2 * CountedFrom(Init, ts, ps, pgSchema, rollback)
    ensures Paired(Run(ts, ps, pgSchema, rollback).acc.counts)
  {
    CountRowsPaired(Init, ts, ps, pgSchema, rollback);
  }

  /**
   * The table list's own Postgres schema is never used: the loop takes the
   * configured one, so lists that differ only in that field give the same run.
   */
  lemma {:induction false} ListSchemaIgnored(ts: seq<TableSpec>, ts': seq<TableSpec>, ps: seq<Probe>, pgSchema: string, rollback: bool)
    requires |ts| == |ts'| == |ps|
    requires forall i :: 0 <= i < |ts| ==> ts'[i] == ts[i].(pgSchema := ts'[i].pgSchema)
    ensures Run(ts, ps, pgSchema, rollback) == Run(ts', ps, pgSchema, rollback)
    decreases |ts|
  {
    if ts != [] {
      var n := |ts| - 1;
      ListSchemaIgnored(ts[..n], ts'[..n], ps[..n], pgSchema, rollback);
      assert ts'[n] == ts[n].(pgSchema := ts'[n].pgSchema);
    }
  }

  // -------------------------------------------- the never-rolled-back transaction

  /**
   * As written, once a Postgres statement has failed the transaction stays
   * aborted: every later table fails its Postgres count and adds nothing.
   */
  lemma {:induction false} AbortedStaysAborted(s: State, ts: seq<TableSpec>, ps: seq<Probe>, pgSchema: string)
    requires |ts| == |ps| && s.pgAborted
    ensures RunFrom(s, ts, ps, pgSchema, false) == s
    decreases |ts|
  {
    if ts != [] {
      var n := |ts| - 1;
      AbortedStaysAborted(s, ts[..n], ps[..n], pgSchema);
    }
  }

  /**
   * A table whose Postgres count fails, ahead of one that is fine on its own:
   * as written the second table contributes nothing; with a rollback it
   * contributes its two count rows, as it does alone.
   */
  lemma FailureLeaksIntoLaterTables(t1: TableSpec, t2: TableSpec, pgSchema: string)
    ensures var p1 := Probe(Some(1), None, None, Failure(Unavailable), Failure(Unavailable));
      var p2 := Probe(Some(5), Some(5), None, Failure(Unavailable), Failure(Unavailable));
      var alone := [CountRow("ORA", t2.oraSchema, t2.oraTable, 5), CountRow("PG", pgSchema, t2.pgTable, 5)];
      Run([t2], [p2], pgSchema, false).acc.counts == alone &&
      Run([t1, t2], [p1, p2], pgSchema, false).acc.counts == [] &&
      Run([t1, t2], [p1, p2], pgSchema, true).acc.counts == alone
  {
    var p1 := Probe(Some(1), None, None, Failure(Unavailable), Failure(Unavailable));
    var p2 := Probe(Some(5), Some(5), None, Failure(Unavailable), Failure(Unavailable));
    assert [t1, t2][..1] == [t1] && [p1, p2][..1] == [p1];
    assert [t1][..0] == [] && [p1][..0] == [];
    assert [t2][..0] == [] && [p2][..0] == [];
    assert [t2][..1] == [t2] && [p2][..1] == [p2];
    assert [t1, t2][..2] == [t1, t2] && [p1, p2][..2] == [p1, p2];
    RunStep([t2], [p2], pgSchema, false, 0);
    RunStep([t1, t2], [p1, p2], pgSchema, false, 0);
    RunStep([t1, t2], [p1, p2], pgSchema, false, 1);
    RunStep([t1, t2], [p1, p2], pgSchema, true, 0);
    RunStep([t1, t2], [p1, p2], pgSchema, true, 1);
  }

  function AccCat(x: Acc, y: Acc): Acc {
    Acc(x.counts + y.counts, x.chunks + y.chunks, x.mismatches + y.mismatches)
  }

  lemma VisitShift(acc0: Acc, a: Acc, t: TableSpec, p: Probe, pgSchema: string)
    ensures Visit(State(AccCat(acc0, a), false), t, p, pgSchema, true) ==
      State(AccCat(acc0, Visit(State(a, false), t, p, pgSchema, true).acc), false)
  {
    if p.oraCount.Some? && p.pgCount.Some? {
      var rows := [CountRow("ORA", t.oraSchema, t.oraTable, p.oraCount.value),
                   CountRow("PG", pgSchema, t.pgTable, p.pgCount.value)];
      assert acc0.counts + a.counts + rows == acc0.counts + (a.counts + rows);
      if p.catExpr.Some? && p.oraChunks.Success? && p.pgChunks.Success? {
        var ora, pg := p.oraChunks.value, p.pgChunks.value;
        var diff := ChunkDiff(ora, pg);
        var found := if diff != [] then [diff] else [];
        assert acc0.chunks + a.chunks + ora.rows + pg.rows == acc0.chunks + (a.chunks + ora.rows + pg.rows);
        assert acc0.mismatches + a.mismatches + found == acc0.mismatches + (a.mismatches + found);
      }
    }
  }

  /**
   * With a rollback after each failed Postgres statement the run never stays
   * aborted, and a run continuing from earlier results only appends what the
   * same tables give on their own.
   */
  lemma {:induction false} RecoveringRunIsolated(acc0: Acc, ts: seq<TableSpec>, ps: seq<Probe>, pgSchema: string)
    requires |ts| == |ps|
    ensures RunFrom(State(acc0, false), ts, ps, pgSchema, true) ==
      State(AccCat(acc0, Run(ts, ps, pgSchema, true).acc), false)
    decreases |ts|
  {
    if ts == [] {
      assert AccCat(acc0, Init.acc) == acc0;
    } else {
      var n := |ts| - 1;
      RecoveringRunIsolated(acc0, ts[..n], ps[..n], pgSchema);
      RecoveringRunIsolated(Init.acc, ts[..n], ps[..n], pgSchema);
      assert AccCat(Init.acc, Run(ts[..n], ps[..n], pgSchema, true).acc) == Run(ts[..n], ps[..n], pgSchema, true).acc;
      VisitShift(acc0, Run(ts[..n], ps[..n], pgSchema, true).acc, ts[n], ps[n], pgSchema);
    }
  }

  /** With a rollback, the run over two lists is the two runs' results one after the other. */
  lemma RecoveringRunsCompose(a: seq<TableSpec>, pa: seq<Probe>, b: seq<TableSpec>, pb: seq<Probe>, pgSchema: string)
    requires |a| == |pa| && |b| == |pb|
    ensures Run(a + b, pa + pb, pgSchema, true).acc ==
      AccCat(Run(a, pa, pgSchema, true).acc, Run(b, pb, pgSchema, true).acc)
  {
    RunFromAppend(Init, a, pa, b, pb, pgSchema, true);
    RecoveringRunIsolated(Init.acc, a, pa, pgSchema);
    assert AccCat(Init.acc, Run(a, pa, pgSchema, true).acc) == Run(a, pa, pgSchema, true).acc;
    RecoveringRunIsolated(Run(a, pa, pgSchema, true).acc, b, pb, pgSchema);
  }

  // ---------------------------------------------------- the label mismatch

  /** The labels the two checksum queries put on their rows as written. */
  predicate LabelledAsWritten(t: TableSpec, p: Probe, pgSchema: string) {
    (p.oraChunks.Success? ==> forall n :: 0 <= n < |p.oraChunks.value.rows| ==>
      p.oraChunks.value.rows[n].tableName == t.oraTable) &&
    (p.pgChunks.Success? ==> forall n :: 0 <= n < |p.pgChunks.value.rows| ==>
      p.pgChunks.value.rows[n].tableName == pgSchema + "." + t.pgTable)
  }

  /**
   * The checksum frames `main` gets from `ora_chunk_sums(ora, t.ora_schema,
   * t.ora_table, …)` and `pg_chunk_sums(pg, pg_schema, t.pg_table, …)` carry
   * the labels as written, whatever the rows and whether each query succeeds.
   */
  lemma QueriesLabelledAsWritten(oraHash: Fingerprint.OraHash, md5: Fingerprint.Md5, t: TableSpec, pgSchema: string,
      cols: seq<Canonical.Column>, oraRows: seq<TableRow>, pgRows: seq<TableRow>,
      oraCount: Option<nat>, pgCount: Option<nat>, catExpr: Option<string>)
    requires NativeOrdered(oraRows) && TextOrdered(pgRows)
    ensures LabelledAsWritten(t,
      Probe(oraCount, pgCount, catExpr,
        OraChunkSums(oraHash, t.oraSchema, t.oraTable, oraRows, t.chunks),
        PgChunkSums(md5, pgSchema, t.pgTable, t.pk, cols, pgRows, t.chunks)),
      pgSchema)
  {
  }

  lemma AsWrittenDiffEmpty(t: TableSpec, p: Probe, pgSchema: string)
    requires LabelledAsWritten(t, p, pgSchema) && '.' !in t.oraTable
    requires p.oraChunks.Success? && p.pgChunks.Success?
    ensures ChunkDiff(p.oraChunks.value, p.pgChunks.value) == []
  {
    var qualified := pgSchema + "." + t.pgTable;
    assert qualified[|pgSchema|] == '.';
    DisjointLabels(p.oraChunks.value.rows, p.pgChunks.value.rows);
  }

  /**
   * With the labels as written and no `.` in any Oracle table name, the
   * mismatch list stays empty for the whole run, whatever the data.
   */
  lemma {:induction false} NoMismatchEverRecorded(s: State, ts: seq<TableSpec>, ps: seq<Probe>, pgSchema: string, rollback: bool)
    requires |ts| == |ps|
    requires forall i :: 0 <= i < |ts| ==> LabelledAsWritten(ts[i], ps[i], pgSchema) && '.' !in ts[i].oraTable
    ensures RunFrom(s, ts, ps, pgSchema, rollback).acc.mismatches == s.acc.mismatches
    decreases |ts|
  {
    if ts != [] {
      var n := |ts| - 1;
      NoMismatchEverRecorded(s, ts[..n], ps[..n], pgSchema, rollback);
      if ps[n].oraChunks.Success? && ps[n].pgChunks.Success? {
        AsWrittenDiffEmpty(ts[n], ps[n], pgSchema);
      }
    }
  }
}
