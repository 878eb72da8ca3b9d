/**
 * Where the reconciler's table list comes from: the `tables.csv` parser
 * `load_tables` and the primary-key metadata mapping `fetch_oracle_tables`.
 */
module TableList {

  import opened Wrappers
  import opened Text

  /** One reconciliation unit: the Oracle and Postgres names, the key column and the chunk count. */
  datatype TableSpec = TableSpec(
    oraSchema: string, oraTable: string, pgSchema: string, pgTable: string, pk: string, chunks: int)

  /** The `ValueError`s `load_tables` lets escape. */
  datatype LoadError =
    | InvalidLine(line: string)      // fewer than five comma-separated fields
    | BadChunkCount(field: string)   // `int()` rejected the sixth field

  /** What one raw line of the file turns into. */
  datatype LineOutcome = Skipped | Parsed(spec: TableSpec) | Rejected(error: LoadError)

  /** A stripped line that is ignored: empty or a `#` comment. */
  predicate IsIgnored(line: string) {
    line == [] || line[0] == '#'
  }

  /** The whitespace-stripped comma-separated fields of a line. */
  function Fields(line: string): seq<string> {
    var parts := Split(line, ',');
    seq(|parts|, i requires 0 <= i < |parts| => Strip(parts[i]))
  }

  /** The body of the loop in `load_tables`, for one raw line. */
  function ParseLine(raw: string, defaultChunks: int): LineOutcome {
    var line := Strip(raw);
    if IsIgnored(line) then Skipped
    else
      var parts := Fields(line);
      if |parts| < 5 then Rejected(InvalidLine(line))
      else if |parts| >= 6 && parts[5] != [] then
        match ParseInt(parts[5])
        case None => Rejected(BadChunkCount(parts[5]))
        case Some(n) => Parsed(TableSpec(parts[0], parts[1], parts[2], parts[3], parts[4], n))
      else Parsed(TableSpec(parts[0], parts[1], parts[2], parts[3], parts[4], defaultChunks))
  }

  /** What each line of a file turns into, line by line. */
  function Outcomes(lines: seq<string>, defaultChunks: int): (os: seq<LineOutcome>)
    ensures |os| == |lines|
    ensures forall i :: 0 <= i < |lines| ==> os[i] == ParseLine(lines[i], defaultChunks)
  {
    seq(|lines|, i requires 0 <= i < |lines| => ParseLine(lines[i], defaultChunks))
  }

  /** The specs of a run of line outcomes, or the first error among them. */
  function Collect(os: seq<LineOutcome>): Result<seq<TableSpec>, LoadError> {
    if os == [] then Success([])
    else
      match os[0]
      case Skipped => Collect(os[1..])
      case Rejected(e) => Failure(e)
      case Parsed(t) => Prepend([t], Collect(os[1..]))
  }

  /** What `load_tables` returns or raises for the lines of a file. */
  function LoadedTables(lines: seq<string>, defaultChunks: int): Result<seq<TableSpec>, LoadError> {
    Collect(Outcomes(lines, defaultChunks))
  }

  /** Specs already collected in front of whatever the remaining lines give. */
  function Prepend(done: seq<TableSpec>, rest: Result<seq<TableSpec>, LoadError>): Result<seq<TableSpec>, LoadError> {
    match rest
    case Success(ts) => Success(done + ts)
    case Failure(e) => Failure(e)
  }

  lemma PrependPrepend(a: seq<TableSpec>, b: seq<TableSpec>, r: Result<seq<TableSpec>, LoadError>)
    ensures Prepend(a, Prepend(b, r)) == Prepend(a + b, r)
  {
    if r.Success? {
      assert a + (b + r.value) == (a + b) + r.value;
    }
  }

  lemma PrependEmpty(r: Result<seq<TableSpec>, LoadError>)
    ensures Prepend([], r) == r
  {
    if r.Success? {
      assert [] + r.value == r.value;
    }
  }

  /** Collecting from line `i` on is collecting line `i` and then the rest. */
  lemma CollectStep(os: seq<LineOutcome>, i: nat)
    requires i < |os|
    ensures Collect(os[i..]) ==
      match os[i]
      case Skipped => Collect(os[i + 1..])
      case Rejected(e) => Failure(e)
      case Parsed(t) => Prepend([t], Collect(os[i + 1..]))
  {
    assert os[i..][1..] == os[i + 1..];
  }

  /** `load_tables` on the lines of the file, read one at a time. */
  method LoadTables(lines: seq<string>, defaultChunks: int) returns (r: Result<seq<TableSpec>, LoadError>)
    ensures r == LoadedTables(lines, defaultChunks)
  {
    ghost var os := Outcomes(lines, defaultChunks);
    var rows: seq<TableSpec> := [];
    var i := 0;
    assert os[0..] == os;
    PrependEmpty(Collect(os));
    while i < |lines|
      invariant 0 <= i <= |lines|
      invariant Collect(os) == Prepend(rows, Collect(os[i..]))
    {
      CollectStep(os, i);
      var line := Strip(lines[i]);
      if IsIgnored(line) {
        assert os[i] == Skipped;
        i := i + 1;
        continue;
      }
      var parts := Fields(line);
      if |parts| < 5 {
        assert os[i] == Rejected(InvalidLine(line));
        assert Collect(os) == Failure(InvalidLine(line));
        return Failure(InvalidLine(line));
      }
      var chunks := defaultChunks;
      if |parts| >= 6 && parts[5] != [] {
        var n := ParseInt(parts[5]);
        if n.None? {
          assert os[i] == Rejected(BadChunkCount(parts[5]));
          assert Collect(os) == Failure(BadChunkCount(parts[5]));
          return Failure(BadChunkCount(parts[5]));
        }
        chunks := n.value;
      }
      var t := TableSpec(parts[0], parts[1], parts[2], parts[3], parts[4], chunks);
      assert os[i] == Parsed(t);
      PrependPrepend(rows, [t], Collect(os[i + 1..]));
      rows := rows + [t];
      i := i + 1;
    }
    assert os[i..] == [];
    assert rows + [] == rows;
    r := Success(rows);
  }

  /** The number of outcomes that are specs or errors, not skipped lines. */
  function SpecLineCount(os: seq<LineOutcome>): nat {
    if os == [] then 0
    else (if os[0].Skipped? then 0 else 1) + SpecLineCount(os[1..])
  }

  /** Reading two pieces of a file one after the other is reading the whole file. */
  lemma {:induction false} CollectAppend(a: seq<LineOutcome>, b: seq<LineOutcome>)
    ensures Collect(a + b) ==
      match Collect(a)
      case Success(ts) => Prepend(ts, Collect(b))
      case Failure(e) => Failure(e)
  {
    if a == [] {
      assert a + b == b;
      match Collect(b)
      case Success(ts) => assert ts == [] + ts;
      case Failure(_) =>
    } else {
      assert (a + b)[0] == a[0] && (a + b)[1..] == a[1..] + b;
      CollectAppend(a[1..], b);
      match a[0]
      case Skipped =>
      case Rejected(_) =>
      case Parsed(t) =>
        match Collect(a[1..])
        case Success(ts) => PrependPrepend([t], ts, Collect(b));
        case Failure(_) =>
    }
  }

  lemma LoadedTablesAppend(a: seq<string>, b: seq<string>, d: int)
    ensures LoadedTables(a + b, d) ==
      match LoadedTables(a, d)
      case Success(ts) => Prepend(ts, LoadedTables(b, d))
      case Failure(e) => Failure(e)
  {
    assert Outcomes(a + b, d) == Outcomes(a, d) + Outcomes(b, d);
    CollectAppend(Outcomes(a, d), Outcomes(b, d));
  }

  /**
   * A successful collection has exactly one spec per line that is not
   * skipped, in line order; a failed one reports the error of the first
   * rejected line.
   */
  lemma {:induction false} CollectLines(os: seq<LineOutcome>)
    ensures Collect(os).Success? <==> forall i :: 0 <= i < |os| ==> !os[i].Rejected?
    ensures Collect(os).Success? ==> |Collect(os).value| == SpecLineCount(os)
    ensures Collect(os).Success? ==> forall i :: 0 <= i < |os| && os[i].Parsed? ==>
      SpecLineCount(os[..i]) < |Collect(os).value| && Collect(os).value[SpecLineCount(os[..i])] == os[i].spec
    ensures Collect(os).Failure? ==>
      exists i :: 0 <= i < |os| && os[i] == Rejected(Collect(os).error)
                  && forall j :: 0 <= j < i ==> !os[j].Rejected?
  {
    if os != [] {
      var rest := os[1..];
      CollectLines(rest);
      assert forall i :: 1 <= i < |os| ==> os[i] == rest[i - 1];
      forall i | 1 <= i <= |os|
        ensures SpecLineCount(os[..i]) == SpecLineCount([os[0]]) + SpecLineCount(rest[..i - 1])
      {
        assert os[..i] == [os[0]] + rest[..i - 1];
        assert os[..i][1..] == rest[..i - 1];
      }
      assert os[..0] == [];
      if Collect(os).Failure? && !os[0].Rejected? {
        var k :| 0 <= k < |rest| && rest[k] == Rejected(Collect(os).error)
                 && forall j :: 0 <= j < k ==> !rest[j].Rejected?;
        assert os[k + 1] == Rejected(Collect(os).error);
      }
    }
  }

  /**
   * `load_tables` succeeds exactly when no line is rejected; then it yields one
   * spec per line that is neither empty nor a comment, in file order.
   * Otherwise it raises the error of the first rejected line.
   */
  lemma LoadedTablesLines(lines: seq<string>, d: int)
    ensures LoadedTables(lines, d).Success? <==> forall i :: 0 <= i < |lines| ==> !ParseLine(lines[i], d).Rejected?
    ensures LoadedTables(lines, d).Success? ==>
      && |LoadedTables(lines, d).value| == SpecLineCount(Outcomes(lines, d))
      && forall i :: 0 <= i < |lines| && ParseLine(lines[i], d).Parsed? ==>
           && SpecLineCount(Outcomes(lines, d)[..i]) < |LoadedTables(lines, d).value|
           && LoadedTables(lines, d).value[SpecLineCount(Outcomes(lines, d)[..i])] == ParseLine(lines[i], d).spec
    ensures LoadedTables(lines, d).Failure? ==>
      exists i :: 0 <= i < |lines| && ParseLine(lines[i], d) == Rejected(LoadedTables(lines, d).error)
                  && forall j :: 0 <= j < i ==> !ParseLine(lines[j], d).Rejected?
  {
    CollectLines(Outcomes(lines, d));
  }

  /** An ignored line contributes nothing; any other line is either a spec or an error. */
  lemma ParseLineSkips(raw: string, d: int)
    ensures ParseLine(raw, d).Skipped? <==> IsIgnored(Strip(raw))
    ensures ParseLine(raw, d) == Rejected(InvalidLine(Strip(raw))) <==>
      !IsIgnored(Strip(raw)) && |Split(Strip(raw), ',')| < 5
  {
  }

  /** The card a spec makes in `tables.csv`: its six fields joined by commas. */
  function FormatLine(t: TableSpec): string {
    Join([t.oraSchema, t.oraTable, t.pgSchema, t.pgTable, t.pk, IntText(t.chunks)], ",")
  }

  /** A field that survives `split(",")` and `strip()` unchanged. */
  predicate PlainField(f: string) {
    ',' !in f && IsStripped(f)
  }

  /**
   * Parsing a line written from a spec gives that spec back, whatever its chunk
   * count (zero and negative counts included: nothing checks them).
   */
  lemma ParseFormatLine(t: TableSpec, d: int)
    requires PlainField(t.oraSchema) && PlainField(t.oraTable) && PlainField(t.pgSchema)
    requires PlainField(t.pgTable) && PlainField(t.pk)
    requires t.oraSchema == [] || t.oraSchema[0] != '#'
    ensures ParseLine(FormatLine(t), d) == Parsed(t)
  {
    var fs := [t.oraSchema, t.oraTable, t.pgSchema, t.pgTable, t.pk, IntText(t.chunks)];
    IntTextPlain(t.chunks);
    ParseIntText(t.chunks);
    forall i | 0 <= i < |fs|
      ensures ',' !in fs[i] && Strip(fs[i]) == fs[i]
    {
      StripStripped(fs[i]);
    }
    ParseFields(fs, d);
  }

  lemma IntTextPlain(i: int)
    ensures PlainField(IntText(i)) && IntText(i) != []
  {
    var s := IntText(i);
    if i < 0 {
      assert s[1..] == NatText(-i);
      assert forall k :: 1 <= k < |s| ==> IsDigit(s[k]) by {
        forall k | 1 <= k < |s| ensures IsDigit(s[k]) { assert s[k] == s[1..][k - 1]; }
      }
    }
  }

  /** The outcome `load_tables` gives a non-ignored line whose stripped fields are `fs`. */
  function OutcomeOfFields(fs: seq<string>, d: int): LineOutcome
    requires |fs| >= 5
  {
    if |fs| >= 6 && fs[5] != [] then
      match ParseInt(fs[5])
      case None => Rejected(BadChunkCount(fs[5]))
      case Some(n) => Parsed(TableSpec(fs[0], fs[1], fs[2], fs[3], fs[4], n))
    else Parsed(TableSpec(fs[0], fs[1], fs[2], fs[3], fs[4], d))
  }

  /**
   * A line of at least five comma-free fields, each with any padding around
   * it: every field is whitespace-stripped, the spec takes the first five, only
   * a non-empty sixth field changes the chunk count (and an unreadable one
   * raises), and every field after the sixth is ignored.
   */
  lemma ParseFields(fs: seq<string>, d: int)
    requires |fs| >= 5
    requires forall i :: 0 <= i < |fs| ==> ',' !in fs[i]
    requires Strip(fs[0]) == [] || Strip(fs[0])[0] != '#'
    ensures ParseLine(Join(fs, ","), d) ==
      if |fs| >= 6 && Strip(fs[5]) != [] then
        match ParseInt(Strip(fs[5]))
        case None => Rejected(BadChunkCount(Strip(fs[5])))
        case Some(n) => Parsed(TableSpec(Strip(fs[0]), Strip(fs[1]), Strip(fs[2]), Strip(fs[3]), Strip(fs[4]), n))
      else Parsed(TableSpec(Strip(fs[0]), Strip(fs[1]), Strip(fs[2]), Strip(fs[3]), Strip(fs[4]), d))
  {
    var line := Join(fs, ",");
    FieldsOfPaddedJoin(fs);
    var stripped := seq(|fs|, i requires 0 <= i < |fs| => Strip(fs[i]));
    ParseLineOfFields(line, stripped, d);
  }

  lemma ParseLineOfFields(line: string, fs: seq<string>, d: int)
    requires !IsIgnored(Strip(line)) && Fields(Strip(line)) == fs && |fs| >= 5
    ensures ParseLine(line, d) == OutcomeOfFields(fs, d)
  {
  }

  /** The fields with the first one's front and the last one's back stripped. */
  function TrimEnds(fs: seq<string>): seq<string>
    requires |fs| >= 2
  {
    [LStrip(fs[0])] + fs[1..|fs| - 1] + [RStrip(fs[|fs| - 1])]
  }

  /** `lstrip()` of a comma-join reaches no further than the first field. */
  lemma LStripJoin(fs: seq<string>)
    requires |fs| >= 2
    ensures LStrip(Join(fs, ",")) == Join([LStrip(fs[0])] + fs[1..], ",")
  {
    var g := [LStrip(fs[0])] + fs[1..];
    assert g[1..] == fs[1..];
    JoinCons(fs, ",");
    JoinCons(g, ",");
    LStripAppend(fs[0], "," + Join(fs[1..], ","));
  }

  /** `rstrip()` of a comma-join reaches no further than the last field. */
  lemma RStripJoin(g: seq<string>)
    requires |g| >= 2
    ensures RStrip(Join(g, ",")) == Join(g[..|g| - 1] + [RStrip(g[|g| - 1])], ",")
  {
    var n := |g|;
    var h := g[..n - 1] + [RStrip(g[n - 1])];
    assert h[..n - 1] == g[..n - 1];
    JoinSnoc(g, ",");
    JoinSnoc(h, ",");
    var front := Join(g[..n - 1], ",") + ",";
    assert Join(g, ",") == front + g[n - 1];
    assert Join(h, ",") == front + RStrip(g[n - 1]);
    RStripPrepend(front, g[n - 1]);
  }

  /** `TrimEnds` is the first field's front stripped, then the last field's back. */
  lemma TrimEndsSteps(fs: seq<string>)
    requires |fs| >= 2
    ensures var g := [LStrip(fs[0])] + fs[1..];
      TrimEnds(fs) == g[..|g| - 1] + [RStrip(g[|g| - 1])]
  {
    var n := |fs|;
    var g := [LStrip(fs[0])] + fs[1..];
    assert g[n - 1] == fs[n - 1];
    assert g[..n - 1] == [LStrip(fs[0])] + fs[1..n - 1];
  }

  /** Stripping a comma-join strips only its first field's front and its last field's back. */
  lemma StripJoinEnds(fs: seq<string>)
    requires |fs| >= 2
    ensures Strip(Join(fs, ",")) == Join(TrimEnds(fs), ",")
  {
    var g := [LStrip(fs[0])] + fs[1..];
    TrimEndsSteps(fs);
    LStripJoin(fs);
    RStripJoin(g);
  }

  /** Each trimmed field is still comma-free and strips to what its original strips to. */
  lemma TrimEndsFields(fs: seq<string>)
    requires |fs| >= 2
    requires forall i :: 0 <= i < |fs| ==> ',' !in fs[i]
    ensures forall i :: 0 <= i < |fs| ==> ',' !in TrimEnds(fs)[i] && Strip(TrimEnds(fs)[i]) == Strip(fs[i])
  {
    var h := TrimEnds(fs);
    forall i | 0 <= i < |fs|
      ensures ',' !in h[i] && Strip(h[i]) == Strip(fs[i])
    {
      StripEndsKeep(fs[i], ',');
      StripAfterOneEnd(fs[i]);
      if i == |fs| - 1 {
        assert h[i] == RStrip(fs[i]);
      } else if i == 0 {
        assert h[i] == LStrip(fs[i]);
      } else {
        assert h[i] == fs[i];
      }
    }
  }

  /** The stripped line starts where the first field's stripped text does, or at the first comma. */
  lemma TrimEndsHead(fs: seq<string>)
    requires |fs| >= 2
    ensures Join(TrimEnds(fs), ",") != []
    ensures Join(TrimEnds(fs), ",")[0] == if Strip(fs[0]) == [] then ',' else Strip(fs[0])[0]
  {
    var h0 := LStrip(fs[0]);
    assert TrimEnds(fs)[0] == h0;
    JoinHead(TrimEnds(fs), ",");
    LStripFacts(fs[0]);
    RStripFacts(h0);
    assert Strip(fs[0]) == RStrip(h0);
  }

  /** So the fields of a stripped comma-join of comma-free fields are those fields, stripped. */
  lemma FieldsOfPaddedJoin(fs: seq<string>)
    requires |fs| >= 2
    requires forall i :: 0 <= i < |fs| ==> ',' !in fs[i]
    ensures Strip(Join(fs, ",")) != []
    ensures Strip(Join(fs, ","))[0] == if Strip(fs[0]) == [] then ',' else Strip(fs[0])[0]
    ensures Fields(Strip(Join(fs, ","))) == seq(|fs|, i requires 0 <= i < |fs| => Strip(fs[i]))
  {
    StripJoinEnds(fs);
    TrimEndsFields(fs);
    TrimEndsHead(fs);
    SplitJoin(TrimEnds(fs), ',');
  }

  /** The fields of a comma-joined line of plain fields are those fields. */
  lemma FieldsOfJoin(fs: seq<string>)
    requires |fs| >= 1
    requires forall i :: 0 <= i < |fs| ==> PlainField(fs[i])
    ensures Fields(Join(fs, ",")) == fs
  {
    SplitJoin(fs, ',');
    var parts := Fields(Join(fs, ","));
    forall i | 0 <= i < |fs| ensures parts[i] == fs[i] {
      StripStripped(fs[i]);
    }
  }

  lemma JoinHead(fs: seq<string>, sep: string)
    requires |fs| >= 2 && sep != []
    ensures Join(fs, sep) != [] && Join(fs, sep)[0] == (if fs[0] == [] then sep[0] else fs[0][0])
  {
  }

  lemma {:induction false} JoinLast(fs: seq<string>, sep: string)
    requires |fs| >= 1 && (|fs| >= 2 ==> sep != [])
    ensures Join(fs, sep) == [] <==> |fs| == 1 && fs[0] == []
    ensures Join(fs, sep) != [] ==>
      Join(fs, sep)[|Join(fs, sep)| - 1] == (if fs[|fs| - 1] == [] then sep[|sep| - 1] else fs[|fs| - 1][|fs[|fs| - 1]| - 1])
  {
    if |fs| >= 2 {
      JoinLast(fs[1..], sep);
      var rest := Join(fs[1..], sep);
      if |fs| == 2 {
        assert rest == fs[1];
      }
    }
  }

  /** A comma-joined line of stripped fields needs no stripping itself. */
  lemma JoinStripped(fs: seq<string>)
    requires |fs| >= 2
    requires forall i :: 0 <= i < |fs| ==> IsStripped(fs[i])
    ensures IsStripped(Join(fs, ","))
  {
    JoinHead(fs, ",");
    JoinLast(fs, ",");
  }

  /** A key-column row of the metadata query: owner, table and one primary-key column. */
  datatype PkRow = PkRow(owner: string, tableName: string, pk: string)

  /** The spec `fetch_oracle_tables` builds for one metadata row. */
  function SpecOfPkRow(row: PkRow, defaultChunks: int): TableSpec {
    TableSpec(row.owner, row.tableName, ToLower(row.owner), ToLower(row.tableName), row.pk, defaultChunks)
  }

  /** `fetch_oracle_tables`: one spec per metadata row, in row order. */
  method FetchOracleTables(rows: seq<PkRow>, defaultChunks: int) returns (tables: seq<TableSpec>)
    ensures |tables| == |rows|
    ensures forall i :: 0 <= i < |rows| ==>
      && tables[i].oraSchema == rows[i].owner && tables[i].oraTable == rows[i].tableName
      && tables[i].pgSchema == ToLower(rows[i].owner) && tables[i].pgTable == ToLower(rows[i].tableName)
      && tables[i].pk == rows[i].pk && tables[i].chunks == defaultChunks
  {
    tables := [];
    for i := 0 to |rows|
      invariant |tables| == i
      invariant forall k :: 0 <= k < i ==> tables[k] == SpecOfPkRow(rows[k], defaultChunks)
    {
      tables := tables + [SpecOfPkRow(rows[i], defaultChunks)];
    }
  }

  /** Rows of the metadata result that belong to one Oracle table. */
  function RowsOf(rows: seq<PkRow>, owner: string, table: string): nat {
    if rows == [] then 0
    else (if rows[0].owner == owner && rows[0].tableName == table then 1 else 0) + RowsOf(rows[1..], owner, table)
  }

  /** Specs that name one Oracle table. */
  function SpecsOf(tables: seq<TableSpec>, owner: string, table: string): nat {
    if tables == [] then 0
    else (if tables[0].oraSchema == owner && tables[0].oraTable == table then 1 else 0) + SpecsOf(tables[1..], owner, table)
  }

  /**
   * A table with a composite primary key has one metadata row per key column,
   * so the table list names it once per key column.
   */
  lemma {:induction false} SpecsPerKeyColumn(rows: seq<PkRow>, tables: seq<TableSpec>, owner: string, table: string)
    requires |tables| == |rows|
    requires forall i :: 0 <= i < |rows| ==>
      tables[i].oraSchema == rows[i].owner && tables[i].oraTable == rows[i].tableName
    ensures SpecsOf(tables, owner, table) == RowsOf(rows, owner, table)
  {
    if rows != [] {
      SpecsPerKeyColumn(rows[1..], tables[1..], owner, table);
    }
  }
}
