/**
 * The canonical row expressions: for an ordered list of (column name, declared
 * type) pairs, the SQL text each engine evaluates to one string per row.
 * Oracle's is produced by the CASE inside a LISTAGG over the data dictionary,
 * Postgres's by a Python loop over `information_schema.columns`.
 */
module Canonical {

  import opened Wrappers
  import opened Text

  /** A column as the catalogue reports it: its name and declared type. */
  type Column = (string, string)

  /** How a builder normalises a column's value. */
  datatype Category = Temporal | Numeric | Textual | Other

  /** The NULL stand-ins: U+2205 EMPTY SET on Oracle, U+00D8 LATIN CAPITAL O WITH STROKE on Postgres. */
  const OraSentinel: char := '\U{2205}'
  const PgSentinel: char := '\U{00D8}'

  /** What goes between two column parts. */
  const OraSeparator: string := "||'|'||"
  const PgSeparator: string := " || '|' || "

  /** Why the Oracle builder raises. */
  datatype BuildError = NoColumns(schema: string, table: string)

  // ---------------------------------------------------------------- Oracle

  /** The branch of the CASE a column's `data_type` selects. */
  function OraCategory(dataType: string): Category {
    if dataType in ["DATE", "TIMESTAMP", "TIMESTAMP WITH TIME ZONE", "TIMESTAMP WITH LOCAL TIME ZONE"] then Temporal
    else if dataType in ["NUMBER", "FLOAT"] then Numeric
    else if Contains(dataType, "CHAR") || dataType in ["CLOB", "NCLOB"] then Textual
    else Other
  }

  /** The conversion the CASE applies to a column before wrapping it in `NVL`. */
  function OraInner(c: Column): string {
    OraConvert(c.0, OraCategory(c.1))
  }

  /** The CASE branch for a column named `name` whose type falls in `cat`. */
  function OraConvert(name: string, cat: Category): string {
    match cat
    case Temporal => "TO_CHAR(" + name + ",'YYYY-MM-DD\"T\"HH24:MI:SS.FF3')"
    case Numeric => "TO_CHAR(" + name + ",'FM999999990D999999999')"
    case Textual => "RTRIM(" + name + ")"
    case Other => "TO_CHAR(" + name + ")"
  }

  /** The text the CASE yields for one column. */
  function OraPart(c: Column): string {
    "NVL(" + OraInner(c) + ",'" + [OraSentinel] + "')"
  }

  /** The parts of all columns, in `column_id` order. */
  function OraParts(cols: seq<Column>): (parts: seq<string>)
    ensures |parts| == |cols|
    ensures forall i :: 0 <= i < |cols| ==> parts[i] == OraPart(cols[i])
  {
    seq(|cols|, i requires 0 <= i < |cols| => OraPart(cols[i]))
  }

  /**
   * `ora_build_cat_expr`: the LISTAGG of the parts, or the error raised when the
   * aggregate is NULL because the table has no columns.
   */
  function OraCatExpr(schema: string, table: string, cols: seq<Column>): (r: Result<string, BuildError>)
    ensures r.Failure? <==> cols == []
    ensures r.Failure? ==> r.error == NoColumns(schema, table)
    ensures r.Success? ==> r.value != []
  {
    if cols == [] then Failure(NoColumns(schema, table))
    else
      var e := Join(OraParts(cols), OraSeparator);
      JoinEmpty(OraParts(cols), OraSeparator);
      Success(e)
  }

  // -------------------------------------------------------------- Postgres

  const PgNumericTypes: seq<string> := ["numeric", "integer", "bigint", "smallint", "real", "double precision"]

  /** The branch of the `if`/`elif`/`else` a column's `data_type` selects. */
  function PgCategory(dataType: string): Category {
    if dataType in PgNumericTypes then Numeric
    else if Contains(dataType, "timestamp") || dataType == "date" then Temporal
    else Textual
  }

  /** The conversion the loop applies to a quoted column before wrapping it in `coalesce`. */
  function PgInner(c: Column): string {
    PgConvert("\"" + c.0 + "\"", PgCategory(c.1))
  }

  /** The branch taken for the quoted column `col` whose type falls in `cat`. */
  function PgConvert(col: string, cat: Category): string {
    match cat
    case Numeric => col + "::numeric::text"
    case Temporal => "to_char(" + col + ", 'YYYY-MM-DD\"T\"HH24:MI:SS.MS')"
    case _ => "rtrim(" + col + "::text)"
  }

  /** The part the loop appends for one column. */
  function PgPart(c: Column): string {
    "coalesce(" + PgInner(c) + ",'" + [PgSentinel] + "')"
  }

  /** The parts of all columns, in `ordinal_position` order. */
  function PgParts(cols: seq<Column>): (parts: seq<string>)
    ensures |parts| == |cols|
    ensures forall i :: 0 <= i < |cols| ==> parts[i] == PgPart(cols[i])
  {
    seq(|cols|, i requires 0 <= i < |cols| => PgPart(cols[i]))
  }

  /** The concatenation expression `pg_chunk_sums` builds: the parts joined by the separator. */
  function PgCatExpr(cols: seq<Column>): (e: string)
    ensures e == [] <==> cols == []
  {
    JoinEmpty(PgParts(cols), PgSeparator);
    Join(PgParts(cols), PgSeparator)
  }

  /** The column loop of `pg_chunk_sums`, appending one part per column and joining them. */
  method BuildPgCatExpr(cols: seq<Column>) returns (cat: string)
    ensures cat == PgCatExpr(cols)
  {
    var parts: seq<string> := [];
    for i := 0 to |cols|
      invariant parts == PgParts(cols[..i])
    {
      assert cols[..i + 1][..i] == cols[..i];
      parts := parts + [PgPart(cols[i])];
    }
    assert cols[..|cols|] == cols;
    cat := Join(parts, PgSeparator);
  }

  // ------------------------------------------------------------ properties

  lemma CountInParts(parts: seq<string>, x: char, k: nat)
    requires forall i :: 0 <= i < |parts| ==> multiset(parts[i])[x] == k
    ensures CountIn(parts, x) == |parts| * k
  {
    if parts != [] {
      CountInParts(parts[1..], x, k);
      MulStep(|parts| - 1, k);
    }
  }

  /** A string holding neither sentinel nor `|`: the characters the counting lemmas track. */
  predicate Plain(s: string) {
    forall i :: 0 <= i < |s| ==> PlainChar(s[i])
  }

  predicate PlainChar(c: char) {
    c != OraSentinel && c != PgSentinel && c != '|'
  }

  /** A string made of `p`, one sentinel and a closing `')`, where `p` is plain. */
  lemma SentinelOnce(p: string, sentinel: char)
    requires Plain(p)
    requires sentinel == OraSentinel || sentinel == PgSentinel
    ensures multiset(p + [sentinel] + "')")[sentinel] == 1
    ensures forall x :: x == OraSentinel || x == PgSentinel || x == '|' ==>
      multiset(p + [sentinel] + "')")[x] == if x == sentinel then 1 else 0
  {
    assert multiset(p + [sentinel] + "')") == multiset(p) + multiset{sentinel} + multiset("')");
    assert OraSentinel !in p && PgSentinel !in p && '|' !in p;
  }

  lemma OraInnerPlain(c: Column)
    requires Plain(c.0)
    ensures Plain(OraInner(c))
  {
    OraConvertPlain(c.0, OraCategory(c.1));
  }

  lemma OraConvertPlain(name: string, cat: Category)
    requires Plain(name)
    ensures Plain(OraConvert(name, cat))
  {
    match cat
    case Temporal => PlainWrap("TO_CHAR(", name, ",'YYYY-MM-DD\"T\"HH24:MI:SS.FF3')");
    case Numeric => PlainWrap("TO_CHAR(", name, ",'FM999999990D999999999')");
    case Textual => PlainWrap("RTRIM(", name, ")");
    case Other => PlainWrap("TO_CHAR(", name, ")");
  }

  lemma PgInnerPlain(c: Column)
    requires Plain(c.0)
    ensures Plain(PgInner(c))
  {
    PlainWrap("\"", c.0, "\"");
    PgConvertPlain("\"" + c.0 + "\"", PgCategory(c.1));
  }

  lemma PgConvertPlain(col: string, cat: Category)
    requires Plain(col)
    ensures Plain(PgConvert(col, cat))
  {
    match cat
    case Numeric => PlainWrap("", col, "::numeric::text");
    case Temporal => PlainWrap("to_char(", col, ", 'YYYY-MM-DD\"T\"HH24:MI:SS.MS')");
    case _ => PlainWrap("rtrim(", col, "::text)");
  }

  /** Wrapping a plain string in plain text leaves it plain. */
  lemma PlainWrap(pre: string, s: string, post: string)
    requires Plain(pre) && Plain(s) && Plain(post)
    ensures Plain(pre + s + post)
  {
    var w := pre + s + post;
    forall i | 0 <= i < |w| ensures PlainChar(w[i]) {
      if i < |pre| {
        assert w[i] == pre[i];
      } else if i < |pre| + |s| {
        assert w[i] == s[i - |pre|];
      } else {
        assert w[i] == post[i - |pre| - |s|];
      }
    }
  }

  lemma OraPartCounts(c: Column)
    requires Plain(c.0)
    ensures multiset(OraPart(c))[OraSentinel] == 1
    ensures multiset(OraPart(c))[PgSentinel] == 0 && multiset(OraPart(c))['|'] == 0
  {
    OraInnerPlain(c);
    var p := "NVL(" + OraInner(c) + ",'";
    PlainWrap("NVL(", OraInner(c), ",'");
    SentinelOnce(p, OraSentinel);
  }

  lemma PgPartCounts(c: Column)
    requires Plain(c.0)
    ensures multiset(PgPart(c))[PgSentinel] == 1
    ensures multiset(PgPart(c))[OraSentinel] == 0 && multiset(PgPart(c))['|'] == 0
  {
    PgInnerPlain(c);
    var p := "coalesce(" + PgInner(c) + ",'";
    PlainWrap("coalesce(", PgInner(c), ",'");
    SentinelOnce(p, PgSentinel);
  }

  /** No column name holds a sentinel or a `|`. */
  predicate PlainNames(cols: seq<Column>) {
    forall i :: 0 <= i < |cols| ==> Plain(cols[i].0)
  }

  /**
   * The Oracle expression has one NVL-wrapped part per column, joined by a
   * separator holding five `|`: it carries Oracle's sentinel once per column,
   * `|` five times per gap between columns, and never Postgres's sentinel.
   */
  lemma OraCatExprParts(schema: string, table: string, cols: seq<Column>)
    requires cols != []
    requires PlainNames(cols)
    ensures OraCatExpr(schema, table, cols).Success?
    ensures multiset(OraCatExpr(schema, table, cols).value)[OraSentinel] == |cols|
    ensures multiset(OraCatExpr(schema, table, cols).value)[PgSentinel] == 0
    ensures multiset(OraCatExpr(schema, table, cols).value)['|'] == 5 * (|cols| - 1)
  {
    var parts := OraParts(cols);
    forall i | 0 <= i < |parts|
      ensures multiset(parts[i])[OraSentinel] == 1
      ensures multiset(parts[i])[PgSentinel] == 0 && multiset(parts[i])['|'] == 0
    {
      OraPartCounts(cols[i]);
    }
    OraSeparatorCounts();
    JoinedCount(parts, OraSeparator, OraSentinel, 1, 0);
    JoinedCount(parts, OraSeparator, PgSentinel, 0, 0);
    JoinedCount(parts, OraSeparator, '|', 0, 5);
  }

  /**
   * The Postgres expression has one coalesce-wrapped part per column, joined by a
   * separator holding five `|`: it carries Postgres's sentinel once per column,
   * `|` five times per gap, and never Oracle's sentinel; with no columns it is
   * the empty string.
   */
  lemma PgCatExprParts(cols: seq<Column>)
    requires PlainNames(cols)
    ensures multiset(PgCatExpr(cols))[PgSentinel] == |cols|
    ensures multiset(PgCatExpr(cols))[OraSentinel] == 0
    ensures cols != [] ==> multiset(PgCatExpr(cols))['|'] == 5 * (|cols| - 1)
  {
    if cols != [] {
      PgJoinedCounts(cols);
    }
  }

  lemma PgJoinedCounts(cols: seq<Column>)
    requires cols != []
    requires PlainNames(cols)
    ensures multiset(PgCatExpr(cols))[PgSentinel] == |cols|
    ensures multiset(PgCatExpr(cols))[OraSentinel] == 0
    ensures multiset(PgCatExpr(cols))['|'] == 5 * (|cols| - 1)
  {
    PgPartsCounts(cols);
    PgSeparatorCounts();
    TrackedJoin(PgParts(cols), PgSeparator, PgSentinel, OraSentinel);
  }

  lemma PgPartsCounts(cols: seq<Column>)
    requires PlainNames(cols)
    ensures forall i :: 0 <= i < |cols| ==>
      multiset(PgParts(cols)[i])[PgSentinel] == 1 &&
      multiset(PgParts(cols)[i])[OraSentinel] == 0 && multiset(PgParts(cols)[i])['|'] == 0
  {
    forall i | 0 <= i < |cols|
      ensures multiset(PgParts(cols)[i])[PgSentinel] == 1
      ensures multiset(PgParts(cols)[i])[OraSentinel] == 0 && multiset(PgParts(cols)[i])['|'] == 0
    {
      PgPartCounts(cols[i]);
    }
  }

  /**
   * A join of parts that each hold `own` once and neither `other` nor `|`,
   * with a separator holding five `|` and neither sentinel.
   */
  lemma TrackedJoin(parts: seq<string>, sep: string, own: char, other: char)
    requires |parts| >= 1
    requires forall i :: 0 <= i < |parts| ==>
      multiset(parts[i])[own] == 1 && multiset(parts[i])[other] == 0 && multiset(parts[i])['|'] == 0
    requires multiset(sep)['|'] == 5 && multiset(sep)[own] == 0 && multiset(sep)[other] == 0
    ensures multiset(Join(parts, sep))[own] == |parts|
    ensures multiset(Join(parts, sep))[other] == 0
    ensures multiset(Join(parts, sep))['|'] == 5 * (|parts| - 1)
  {
    JoinedCount(parts, sep, own, 1, 0);
    JoinedCount(parts, sep, other, 0, 0);
    JoinedCount(parts, sep, '|', 0, 5);
  }

  /** Each separator holds five `|` and no sentinel. */
  lemma OraSeparatorCounts()
    ensures multiset(OraSeparator)['|'] == 5
    ensures multiset(OraSeparator)[OraSentinel] == 0 && multiset(OraSeparator)[PgSentinel] == 0
  {
  }

  lemma PgSeparatorCounts()
    ensures multiset(PgSeparator)['|'] == 5
    ensures multiset(PgSeparator)[OraSentinel] == 0 && multiset(PgSeparator)[PgSentinel] == 0
  {
  }

  /** A join of parts holding `x` `k` times each, with a separator holding it `m` times. */
  lemma JoinedCount(parts: seq<string>, sep: string, x: char, k: nat, m: nat)
    requires |parts| >= 1
    requires forall i :: 0 <= i < |parts| ==> multiset(parts[i])[x] == k
    requires multiset(sep)[x] == m
    ensures multiset(Join(parts, sep))[x] == |parts| * k + m * (|parts| - 1)
  {
    CountInParts(parts, x, k);
    JoinCount(parts, sep, x);
  }

  /**
   * The two builders never agree: their NULL sentinels differ, and for a table
   * that has columns the two SQL texts differ from their first character on
   * (`NVL(` against `coalesce(`). With no columns Oracle raises while Postgres
   * returns the empty expression.
   */
  lemma BuildersDisagree(schema: string, table: string, cols: seq<Column>)
    ensures OraSentinel != PgSentinel
    ensures cols == [] ==> OraCatExpr(schema, table, cols).Failure? && PgCatExpr(cols) == ""
    ensures cols != [] ==> OraCatExpr(schema, table, cols).Success? && OraCatExpr(schema, table, cols).value != PgCatExpr(cols)
  {
    if cols != [] {
      assert OraPart(cols[0])[0] == 'N' && PgPart(cols[0])[0] == 'c';
      JoinFirst(OraParts(cols), OraSeparator);
      JoinFirst(PgParts(cols), PgSeparator);
    }
  }

  /**
   * Postgres has no catch-all branch: every type that is neither in the numeric
   * list nor temporal is right-trimmed as text, whereas Oracle sends any type
   * outside its three lists to a bare `TO_CHAR`.
   */
  lemma PgHasNoOtherCategory(dataType: string)
    ensures PgCategory(dataType) != Other
  {
  }

  /**
   * The two classifications differ even on types that mean the same. Oracle
   * matches temporal names exactly, so a fractional-seconds precision such as
   * `TIMESTAMP(6)` falls to the bare `TO_CHAR` ...
   */
  lemma OraTimestampPrecision()
    ensures OraCategory("TIMESTAMP(6)") == Other
  {
    var t := "TIMESTAMP(6)";
    assert t !in ["DATE", "TIMESTAMP", "TIMESTAMP WITH TIME ZONE", "TIMESTAMP WITH LOCAL TIME ZONE"] by {
      assert |t| == 12;
    }
    assert t !in ["NUMBER", "FLOAT", "CLOB", "NCLOB"] by {
      assert |t| == 12;
    }
    NotContains(t, "CHAR", 0);
  }

  /** ... while Postgres treats any name containing `timestamp` as temporal. */
  lemma PgTimestampVariant()
    ensures PgCategory("timestamp without time zone") == Temporal
  {
    assert OccursAt("timestamp without time zone", "timestamp", 0);
  }

  /** Oracle's binary floats are not numeric to it; Postgres's `double precision` is. */
  lemma FloatingPointSplit()
    ensures OraCategory("BINARY_DOUBLE") == Other && PgCategory("double precision") == Numeric
  {
    var t := "BINARY_DOUBLE";
    assert t !in ["DATE", "TIMESTAMP", "TIMESTAMP WITH TIME ZONE", "TIMESTAMP WITH LOCAL TIME ZONE"] by {
      assert |t| == 13;
    }
    assert t !in ["NUMBER", "FLOAT", "CLOB", "NCLOB"] by {
      assert |t| == 13;
    }
    NotContains(t, "CHAR", 0);
  }

  /** Any Oracle type naming `CHAR`, such as `VARCHAR2`, is trimmed as text. */
  lemma OraVarcharTextual()
    ensures OraCategory("VARCHAR2") == Textual
  {
    assert OccursAt("VARCHAR2", "CHAR", 3);
  }

  /** Oracle's binary `RAW` falls to the plain `TO_CHAR` branch. */
  lemma OraRawOther()
    ensures OraCategory("RAW") == Other
  {
    NotContains("RAW", "CHAR", 0);
  }

  /** Postgres trims every remaining type as text, `bytea` included. */
  lemma PgByteaTextual()
    ensures PgCategory("bytea") == Textual
  {
    NotContains("bytea", "timestamp", 2);
  }
}
