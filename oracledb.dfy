/** oracledb.go: turning a result set into one string map per row
    (ProcessMetric, parseRow) and matching the instance version against a
    version range (VersionMatch). */
module OracleDb {
  import opened GoLib
  import opened Driver

  /** A parsed row: column name to the Go string stored for it. Every value
      parseRow stores is a string, so the map's values are strings. */
  type Row = map<GoString, GoString>

  /** Renders a time.Time as common.Time(t).String() does. */
  type TimeText = int -> GoString

  type Rows = Run<Result<seq<Row>, DbError>>

  // ===========================================================================
  // parseRow

  /** The string parseRow stores for a cell that is not an integer: strings and
      byte slices as they are, timestamps rendered, nothing for NULL or for any
      other dynamic type (that case only logs). */
  function Rendered(c: Cell, render: TimeText): Option<GoString> {
    match c
    case Text(s) => Some(s)
    case Bytes(b) => Some(b)
    case Timestamp(t) => Some(render(t))
    case _ => None
  }

  /** The entries parseRow writes for the columns in `keys`. */
  function Stored(bound: map<GoString, Cell>, keys: set<GoString>, render: TimeText): map<GoString, GoString> {
    map k | k in keys && k in bound && Rendered(bound[k], render).Some? :: Rendered(bound[k], render).value
  }

  /** What parseRow(rowData, row) yields. The integer case does `val.(string)`
      on a value whose dynamic type is an integer, so any integer cell panics. */
  function ParsedRow(bound: map<GoString, Cell>, row: Row, render: TimeText): Run<Row> {
    if exists k :: k in bound && IsInteger(bound[k]) then Panics(TypeAssertion)
    else Returns(row + Stored(bound, bound.Keys, render))
  }

  /** parseRow, cell by cell: an integer cell anywhere makes it panic; otherwise
      it only adds or overwrites keys, storing strings and byte slices as text
      and timestamps rendered, and leaving NULL and other cells out. */
  lemma ParsedRowCells(bound: map<GoString, Cell>, row: Row, render: TimeText)
    ensures var r := ParsedRow(bound, row, render);
      && (r.Panics? <==> exists k :: k in bound && IsInteger(bound[k]))
      && (r.Returns? ==> row.Keys <= r.value.Keys <= row.Keys + bound.Keys)
      && (r.Returns? ==> forall k :: k in bound && bound[k].Text? ==> k in r.value && r.value[k] == bound[k].s)
      && (r.Returns? ==> forall k :: k in bound && bound[k].Bytes? ==> k in r.value && r.value[k] == bound[k].b)
      && (r.Returns? ==> forall k :: k in bound && bound[k].Timestamp? ==>
            k in r.value && r.value[k] == render(bound[k].nanos))
      && (r.Returns? ==> forall k :: k in bound && (bound[k].Null? || bound[k].Other?) ==>
            (k in r.value <==> k in row) && (k in row ==> r.value[k] == row[k]))
      && (r.Returns? ==> forall k :: k in row && k !in bound ==> r.value[k] == row[k])
  {
  }

  /** parseRow: visits the bound columns in an unspecified order (Go's map
      iteration order) and writes the text of each cell into `row`. */
  method ParseRow(bound: map<GoString, Cell>, row: Row, render: TimeText) returns (r: Run<Row>)
    ensures r == ParsedRow(bound, row, render)
  {
    var out := row;
    var todo := bound.Keys;
    while todo != {}
      invariant todo <= bound.Keys
      invariant forall k :: k in bound.Keys - todo ==> !IsInteger(bound[k])
      invariant out == row + Stored(bound, bound.Keys - todo, render)
      decreases todo
    {
      var k :| k in todo;
      StoredStep(bound, row, bound.Keys - todo, k, render);
      assert bound.Keys - (todo - {k}) == (bound.Keys - todo) + {k};
      todo := todo - {k};
      match bound[k]
      case Text(s) =>
        out := out[k := s];
      case Int64(_) =>
        return Panics(TypeAssertion);
      case Int32(_) =>
        return Panics(TypeAssertion);
      case Int(_) =>
        return Panics(TypeAssertion);
      case Bytes(b) =>
        out := out[k := b];
      case Timestamp(t) =>
        out := out[k := render(t)];
      case Null =>
      case Other =>
    }
    assert bound.Keys - todo == bound.Keys;
    r := Returns(out);
  }

  /** Writing the text of one more column `k` into the row. */
  lemma StoredStep(bound: map<GoString, Cell>, row: Row, done: set<GoString>, k: GoString, render: TimeText)
    requires k in bound && k !in done
    ensures row + Stored(bound, done + {k}, render)
      == if Rendered(bound[k], render).Some?
         then (row + Stored(bound, done, render))[k := Rendered(bound[k], render).value]
         else row + Stored(bound, done, render)
  {
  }

  // ===========================================================================
  // ProcessMetric

  /** The rowData map of oracledb.go:72-82 once Scan has filled it: each column
      name bound to the cell scanned for it. Column names index a map, so when
      a name repeats the map points at the last column carrying it. */
  function Bind(columns: seq<GoString>, cells: seq<Cell>): (bound: map<GoString, Cell>)
    requires |columns| == |cells|
    ensures forall c :: c in bound <==> c in columns
    ensures forall i :: 0 <= i < |columns| && columns[i] !in columns[i + 1..] ==> bound[columns[i]] == cells[i]
  {
    if |columns| == 0 then map[]
    else map[columns[0] := cells[0]] + Bind(columns[1..], cells[1..])
  }

  /** `rest` with the maps of `done` in front when it is a full result. */
  function Prefixed(done: seq<Row>, rest: Rows): Rows {
    match rest
    case Returns(Ok(maps)) => Returns(Ok(done + maps))
    case _ => rest
  }

  lemma PrefixedTwice(done: seq<Row>, m: Row, rest: Rows)
    ensures Prefixed(done, Prefixed([m], rest)) == Prefixed(done + [m], rest)
  {
    match rest
    case Returns(Ok(maps)) => assert done + ([m] + maps) == (done + [m]) + maps;
    case _ =>
  }

  lemma PrefixedNothing(rest: Rows)
    ensures Prefixed([], rest) == rest
  {
    match rest
    case Returns(Ok(maps)) => assert [] + maps == maps;
    case _ =>
  }

  /** The loop of oracledb.go:85-100 over what is left of the result set: stop
      with the scan error, or with parseRow's panic, at the first row that has
      one; otherwise one parsed map per row, in order. */
  function Collected(columns: seq<GoString>, rows: seq<Fetched>, render: TimeText): Rows
    decreases |rows|
  {
    if |rows| == 0 then Returns(Ok([]))
    else
      match ScanRow(columns, rows[0])
      case None => Returns(Err(ScanFailed))
      case Some(cells) =>
        match ParsedRow(Bind(columns, cells), map[], render)
        case Panics(p) => Panics(p)
        case Returns(m) => Prefixed([m], Collected(columns, rows[1..], render))
  }

  /** A row that scans and parses without a panic. */
  predicate RowOk(columns: seq<GoString>, f: Fetched, render: TimeText) {
    && ScanRow(columns, f).Some?
    && ParsedRow(Bind(columns, ScanRow(columns, f).value), map[], render).Returns?
  }

  function RowMap(columns: seq<GoString>, f: Fetched, render: TimeText): Row
    requires RowOk(columns, f, render)
  {
    ParsedRow(Bind(columns, ScanRow(columns, f).value), map[], render).value
  }

  /** One step of the rows loop. */
  lemma CollectedStep(columns: seq<GoString>, rows: seq<Fetched>, render: TimeText)
    requires |rows| > 0
    ensures Collected(columns, rows, render)
      == if ScanRow(columns, rows[0]).None? then Returns(Err(ScanFailed))
         else if !RowOk(columns, rows[0], render) then Panics(TypeAssertion)
         else Prefixed([RowMap(columns, rows[0], render)], Collected(columns, rows[1..], render))
  {
  }

  /** Every row of `rows` scans and parses. */
  predicate RowsOk(columns: seq<GoString>, rows: seq<Fetched>, render: TimeText)
    decreases |rows|
  {
    |rows| == 0 || (RowOk(columns, rows[0], render) && RowsOk(columns, rows[1..], render))
  }

  /** RowsOk says of each row that it scans and parses. */
  lemma {:induction false} RowsOkEach(columns: seq<GoString>, rows: seq<Fetched>, render: TimeText)
    ensures RowsOk(columns, rows, render) <==> forall i :: 0 <= i < |rows| ==> RowOk(columns, rows[i], render)
  {
    if |rows| > 0 {
      var rest := rows[1..];
      assert forall i :: 0 <= i < |rest| ==> rest[i] == rows[i + 1];
      RowsOkEach(columns, rest, render);
      if forall i :: 0 <= i < |rows| ==> RowOk(columns, rows[i], render) {
        assert RowOk(columns, rows[0], render);
      }
    }
  }

  /** When every row scans and parses, the result holds exactly one map per
      row, in row order. */
  lemma {:induction false} CollectedAllRows(columns: seq<GoString>, rows: seq<Fetched>, render: TimeText)
    requires forall i :: 0 <= i < |rows| ==> RowOk(columns, rows[i], render)
    ensures var r := Collected(columns, rows, render);
      && r.Returns? && r.value.Ok?
      && |r.value.value| == |rows|
      && forall i :: 0 <= i < |rows| ==> r.value.value[i] == RowMap(columns, rows[i], render)
  {
    if |rows| > 0 {
      var rest := rows[1..];
      assert forall i :: 0 <= i < |rest| ==> rest[i] == rows[i + 1];
      CollectedAllRows(columns, rest, render);
      assert RowOk(columns, rows[0], render);
      CollectedStep(columns, rows, render);
    }
  }

  /** The first row that fails to scan ends the whole call with the scan error;
      the first one that panics in parseRow ends it with that panic. */
  lemma {:induction false} CollectedStopsAtBadRow(columns: seq<GoString>, rows: seq<Fetched>, render: TimeText, i: nat)
    requires i < |rows|
    requires RowsOk(columns, rows[..i], render)
    requires !RowOk(columns, rows[i], render)
    ensures Collected(columns, rows, render)
      == if ScanRow(columns, rows[i]).None? then Returns(Err(ScanFailed)) else Panics(TypeAssertion)
  {
    CollectedStep(columns, rows, render);
    if i > 0 {
      var rest := rows[1..];
      assert rows[..i][0] == rows[0] && rows[..i][1..] == rest[..i - 1];
      assert rest[i - 1] == rows[i];
      CollectedStopsAtBadRow(columns, rest, render, i - 1);
    }
  }

  /** A row that fails anywhere in the result set means no maps are returned. */
  lemma {:induction false} BadRowMeansNoResult(columns: seq<GoString>, rows: seq<Fetched>, render: TimeText, i: nat)
    requires i < |rows| && !RowOk(columns, rows[i], render)
    ensures !(Collected(columns, rows, render).Returns? && Collected(columns, rows, render).value.Ok?)
  {
    CollectedStep(columns, rows, render);
    if i > 0 && RowOk(columns, rows[0], render) {
      assert rows[1..][i - 1] == rows[i];
      BadRowMeansNoResult(columns, rows[1..], render, i - 1);
    }
  }

  /** The rows loop of ProcessMetric (oracledb.go:85-103). */
  method ReadRows(cursor: Cursor, render: TimeText) returns (r: Rows)
    ensures r == Collected(cursor.columns, cursor.rows, render)
  {
    var rows := cursor.rows;
    var result: seq<Row> := [];
    var i := 0;
    assert rows[0..] == rows;
    PrefixedNothing(Collected(cursor.columns, rows, render));
    while i < |rows|
      invariant 0 <= i <= |rows|
      invariant Collected(cursor.columns, rows, render) == Prefixed(result, Collected(cursor.columns, rows[i..], render))
    {
      assert rows[i..][0] == rows[i] && rows[i..][1..] == rows[i + 1..];
      CollectedStep(cursor.columns, rows[i..], render);
      var cells := ScanRow(cursor.columns, rows[i]);
      if cells.None? {
        return Returns(Err(ScanFailed));
      }
      var rowMap := ParseRow(Bind(cursor.columns, cells.value), map[], render);
      if rowMap.Panics? {
        return Panics(rowMap.cause);
      }
      PrefixedTwice(result, rowMap.value, Collected(cursor.columns, rows[i + 1..], render));
      result := result + [rowMap.value];
      i := i + 1;
    }
    assert rows[i..] == [] && result + [] == result;
    r := Returns(Ok(result));
  }

  /** What ProcessMetric(db, sql) yields when the server answers `answers`.
      The statement is first printed as sql[:20], which panics on a statement
      shorter than 20 bytes before anything is sent. */
  function ProcessMetricOf(answers: GoString -> QueryResult, sql: GoString, render: TimeText): Rows {
    if |sql| < 20 then Panics(SliceBounds)
    else
      match answers(sql)
      case QueryError => Returns(Err(QueryFailed))
      case Opened(c) => Collected(c.columns, c.rows, render)
  }

  /** ProcessMetric: runs the statement and reads the whole result set. */
  method ProcessMetric(db: Database, sql: GoString, render: TimeText) returns (r: Rows)
    modifies db
    ensures r == ProcessMetricOf(db.answers, sql, render)
    ensures db.executed == old(db.executed) + (if |sql| < 20 then [] else [sql])
    ensures db.closes == old(db.closes)
  {
    if |sql| < 20 {
      return Panics(SliceBounds);
    }
    var q := db.Query(sql);
    match q
    case QueryError =>
      r := Returns(Err(QueryFailed));
    case Opened(c) =>
      r := ReadRows(c, render);
  }

  /** ProcessMetric returns one map per row of the result set, in row order,
      when every row scans and parses; nothing when the statement fails. */
  lemma ProcessMetricRows(answers: GoString -> QueryResult, sql: GoString, render: TimeText)
    requires |sql| >= 20
    ensures answers(sql).QueryError? ==> ProcessMetricOf(answers, sql, render) == Returns(Err(QueryFailed))
    ensures answers(sql).Opened? ==>
      var c := answers(sql).cursor;
      (forall i :: 0 <= i < |c.rows| ==> RowOk(c.columns, c.rows[i], render)) ==>
        && ProcessMetricOf(answers, sql, render).Returns?
        && ProcessMetricOf(answers, sql, render).value.Ok?
        && var maps := ProcessMetricOf(answers, sql, render).value.value;
        && |maps| == |c.rows|
        && forall i :: 0 <= i < |c.rows| ==> maps[i] == RowMap(c.columns, c.rows[i], render)
  {
    if answers(sql).Opened? {
      var c := answers(sql).cursor;
      if forall i :: 0 <= i < |c.rows| ==> RowOk(c.columns, c.rows[i], render) {
        CollectedAllRows(c.columns, c.rows, render);
      }
    }
  }

  // ===========================================================================
  // VersionMatch

  /** The components of a dotted version, each piece read by strconv.Atoi with
      its error ignored. There is always at least one. */
  function Components(s: GoString): (v: seq<int>)
    ensures |v| == |Split(s)| >= 1
  {
    seq(|Split(s)|, i requires 0 <= i < |Split(s)| => Atoi(Split(s)[i]))
  }

  /** The append loops of oracledb.go:170-181. */
  method ParseVersion(s: GoString) returns (v: seq<int>)
    ensures v == Components(s)
  {
    var parts := Split(s);
    v := [];
    for i := 0 to |parts|
      invariant v == Components(s)[..i]
    {
      v := v + [Atoi(parts[i])];
    }
  }

  /** Whether `below` is at or under `above` on (major, minor), as the nested
      ifs of oracledb.go:184-201 decide it: the minors are read only when the
      majors are equal, and reading a minor that is not there panics. */
  function AtMost(below: seq<int>, above: seq<int>): Run<bool>
    requires |below| >= 1 && |above| >= 1
  {
    if below[0] < above[0] then Returns(true)
    else if below[0] == above[0] then
      if |below| < 2 || |above| < 2 then Panics(IndexOutOfRange) else Returns(below[1] <= above[1])
    else Returns(false)
  }

  /** Lines 183-207: 1 when the low bound is at or under the version and the
      version at or under the high bound, 0 otherwise. */
  function CompareVersions(o: seq<int>, low: seq<int>, high: seq<int>): Run<int>
    requires |o| >= 1 && |low| >= 1 && |high| >= 1
  {
    match AtMost(low, o)
    case Panics(p) => Panics(p)
    case Returns(lowOk) =>
      match AtMost(o, high)
      case Panics(p) => Panics(p)
      case Returns(highOk) => Returns(if lowOk && highOk then 1 else 0)
  }

  /** VersionMatch for an instance that reports version `oVer`: 0 for an empty
      bound, otherwise the comparison of the parsed versions. */
  function VersionMatchOf(oVer: GoString, lowVer: GoString, highVer: GoString): (r: Run<int>)
    ensures lowVer == [] || highVer == [] ==> r == Returns(0)
    ensures r.Returns? ==> r.value == 0 || r.value == 1
  {
    if lowVer == [] || highVer == [] then Returns(0)
    else CompareVersions(Components(oVer), Components(lowVer), Components(highVer))
  }

  /** VersionMatch with the instance version given, as the package test calls it. */
  method VersionMatch(oVer: GoString, lowVer: GoString, highVer: GoString) returns (r: Run<int>)
    ensures r == VersionMatchOf(oVer, lowVer, highVer)
  {
    if lowVer == [] || highVer == [] {
      return Returns(0);
    }
    var o := ParseVersion(oVer);
    var low := ParseVersion(lowVer);
    var high := ParseVersion(highVer);

    var lowOk := false;
    if low[0] < o[0] {
      lowOk := true;
    } else if low[0] == o[0] {
      if |low| < 2 || |o| < 2 {
        return Panics(IndexOutOfRange);
      }
      if low[1] <= o[1] {
        lowOk := true;
      }
    }

    var highOk := false;
    if high[0] > o[0] {
      highOk := true;
    } else if high[0] == o[0] {
      if |high| < 2 || |o| < 2 {
        return Panics(IndexOutOfRange);
      }
      if high[1] >= o[1] {
        highOk := true;
      }
    }

    r := Returns(if lowOk && highOk then 1 else 0);
  }

  /** Lexicographic order on integer sequences; a prefix comes first. */
  predicate LexLe(a: seq<int>, b: seq<int>) {
    |a| == 0 || (|b| > 0 && (a[0] < b[0] || (a[0] == b[0] && LexLe(a[1..], b[1..]))))
  }

  lemma LexLePair(a: seq<int>, b: seq<int>)
    requires |a| == 2 && |b| == 2
    ensures LexLe(a, b) <==> a[0] < b[0] || (a[0] == b[0] && a[1] <= b[1])
  {
    assert LexLe(a[1..][1..], b[1..][1..]);
  }

  /** With two components on every side, VersionMatch is 1 exactly when
      low <= version <= high on (major, minor) in lexicographic order. */
  lemma VersionMatchInRange(oVer: GoString, lowVer: GoString, highVer: GoString)
    requires lowVer != [] && highVer != []
    requires |Components(oVer)| >= 2 && |Components(lowVer)| >= 2 && |Components(highVer)| >= 2
    ensures var o, l, h := Components(oVer)[..2], Components(lowVer)[..2], Components(highVer)[..2];
      VersionMatchOf(oVer, lowVer, highVer) == Returns(if LexLe(l, o) && LexLe(o, h) then 1 else 0)
  {
    var o, l, h := Components(oVer), Components(lowVer), Components(highVer);
    LexLePair(l[..2], o[..2]);
    LexLePair(o[..2], h[..2]);
  }

  /** The (major, minor) part of a parsed version, or the lone major when
      there is no minor. */
  function Pair(v: seq<int>): seq<int> {
    if |v| >= 2 then v[..2] else v
  }

  /** Two versions with the same Pair agree on everything AtMost reads. */
  lemma PairAgree(a: seq<int>, b: seq<int>)
    requires |a| >= 1 && |b| >= 1 && Pair(a) == Pair(b)
    ensures a[0] == b[0] && (|a| < 2 <==> |b| < 2) && (|a| >= 2 ==> a[1] == b[1])
  {
    if |a| >= 2 {
      assert a[0] == Pair(a)[0] && a[1] == Pair(a)[1];
    }
    if |b| >= 2 {
      assert b[0] == Pair(b)[0] && b[1] == Pair(b)[1];
    }
  }

  /** A comparison that returns is the lexicographic order on the Pairs. */
  lemma AtMostLex(a: seq<int>, b: seq<int>)
    requires |a| >= 1 && |b| >= 1 && AtMost(a, b).Returns?
    ensures AtMost(a, b).value <==> LexLe(Pair(a), Pair(b))
  {
    if |a| >= 2 && |b| >= 2 {
      LexLePair(a[..2], b[..2]);
    } else {
      assert Pair(a)[0] == a[0] && Pair(b)[0] == b[0];
    }
  }

  /** Whenever VersionMatch returns (VersionMatchPanics says when it does
      not), with non-empty bounds it is 1 exactly when low <= version <= high
      in lexicographic order on (major, minor), a one-component version
      counting by its major alone: this covers the bounds "0" and "9999". */
  lemma VersionMatchWhenReturns(oVer: GoString, lowVer: GoString, highVer: GoString)
    requires lowVer != [] && highVer != []
    requires VersionMatchOf(oVer, lowVer, highVer).Returns?
    ensures var o, l, h := Pair(Components(oVer)), Pair(Components(lowVer)), Pair(Components(highVer));
      VersionMatchOf(oVer, lowVer, highVer).value == if LexLe(l, o) && LexLe(o, h) then 1 else 0
  {
    var o, l, h := Components(oVer), Components(lowVer), Components(highVer);
    AtMostLex(l, o);
    AtMostLex(o, h);
  }

  /** Components after the minor, of the instance version and of both
      bounds, never change the outcome. */
  lemma VersionMatchIgnoresPatchLevels(oVer: GoString, oVer': GoString, lowVer: GoString, lowVer': GoString,
                                       highVer: GoString, highVer': GoString)
    requires Pair(Components(oVer)) == Pair(Components(oVer'))
    requires (lowVer == []) == (lowVer' == []) && Pair(Components(lowVer)) == Pair(Components(lowVer'))
    requires (highVer == []) == (highVer' == []) && Pair(Components(highVer)) == Pair(Components(highVer'))
    ensures VersionMatchOf(oVer, lowVer, highVer) == VersionMatchOf(oVer', lowVer', highVer')
  {
    PairAgree(Components(oVer), Components(oVer'));
    PairAgree(Components(lowVer), Components(lowVer'));
    PairAgree(Components(highVer), Components(highVer'));
  }

  /** VersionMatch panics exactly when a minor is read that one of the two
      versions compared does not have, which happens only when the majors agree. */
  lemma VersionMatchPanics(oVer: GoString, lowVer: GoString, highVer: GoString)
    ensures var o, l, h := Components(oVer), Components(lowVer), Components(highVer);
      VersionMatchOf(oVer, lowVer, highVer).Panics? <==>
        && lowVer != [] && highVer != []
        && ((l[0] == o[0] && (|l| < 2 || |o| < 2)) || (h[0] == o[0] && (|h| < 2 || |o| < 2)))
  {
  }

  /** A version written as decimal major.minor parses back to (major, minor). */
  lemma ComponentsOfRelease(major: nat, minor: nat)
    requires major <= MaxInt64 && minor <= MaxInt64
    ensures Components(DecimalText(major) + [Dot] + DecimalText(minor)) == [major, minor]
  {
    var parts := [DecimalText(major), DecimalText(minor)];
    assert Join(parts) == DecimalText(major) + [Dot] + DecimalText(minor);
    SplitJoin(parts);
    AtoiDecimalText(major);
    AtoiDecimalText(minor);
  }

  /** A bare decimal major parses back to that one component. */
  lemma ComponentsOfMajor(major: nat)
    requires major <= MaxInt64
    ensures Components(DecimalText(major)) == [major]
  {
    SplitJoin([DecimalText(major)]);
    AtoiDecimalText(major);
  }

  lemma BoundComponents()
    ensures Components("0") == [0]
    ensures Components("9999") == [9999]
    ensures Components("11.2") == [11, 2]
    ensures Components("11.1") == [11, 1]
    ensures Components("10.9") == [10, 9]
    ensures Components("10.1") == [10, 1]
    ensures Components("12.1") == [12, 1]
    ensures Components("12.2") == [12, 2]
  {
    ComponentsOfMajor(0);
    assert DecimalText(0) == "0";
    ComponentsOfMajor(9999);
    assert DecimalText(9999) == "9999";
    ComponentsOfRelease(11, 2);
    assert DecimalText(11) + [Dot] + DecimalText(2) == "11.2";
    ComponentsOfRelease(11, 1);
    assert DecimalText(11) + [Dot] + DecimalText(1) == "11.1";
    ComponentsOfRelease(10, 9);
    assert DecimalText(10) + [Dot] + DecimalText(9) == "10.9";
    ComponentsOfRelease(10, 1);
    assert DecimalText(10) + [Dot] + DecimalText(1) == "10.1";
    ComponentsOfRelease(12, 1);
    assert DecimalText(12) + [Dot] + DecimalText(1) == "12.1";
    ComponentsOfRelease(12, 2);
    assert DecimalText(12) + [Dot] + DecimalText(2) == "12.2";
  }

  /** A one-component bound is safe against an instance whose major differs
      from it: [0, 9999] matches every major strictly between the two. */
  lemma VersionMatchWholeRange(oVer: GoString)
    requires 0 < Components(oVer)[0] < 9999
    ensures VersionMatchOf(oVer, "0", "9999") == Returns(1)
  {
    BoundComponents();
  }

  /** The cases of the package's own test table. */
  lemma VersionMatchTestTable()
    ensures VersionMatchOf("11.2", "0", "9999") == Returns(1)
    ensures VersionMatchOf("11.2", "0", "11.2") == Returns(1)
    ensures VersionMatchOf("11.2", "11.2", "9999") == Returns(1)
    ensures VersionMatchOf("11.2", "0", "11.1") == Returns(0)
    ensures VersionMatchOf("11.1", "11.2", "9999") == Returns(0)
    ensures VersionMatchOf("11.1", "0", "10.9") == Returns(0)
    ensures VersionMatchOf("11.2", "10.1", "9999") == Returns(1)
  {
    BoundComponents();
  }

  // ===========================================================================
  // VersionMatch as the collectors call it: against the connected instance

  const VersionQuery: GoString := "SELECT version FROM v$instance"
  const VersionColumn: GoString := "VERSION"

  /** VersionMatch(oraDB, lowVer, highVer) once ProcessMetric has run the
      version statement with outcome `version`: a failed read gives 0, an
      empty bound gives 0, and otherwise version[0]["VERSION"].(string) panics
      when there is no row or the row has no VERSION string. */
  function VersionMatchAfter(version: Rows, lowVer: GoString, highVer: GoString): Run<int> {
    match version
    case Panics(p) => Panics(p)
    case Returns(Err(_)) => Returns(0)
    case Returns(Ok(rows)) =>
      if lowVer == [] || highVer == [] then Returns(0)
      else if |rows| == 0 then Panics(IndexOutOfRange)
      else if VersionColumn !in rows[0] then Panics(TypeAssertion)
      else VersionMatchOf(rows[0][VersionColumn], lowVer, highVer)
  }

  /** What the version statement yields on an instance that answers `answers`. */
  function VersionRead(answers: GoString -> QueryResult, render: TimeText): Rows {
    ProcessMetricOf(answers, VersionQuery, render)
  }

  method InstanceVersionMatch(db: Database, lowVer: GoString, highVer: GoString, render: TimeText) returns (r: Run<int>)
    modifies db
    ensures r == VersionMatchAfter(VersionRead(db.answers, render), lowVer, highVer)
    ensures db.executed == old(db.executed) + [VersionQuery]
    ensures db.closes == old(db.closes)
  {
    var version := ProcessMetric(db, VersionQuery, render);
    if version.Panics? {
      return Panics(version.cause);
    }
    if version.value.Err? {
      return Returns(0);
    }
    if lowVer == [] || highVer == [] {
      return Returns(0);
    }
    var rows := version.value.value;
    if |rows| == 0 {
      return Panics(IndexOutOfRange);
    }
    if VersionColumn !in rows[0] {
      return Panics(TypeAssertion);
    }
    r := VersionMatch(rows[0][VersionColumn], lowVer, highVer);
  }
}
