/** The status metricset (status/status.go): one collection cycle opens a
    connection, picks the gv$instance query that fits the instance's release,
    runs it and turns every row into an event. */
module Status {
  import opened GoLib
  import opened Driver
  import opened OracleDb

  // ===========================================================================
  // Query selection

  /** The three query variants of status.go:75-90, and the case where no
      branch of the chain matches and the query stays empty. */
  datatype Variant = Release11g | Release12cR1 | Release12cR2 | NoVariant

  /** The select list every variant shares, laid out as in the source. */
  const Head: GoString := Select1 + Select2 + Select3 + Select4
  const Select1: GoString := "SELECT inst_id, instance_name, "
  const Select2: GoString := "host_name, version, startup_time, "
  const Select3: GoString := "status,\n\t\t\t\t\t  parallel, "
  const Select4: GoString := "thread#, archiver, instance_role"
  const Tail: GoString := "\n\t\t\t\tFROM  gv$instance"

  /** The statement text of each variant; NoVariant leaves `qry` as "". Only
      a real variant is long enough for ProcessMetric's sql[:20]. */
  function QueryText(v: Variant): (q: GoString)
    ensures |q| >= 20 <==> v != NoVariant
  {
    match v
    case Release11g => Head + Tail
    case Release12cR1 => Head + ", con_id, edition" + Tail
    case Release12cR2 => Head + ", con_id, edition, database_type" + Tail
    case NoVariant => []
  }

  /** The if/else-if chain over three VersionMatch outcomes: the first call
      that yields 1 picks its variant, a panic in a call ends the chain. */
  function Choose(m1: Run<int>, m2: Run<int>, m3: Run<int>): Run<Variant> {
    if m1.Panics? then Panics(m1.cause)
    else if m1.value == 1 then Returns(Release11g)
    else if m2.Panics? then Panics(m2.cause)
    else if m2.value == 1 then Returns(Release12cR1)
    else if m3.Panics? then Panics(m3.cause)
    else if m3.value == 1 then Returns(Release12cR2)
    else Returns(NoVariant)
  }

  /** How many of the three VersionMatch calls the chain makes: a later
      condition is evaluated only when every earlier one returned and was not 1. */
  function Probes(m1: Run<int>, m2: Run<int>): (n: nat)
    ensures 1 <= n <= 3
  {
    if m1.Panics? || m1.value == 1 then 1
    else if m2.Panics? || m2.value == 1 then 2
    else 3
  }

  /** The version range one branch of the chain hands to VersionMatch. */
  datatype Range = Range(low: GoString, high: GoString)

  const Range11g := Range("0", "11.2")
  const Range12cR1 := Range("12.1", "12.1")
  const Range12cR2 := Range("12.2", "9999")

  /** The chain over three ranges for an instance that reports version `oVer`. */
  function ChainFor(oVer: GoString, r1: Range, r2: Range, r3: Range): Run<Variant> {
    Choose(VersionMatchOf(oVer, r1.low, r1.high),
           VersionMatchOf(oVer, r2.low, r2.high),
           VersionMatchOf(oVer, r3.low, r3.high))
  }

  /** The chain of status.go:75-90 for an instance that reports version `oVer`. */
  function SelectVariant(oVer: GoString): Run<Variant> {
    ChainFor(oVer, Range11g, Range12cR1, Range12cR2)
  }

  /** The three ranges as VersionMatch parses them. */
  predicate ParsedRanges(r1: Range, r2: Range, r3: Range) {
    && r1.low != [] && r1.high != [] && r2.low != [] && r2.high != [] && r3.low != [] && r3.high != []
    && Components(r1.low) == [0] && Components(r1.high) == [11, 2]
    && Components(r2.low) == [12, 1] && Components(r2.high) == [12, 1]
    && Components(r3.low) == [12, 2] && Components(r3.high) == [9999]
  }

  lemma RangesParse()
    ensures ParsedRanges(Range11g, Range12cR1, Range12cR2)
  {
    BoundComponents();
  }

  /** The chain over three ranges once the version statement yields `version`
      each time it is run. */
  function ChainAfter(version: Rows, r1: Range, r2: Range, r3: Range): Run<Variant> {
    Choose(VersionMatchAfter(version, r1.low, r1.high),
           VersionMatchAfter(version, r2.low, r2.high),
           VersionMatchAfter(version, r3.low, r3.high))
  }

  function ProbesAfter(version: Rows, r1: Range, r2: Range): nat {
    Probes(VersionMatchAfter(version, r1.low, r1.high),
           VersionMatchAfter(version, r2.low, r2.high))
  }

  /** The chain as Fetch runs it: each condition reads the version from the
      instance again. */
  function SelectedOf(answers: GoString -> QueryResult, render: TimeText): Run<Variant> {
    ChainAfter(VersionRead(answers, render), Range11g, Range12cR1, Range12cR2)
  }

  function ProbesOf(answers: GoString -> QueryResult, render: TimeText): nat {
    ProbesAfter(VersionRead(answers, render), Range11g, Range12cR1)
  }

  /** `n` copies of the version statement. */
  function VersionQueries(n: nat): (s: seq<GoString>)
    ensures |s| == n && forall i :: 0 <= i < n ==> s[i] == VersionQuery
  {
    seq(n, _ => VersionQuery)
  }

  /** The if/else-if chain of status.go:74-90 against the connected instance,
      over the ranges it tests in order. */
  method RunChain(db: Database, render: TimeText, r1: Range, r2: Range, r3: Range) returns (v: Run<Variant>)
    modifies db
    ensures v == ChainAfter(VersionRead(db.answers, render), r1, r2, r3)
    ensures db.executed == old(db.executed) + VersionQueries(ProbesAfter(VersionRead(db.answers, render), r1, r2))
    ensures db.closes == old(db.closes)
  {
    var m1 := InstanceVersionMatch(db, r1.low, r1.high, render);
    if m1.Panics? || m1.value == 1 {
      assert VersionQueries(1) == [VersionQuery];
      return if m1.Panics? then Panics(m1.cause) else Returns(Release11g);
    }
    var m2 := InstanceVersionMatch(db, r2.low, r2.high, render);
    if m2.Panics? || m2.value == 1 {
      assert VersionQueries(2) == [VersionQuery, VersionQuery];
      return if m2.Panics? then Panics(m2.cause) else Returns(Release12cR1);
    }
    var m3 := InstanceVersionMatch(db, r3.low, r3.high, render);
    assert VersionQueries(3) == [VersionQuery, VersionQuery, VersionQuery];
    if m3.Panics? {
      return Panics(m3.cause);
    }
    if m3.value == 1 {
      return Returns(Release12cR2);
    }
    return Returns(NoVariant);
  }

  /** The query selection of Fetch. */
  method SelectQuery(db: Database, render: TimeText) returns (v: Run<Variant>)
    modifies db
    ensures v == SelectedOf(db.answers, render)
    ensures db.executed == old(db.executed) + VersionQueries(ProbesOf(db.answers, render))
    ensures db.closes == old(db.closes)
  {
    v := RunChain(db, render, Range11g, Range12cR1, Range12cR2);
  }

  /** With a major strictly between 0 and 9999 and a minor present, the chain
      never panics and picks: 11g up to 11.2, 12cR1 for exactly 12.1, 12cR2
      from 12.2 on; the releases in between (11.3 and up, 12.0 and below)
      match no branch. */
  lemma SelectVariantByRelease(oVer: GoString)
    requires |Components(oVer)| >= 2 && 0 < Components(oVer)[0] < 9999
    ensures var o := Components(oVer)[..2];
      && SelectVariant(oVer).Returns?
      && (SelectVariant(oVer).value == Release11g <==> LexLe(o, [11, 2]))
      && (SelectVariant(oVer).value == Release12cR1 <==> o == [12, 1])
      && (SelectVariant(oVer).value == Release12cR2 <==> LexLe([12, 2], o))
      && (SelectVariant(oVer).value == NoVariant <==> (o[0] == 11 && o[1] > 2) || (o[0] == 12 && o[1] <= 0))
  {
    RangesParse();
    ChainByRelease(oVer, Range11g, Range12cR1, Range12cR2);
  }

  lemma ChainByRelease(oVer: GoString, r1: Range, r2: Range, r3: Range)
    requires ParsedRanges(r1, r2, r3)
    requires |Components(oVer)| >= 2 && 0 < Components(oVer)[0] < 9999
    ensures var o := Components(oVer)[..2];
      var v := ChainFor(oVer, r1, r2, r3);
      && v.Returns?
      && (v.value == Release11g <==> LexLe(o, [11, 2]))
      && (v.value == Release12cR1 <==> o == [12, 1])
      && (v.value == Release12cR2 <==> LexLe([12, 2], o))
      && (v.value == NoVariant <==> (o[0] == 11 && o[1] > 2) || (o[0] == 12 && o[1] <= 0))
  {
    var o := Components(oVer);
    LexLePair(o[..2], [11, 2]);
    LexLePair([12, 2], o[..2]);
  }

  /** Only the major and minor of the instance version matter to the choice. */
  lemma SelectVariantIgnoresPatchLevels(oVer: GoString, oVer': GoString)
    requires Pair(Components(oVer)) == Pair(Components(oVer'))
    ensures SelectVariant(oVer) == SelectVariant(oVer')
  {
    VersionMatchIgnoresPatchLevels(oVer, oVer', "0", "0", "11.2", "11.2");
    VersionMatchIgnoresPatchLevels(oVer, oVer', "12.1", "12.1", "12.1", "12.1");
    VersionMatchIgnoresPatchLevels(oVer, oVer', "12.2", "12.2", "9999", "9999");
  }

  /** A version without a minor, the empty string included (it reads as
      [0]), panics as soon as a bound with the same major is compared against
      it: majors 0, 11, 12 and 9999 panic; the other majors are placed by the
      major alone. */
  lemma SelectVariantMajorOnly(oVer: GoString)
    requires |Components(oVer)| == 1
    ensures var x := Components(oVer)[0];
      SelectVariant(oVer)
        == if x == 0 || x == 11 || x == 12 || x == 9999 then Panics(IndexOutOfRange)
           else if 0 < x < 11 then Returns(Release11g)
           else if 12 < x < 9999 then Returns(Release12cR2)
           else Returns(NoVariant)
  {
    RangesParse();
    ChainMajorOnly(oVer, Range11g, Range12cR1, Range12cR2);
  }

  lemma ChainMajorOnly(oVer: GoString, r1: Range, r2: Range, r3: Range)
    requires ParsedRanges(r1, r2, r3)
    requires |Components(oVer)| == 1
    ensures var x := Components(oVer)[0];
      ChainFor(oVer, r1, r2, r3)
        == if x == 0 || x == 11 || x == 12 || x == 9999 then Panics(IndexOutOfRange)
           else if 0 < x < 11 then Returns(Release11g)
           else if 12 < x < 9999 then Returns(Release12cR2)
           else Returns(NoVariant)
  {
  }

  /** The empty version reads as the single component 0. */
  lemma EmptyVersion()
    ensures Components([]) == [0]
  {
    assert Split([]) == [[]];
  }

  /** What the version statement must return for the chain to see `oVer`. */
  predicate ReportsVersion(answers: GoString -> QueryResult, render: TimeText, oVer: GoString) {
    && answers(VersionQuery).Opened?
    && var c := answers(VersionQuery).cursor;
    && (forall i :: 0 <= i < |c.rows| ==> RowOk(c.columns, c.rows[i], render))
    && |c.rows| > 0
    && VersionColumn in RowMap(c.columns, c.rows[0], render)
    && RowMap(c.columns, c.rows[0], render)[VersionColumn] == oVer
  }

  /** When the first row of the version statement carries `oVer`, the chain run
      against the instance makes the choice SelectVariant makes for `oVer`. */
  lemma SelectedFromInstance(answers: GoString -> QueryResult, render: TimeText, oVer: GoString)
    requires ReportsVersion(answers, render, oVer)
    ensures SelectedOf(answers, render) == SelectVariant(oVer)
  {
    ProcessMetricRows(answers, VersionQuery, render);
  }

  /** When the version statement fails, every VersionMatch call returns 0, so
      all three are made and no branch is taken. */
  lemma SelectedWhenVersionQueryFails(answers: GoString -> QueryResult, render: TimeText)
    requires answers(VersionQuery).QueryError?
    ensures SelectedOf(answers, render) == Returns(NoVariant)
    ensures ProbesOf(answers, render) == 3
  {
  }

  // ===========================================================================
  // Fetch

  /** A field value of an event (common.MapStr). The OFFLINE event uses only
      StringValue; the integer and time leaves stand for the typed fields the
      event mapping of the status schema produces, which is a parameter here. */
  datatype Value = StringValue(s: GoString) | IntValue(i: int) | TimeValue(nanos: int)

  type Event = map<GoString, Value>

  /** The event that reports an unreachable instance. */
  const Offline: Event := map["status" := StringValue("OFFLINE")]

  datatype Cause = OpenError | Db(e: DbError)

  /** An error wrapped by errors.Wrap with the context message. */
  datatype FetchError = Wrapped(context: GoString, cause: Cause)

  const OpenContext: GoString := "oracledb-status open db connection failed"
  const FetchContext: GoString := "oracledb-status fetch failed"

  datatype FetchResult = FetchResult(events: seq<Event>, err: Option<FetchError>)

  /** eventMapping applied to each map, in order. */
  function Events(data: seq<Row>, mapping: Row -> Event): seq<Event> {
    seq(|data|, i requires 0 <= i < |data| => mapping(data[i]))
  }

  /** The outcome of Fetch with a connection (after NewDB succeeded). */
  function FetchOpenedOf(answers: GoString -> QueryResult, render: TimeText, mapping: Row -> Event): Run<FetchResult> {
    match SelectedOf(answers, render)
    case Panics(p) => Panics(p)
    case Returns(v) =>
      match ProcessMetricOf(answers, QueryText(v), render)
      case Panics(p) => Panics(p)
      case Returns(Err(e)) => Returns(FetchResult([Offline], Some(Wrapped(FetchContext, Db(e)))))
      case Returns(Ok(data)) => Returns(FetchResult(Events(data, mapping), None))
  }

  /** The outcome of Fetch; `connected` is whether NewDB returned a handle. */
  function FetchOf(answers: GoString -> QueryResult, connected: bool, render: TimeText, mapping: Row -> Event): (r: Run<FetchResult>)
    ensures r.Returns? && r.value.err.Some? ==> r.value.events == [Offline]
    ensures !connected ==> r == Returns(FetchResult([Offline], Some(Wrapped(OpenContext, OpenError))))
  {
    if !connected then Returns(FetchResult([Offline], Some(Wrapped(OpenContext, OpenError))))
    else FetchOpenedOf(answers, render, mapping)
  }

  /** The statements Fetch sends on an open connection: the version
      statement once per condition evaluated, then the chosen query unless
      the chain panicked or sql[:20] panics on it. */
  function StatementsOf(answers: GoString -> QueryResult, render: TimeText): seq<GoString> {
    var v := SelectedOf(answers, render);
    VersionQueries(ProbesOf(answers, render))
      + if v.Returns? && v.value != NoVariant then [QueryText(v.value)] else []
  }

  /** The event loop of status.go:103-106. */
  method MapEvents(data: seq<Row>, mapping: Row -> Event) returns (events: seq<Event>)
    ensures events == Events(data, mapping)
  {
    events := [];
    for i := 0 to |data|
      invariant events == Events(data[..i], mapping)
    {
      events := events + [mapping(data[i])];
    }
    assert data[..|data|] == data;
  }

  /** Fetch from the point where the connection is open up to its return. */
  method FetchOpened(db: Database, render: TimeText, mapping: Row -> Event) returns (r: Run<FetchResult>)
    modifies db
    ensures r == FetchOpenedOf(db.answers, render, mapping)
    ensures db.executed == old(db.executed) + StatementsOf(db.answers, render)
    ensures db.closes == old(db.closes)
  {
    var v := SelectQuery(db, render);
    if v.Panics? {
      return Panics(v.cause);
    }
    var data := ProcessMetric(db, QueryText(v.value), render);
    if data.Panics? {
      return Panics(data.cause);
    }
    if data.value.Err? {
      return Returns(FetchResult([Offline], Some(Wrapped(FetchContext, Db(data.value.error)))));
    }
    var events := MapEvents(data.value.value, mapping);
    r := Returns(FetchResult(events, None));
  }

  /** Fetch (status.go:53-110). The deferred Close runs on every path after
      the connection was opened, a panicking one included. */
  method Fetch(db: Database, connected: bool, render: TimeText, mapping: Row -> Event) returns (r: Run<FetchResult>)
    modifies db
    ensures r == FetchOf(db.answers, connected, render, mapping)
    ensures db.executed == old(db.executed) + (if connected then StatementsOf(db.answers, render) else [])
    ensures db.closes == old(db.closes) + (if connected then 1 else 0)
  {
    if !connected {
      return Returns(FetchResult([Offline], Some(Wrapped(OpenContext, OpenError))));
    }
    r := FetchOpened(db, render, mapping);
    db.Close();
  }

  /** A failing statement gives the single OFFLINE event and the wrapped
      query error. */
  lemma FetchOfflineOnQueryError(answers: GoString -> QueryResult, render: TimeText, mapping: Row -> Event, v: Variant)
    requires SelectedOf(answers, render) == Returns(v) && v != NoVariant
    requires answers(QueryText(v)).QueryError?
    ensures FetchOf(answers, true, render, mapping)
      == Returns(FetchResult([Offline], Some(Wrapped(FetchContext, Db(QueryFailed)))))
  {
  }

  /** At the first row that fails, Fetch stops: a row that does not scan gives
      the single OFFLINE event and the wrapped scan error, a row that makes
      parseRow panic makes Fetch panic. */
  lemma FetchStopsAtBadRow(answers: GoString -> QueryResult, render: TimeText, mapping: Row -> Event, v: Variant, i: nat)
    requires SelectedOf(answers, render) == Returns(v) && v != NoVariant
    requires answers(QueryText(v)).Opened?
    requires var c := answers(QueryText(v)).cursor;
      i < |c.rows| && RowsOk(c.columns, c.rows[..i], render) && !RowOk(c.columns, c.rows[i], render)
    ensures var c := answers(QueryText(v)).cursor;
      FetchOf(answers, true, render, mapping)
        == if ScanRow(c.columns, c.rows[i]).None?
           then Returns(FetchResult([Offline], Some(Wrapped(FetchContext, Db(ScanFailed)))))
           else Panics(TypeAssertion)
  {
    var c := answers(QueryText(v)).cursor;
    CollectedStopsAtBadRow(c.columns, c.rows, render, i);
  }

  /** When every row scans and parses, Fetch returns no error and one event
      per row, in row order. */
  lemma FetchEventPerRow(answers: GoString -> QueryResult, render: TimeText, mapping: Row -> Event, v: Variant)
    requires SelectedOf(answers, render) == Returns(v) && v != NoVariant
    requires answers(QueryText(v)).Opened?
    requires var c := answers(QueryText(v)).cursor;
      forall i :: 0 <= i < |c.rows| ==> RowOk(c.columns, c.rows[i], render)
    ensures var c := answers(QueryText(v)).cursor;
      var r := FetchOf(answers, true, render, mapping);
      && r.Returns? && r.value.err == None
      && |r.value.events| == |c.rows|
      && forall i :: 0 <= i < |c.rows| ==> r.value.events[i] == mapping(RowMap(c.columns, c.rows[i], render))
  {
    ProcessMetricRows(answers, QueryText(v), render);
  }

  /** When no branch matches, ProcessMetric is handed "" and its sql[:20]
      panics: Fetch neither reports OFFLINE nor runs a query. */
  lemma FetchPanicsWithoutVariant(answers: GoString -> QueryResult, render: TimeText, mapping: Row -> Event)
    requires SelectedOf(answers, render) == Returns(NoVariant)
    ensures FetchOf(answers, true, render, mapping) == Panics(SliceBounds)
    ensures StatementsOf(answers, render) == VersionQueries(3)
  {
    assert ProbesOf(answers, render) == 3;
  }

  /** In particular a failing version statement ends in that panic. */
  lemma FetchPanicsWhenVersionQueryFails(answers: GoString -> QueryResult, render: TimeText, mapping: Row -> Event)
    requires answers(VersionQuery).QueryError?
    ensures FetchOf(answers, true, render, mapping) == Panics(SliceBounds)
  {
    SelectedWhenVersionQueryFails(answers, render);
    FetchPanicsWithoutVariant(answers, render, mapping);
  }
}
