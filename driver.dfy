/** The database as the collector sees it through database/sql and the OCI
    driver: a statement either fails or yields a column list and a sequence
    of rows, each of which either scans into cells or fails to. */
module Driver {
  import opened GoLib

  /** A column value as the driver hands it to Scan, by its Go dynamic type. */
  datatype Cell =
    | Null                    // SQL NULL: a nil interface value
    | Text(s: GoString)       // string
    | Int64(i: int)           // int64
    | Int32(i: int)           // int32
    | Int(i: int)             // int
    | Bytes(b: seq<byte>)     // []byte
    | Timestamp(nanos: int)   // time.Time, as nanoseconds since the Unix epoch
    | Other                   // any other dynamic type (float64, bool, ...)

  predicate IsInteger(c: Cell) {
    c.Int64? || c.Int32? || c.Int?
  }

  /** What one call of rows.Next followed by rows.Scan produced. */
  datatype Fetched = Scanned(cells: seq<Cell>) | ScanError

  /** An open result set: the names rows.Columns reports and the rows to come. */
  datatype Cursor = Cursor(columns: seq<GoString>, rows: seq<Fetched>)

  datatype QueryResult = QueryError | Opened(cursor: Cursor)

  /** The errors database/sql reports to the collector. */
  datatype DbError = QueryFailed | ScanFailed

  /** rows.Scan with one destination per column: it fails when the driver
      reports an error or when the row does not have one value per column. */
  function ScanRow(columns: seq<GoString>, f: Fetched): Option<seq<Cell>> {
    match f
    case ScanError => None
    case Scanned(cs) => if |cs| == |columns| then Some(cs) else None
  }

  /** A connection handle (*sql.DB). What the server answers to each statement
      is fixed for the duration of a collection cycle; the handle records the
      statements it was asked to run and how often it was closed. */
  class Database {
    const answers: GoString -> QueryResult
    var executed: seq<GoString>
    var closes: nat

    constructor (answers: GoString -> QueryResult)
      ensures this.answers == answers && executed == [] && closes == 0
    {
      this.answers := answers;
      executed := [];
      closes := 0;
    }

    /** db.Query(sql). */
    method Query(sql: GoString) returns (r: QueryResult)
      modifies this`executed
      ensures r == answers(sql)
      ensures executed == old(executed) + [sql]
    {
      executed := executed + [sql];
      r := answers(sql);
    }

    /** db.Close(). */
    method Close()
      modifies this`closes
      ensures closes == old(closes) + 1
    {
      closes := closes + 1;
    }
  }
}
