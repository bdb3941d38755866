/** Loading and validating the price table (load_data in run.py). */
module DataLoader {
  import opened Common

  /** The shape of a table as read from the CSV file: its column names, its
      number of rows, and the values of its `close` column. Other columns
      are carried by name only. */
  datatype TableShape = TableShape(columns: seq<string>, rowCount: nat, close: seq<real>)

  /** A table the CSV reader can produce: when it has a `close` column, that
      column holds one value per row. */
  type Table = t: TableShape | WellFormed(t) witness TableShape([], 0, [])

  /** What reading the input path produced: the file was not there, the CSV
      parser rejected it, or it parsed to a table. */
  datatype CsvFile = CsvMissing | CsvUnparseable | CsvRead(table: Table)

  const CsvNotFoundMessage := "Input CSV file not found."
  const InvalidCsvMessage := "Invalid CSV format."
  const EmptyCsvMessage := "Input CSV is empty."
  const MissingCloseMessage := "Missing required column: close"

  /** A table whose `close` values line up with its rows. */
  predicate WellFormed(t: TableShape) {
    "close" in t.columns ==> |t.close| == t.rowCount
  }

  /** pandas' DataFrame.empty: true when either axis has length zero. */
  predicate IsEmpty(t: Table) {
    t.rowCount == 0 || |t.columns| == 0
  }

  /** load_data: the file errors first, then an empty table, then a table
      without a `close` column; any other table is returned as read. */
  function LoadData(file: CsvFile): (r: Result<Table, string>)
    ensures r.Success? <==> file.CsvRead? && !IsEmpty(file.table) && "close" in file.table.columns
    ensures r.Success? ==> r.value == file.table && r.value.rowCount > 0
  {
    match file
    case CsvMissing => Failure(CsvNotFoundMessage)
    case CsvUnparseable => Failure(InvalidCsvMessage)
    case CsvRead(t) =>
      if IsEmpty(t) then Failure(EmptyCsvMessage)
      else if "close" !in t.columns then Failure(MissingCloseMessage)
      else Success(t)
  }

  /** The emptiness check comes before the column check: a table with no
      rows is reported as empty even when it also lacks `close`, and only a
      non-empty table is reported for the missing column. */
  lemma EmptyRejectedBeforeColumn(t: Table)
    ensures t.rowCount == 0 ==> LoadData(CsvRead(t)) == Failure(EmptyCsvMessage)
    ensures !IsEmpty(t) && "close" !in t.columns ==> LoadData(CsvRead(t)) == Failure(MissingCloseMessage)
    ensures LoadData(CsvRead(t)).Failure? ==>
      LoadData(CsvRead(t)).error in {EmptyCsvMessage, MissingCloseMessage}
  {
  }
}
