/** The shapes of a Timestream query response as the decoder sees them: the
    self-describing column schema (`ColumnInfo` / `Type`), the data
    (`Row` / `Datum`), one page of results, and the request that asks for it. */
module QueryModel {
  import opened Wrappers

  /** One column: an optional name and its type. */
  datatype ColumnInfo = ColumnInfo(name: Option<string>, columnType: ColumnType)

  /** The SDK's `Type` record. Each of the three optional parts, when set,
      makes the column a container of that kind; nothing stops more than one
      being set, and the decoder breaks the tie in a fixed order. A column
      with none of them set (or an empty row schema) is a scalar. */
  datatype ColumnType = ColumnType(
    arrayColumnInfo: Option<ColumnInfo>,
    rowColumnInfo: Option<seq<ColumnInfo>>,
    timeSeriesMeasureValueColumnInfo: Option<ColumnInfo>)

  /** One value. Like the SDK's `Datum`, every field is present and the column
      type decides which one is read. */
  datatype Datum = Datum(
    scalarValue: string,
    timeSeriesValue: seq<TimeSeriesDataPoint>,
    arrayValue: seq<Datum>,
    rowValue: Row,
    nullValue: bool)

  /** One point of a time series: its timestamp text and its value. */
  datatype TimeSeriesDataPoint = TimeSeriesDataPoint(time: string, value: Datum)

  /** One row: the data of its cells, positionally aligned with a schema. */
  datatype Row = Row(data: seq<Datum>)

  /** One page of a query response: the schema shared by its rows, the rows,
      and the continuation token (absent on the last page). */
  datatype Page = Page(columnInfo: seq<ColumnInfo>, rows: seq<Row>, nextToken: Option<string>)

  /** A query request: the query text and the token of the page to continue from. */
  datatype QueryRequest = QueryRequest(queryString: string, nextToken: Option<string>)

  /** The exceptions decoding can raise. */
  datatype DecodeError =
    | ColumnIndexOutOfRange(index: nat)   // a row has more cells than its schema has columns
    | SequenceContainsNoElements          // seedless Aggregate over an empty array or time series

  /** A scalar datum with the given text. */
  function Scalar(text: string): Datum
  {
    Datum(text, [], [], Row([]), false)
  }

  /** A null datum. */
  function Null(): Datum
  {
    Datum("", [], [], Row([]), true)
  }

  /** The type of a plain scalar column. */
  function ScalarType(): ColumnType
  {
    ColumnType(None, None, None)
  }
}
