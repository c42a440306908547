/** The result decoder: turns one datum, read against its column's schema,
    into text, recursing through time series, arrays and nested rows. Every
    function returns `Failure` where the C# code would throw; the
    failure reported is the first one met in evaluation order. */
module Decoder {
  import opened Wrappers
  import opened Text
  import opened QueryModel

  /** C# string interpolation of a name that may be null: null reads as "". */
  function NameText(name: Option<string>): string
  {
    match name
    case None => ""
    case Some(n) => n
  }

  /** The `name=` prefix of a scalar, or nothing for an unnamed column. */
  function ParseColumnName(info: ColumnInfo): string
  {
    if info.name.None? then "" else info.name.value + "="
  }

  /** A scalar cell: the prefix followed by the raw scalar text. */
  function ParseScalarType(info: ColumnInfo, datum: Datum): string
  {
    ParseColumnName(info) + datum.scalarValue
  }

  /** One cell. The tests are tried in this order: null datum, time series,
      array, non-empty row, scalar. */
  function ParseDatum(info: ColumnInfo, datum: Datum): Result<string, DecodeError>
    decreases datum, 1
  {
    var columnType := info.columnType;
    if datum.nullValue then
      Success(NameText(info.name) + "=NULL")
    else if columnType.timeSeriesMeasureValueColumnInfo.Some? then
      ParseTimeSeries(info, datum)
    else if columnType.arrayColumnInfo.Some? then
      match ParseArray(columnType.arrayColumnInfo.value, datum.arrayValue)
      case Failure(e) => Failure(e)
      case Success(items) => Success(NameText(info.name) + "=" + items)
    else if columnType.rowColumnInfo.Some? && |columnType.rowColumnInfo.value| > 0 then
      ParseRow(columnType.rowColumnInfo.value, datum.rowValue)
    else
      Success(ParseScalarType(info, datum))
  }

  /** A time-series cell: every point as `{time=…, value=…}`, the value read
      against the measure-value column, comma-separated, in brackets. */
  function ParseTimeSeries(info: ColumnInfo, datum: Datum): Result<string, DecodeError>
    requires info.columnType.timeSeriesMeasureValueColumnInfo.Some?
    decreases datum, 0
  {
    match ParsePoints(info.columnType.timeSeriesMeasureValueColumnInfo.value, datum.timeSeriesValue)
    case Failure(e) => Failure(e)
    case Success(points) =>
      match Aggregate(points)
      case None => Failure(SequenceContainsNoElements)
      case Some(joined) => Success("[" + joined + "]")
  }

  /** The text of one time-series point whose value decoded to `value`. */
  function PointText(time: string, value: string): string
  {
    "{time=" + time + ", value=" + value + "}"
  }

  /** The `Select` over the points of a time series. */
  function ParsePoints(valueInfo: ColumnInfo, points: seq<TimeSeriesDataPoint>): Result<seq<string>, DecodeError>
    decreases points
  {
    if |points| == 0 then Success([])
    else
      match ParseDatum(valueInfo, points[0].value)
      case Failure(e) => Failure(e)
      case Success(value) =>
        match ParsePoints(valueInfo, points[1..])
        case Failure(e) => Failure(e)
        case Success(rest) => Success([PointText(points[0].time, value)] + rest)
  }

  /** The bracketed, comma-separated items of an array, each read against the
      array's element column. */
  function ParseArray(arrayColumnInfo: ColumnInfo, arrayValues: seq<Datum>): Result<string, DecodeError>
    decreases arrayValues, 1
  {
    match ParseItems(arrayColumnInfo, arrayValues)
    case Failure(e) => Failure(e)
    case Success(items) =>
      match Aggregate(items)
      case None => Failure(SequenceContainsNoElements)
      case Some(joined) => Success("[" + joined + "]")
  }

  /** The `Select` over the items of an array. */
  function ParseItems(info: ColumnInfo, items: seq<Datum>): Result<seq<string>, DecodeError>
    decreases items, 0
  {
    if |items| == 0 then Success([])
    else
      match ParseDatum(info, items[0])
      case Failure(e) => Failure(e)
      case Success(item) =>
        match ParseItems(info, items[1..])
        case Failure(e) => Failure(e)
        case Success(rest) => Success([item] + rest)
  }

  /** A row: cell `j` read against `columnInfo[j]`, joined by commas, in braces. */
  function ParseRow(columnInfo: seq<ColumnInfo>, row: Row): Result<string, DecodeError>
    decreases row, 1
  {
    match ParseCells(columnInfo, row.data, 0)
    case Failure(e) => Failure(e)
    case Success(cells) => Success("{" + Join(",", cells) + "}")
  }

  /** The cells of a row from position `j` on; a cell without a column throws. */
  function ParseCells(columnInfo: seq<ColumnInfo>, data: seq<Datum>, j: nat): Result<seq<string>, DecodeError>
    requires j <= |data|
    decreases data, |data| - j
  {
    if j == |data| then Success([])
    else if j >= |columnInfo| then Failure(ColumnIndexOutOfRange(j))
    else
      match ParseDatum(columnInfo[j], data[j])
      case Failure(e) => Failure(e)
      case Success(cell) =>
        match ParseCells(columnInfo, data, j + 1)
        case Failure(e) => Failure(e)
        case Success(rest) => Success([cell] + rest)
  }
}
