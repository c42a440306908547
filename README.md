# Timestream query-result decoder, modelled in Dafny

This project models the read side of `HelloTimestream.TimestreamHelper`:

- the **result decoder**, which turns one row of an Amazon Timestream query
  response into one canonical string;
- the **paging loop**, which drains a query page by page by following
  continuation tokens.

The decoder does not know the row's schema in advance. Each column carries a
`ColumnInfo`: an optional name and a `Type`. A `Type` is a record of three
optional parts: a time-series measure-value column, an array element column,
and a row schema. Any of them may be set, so the decoder tests them in a
fixed order. It recurses through time series, arrays and nested rows until it
reaches scalars.

## Files

- `wrappers.dfy` — `Option` (a reference that may be null) and `Result` (an
  operation that may throw).
- `text.dfy` — `Join` (`string.Join`) and `Aggregate` (LINQ's seedless
  `Aggregate` over `current + "," + next`). A lemma shows they agree except on
  the empty list, where `Aggregate` fails.
- `query_model.dfy` — the response shapes: `ColumnInfo`, `ColumnType` (the
  SDK's `Type`), `Datum`, `TimeSeriesDataPoint`, `Row`, `Page`, `QueryRequest`,
  and the two exceptions decoding can raise (`DecodeError`).
- `decoder.dfy` — `ParseDatum`, `ParseTimeSeries`, `ParseArray`, `ParseRow`,
  `ParseScalarType` and `ParseColumnName` as mutually recursive functions.
  They terminate by structural descent through the datum.
- `decoder_properties.dfy` — what each kind of cell renders to, the dispatch
  order, and which error surfaces.
- `output_shape.dfy` — the shape of the output text. Column names, scalar
  texts and timestamps may hold any character. Take the texts the decoder
  actually prints for a datum, following its dispatch order. When none of them
  holds a bracket or brace, every decoded cell and row has balanced square
  brackets and balanced braces.
- `decoder_examples.dfy` — worked examples, each derived from those
  properties.
- `executor.dfy` — the loops: `ParseRow` (index loop over the cells),
  `ParseQueryResult` (loop over a page's rows) and `QueryRecords` (the paging
  loop). Each method is proved equal to a specification function. Lemmas
  about those functions give ordering and completeness.

Errors are values. Where the C# code throws, the model returns `Failure`:

- `ColumnIndexOutOfRange(j)` when `columnInfo[j]` does not exist;
- `SequenceContainsNoElements` when `Aggregate` meets an empty array or time
  series.

The failure reported is the first one met in the C# evaluation order: cells
left to right, items and points left to right, pages in order.

### Behaviour worth noting

- A null datum in an unnamed column renders as `=NULL`: C# interpolates a
  null name as `""` (`TimestreamHelper.cs:133`).
- Time-series values are decoded against the type's own measure-value
  `ColumnInfo`, under that column's name (`TimestreamHelper.cs:162`).
- Array items are decoded against the type's own element `ColumnInfo`,
  under that column's name (`TimestreamHelper.cs:144`, `:180`).
- A row is not checked up front for length. The loop runs over the cells:
  - extra column infos are ignored;
  - a cell without a column throws at that cell
    (`TimestreamHelper.cs:120-122`).
- The query stops at the first page that has no continuation token, or at
  the first page that fails to decode, whichever comes first
  (`TimestreamHelper.cs:83-89`).

## Model

| member | source | states |
|---|---|---|
| Text.Join | TimestreamHelper.cs:126 | No contract of its own. `string.Join(",", …)` of a row's cells; it is related to `Aggregate` by Text.AggregateIsJoin. |
| Text.Aggregate | TimestreamHelper.cs:163 | No contract of its own. The seedless LINQ `Aggregate` over `current + "," + next`, also at :180; stated by Text.AggregateIsJoin. |
| Text.AggregateIsJoin | TimestreamHelper.cs:161-163 | The seedless `Aggregate` over `current + "," + next` fails exactly on an empty list; otherwise it equals `string.Join(",", …)` of the same list. |
| Decoder.ParseColumnName | TimestreamHelper.cs:173-176 | No contract of its own. `name=` for a named column, nothing for an unnamed one; stated by DecoderProperties.ScalarCell. |
| Decoder.ParseScalarType | TimestreamHelper.cs:168-171 | No contract of its own. The column-name prefix followed by the scalar text; stated by DecoderProperties.ScalarCell. |
| Decoder.NameText | TimestreamHelper.cs:133 | No contract of its own. A name interpolated into a string, null reading as `""`; stated by DecoderProperties.NullCell and DecoderProperties.ArrayCell. |
| Decoder.ParseDatum | TimestreamHelper.cs:129-156 | No contract of its own. The dispatch over null, time series, array, non-empty row and scalar, in that order; stated by DecoderProperties.NullCell, TimeSeriesCell, ArrayCell, RowCell, ScalarCell and EmptyRowSchemaIsNoRowSchema. |
| Decoder.ParseTimeSeries | TimestreamHelper.cs:159-166 | No contract of its own; stated by DecoderProperties.TimeSeriesRendering and TimeSeriesFirstFailure. |
| Decoder.PointText | TimestreamHelper.cs:162 | No contract of its own. The `{time=…, value=…}` text of one point; used by DecoderProperties.ParsePointsSucceeds. |
| Decoder.ParsePoints | TimestreamHelper.cs:161-162 | No contract of its own. The `Select` over the points; stated by DecoderProperties.ParsePointsSucceeds and ParsePointsFirstFailure. |
| Decoder.ParseArray | TimestreamHelper.cs:178-181 | No contract of its own; stated by DecoderProperties.ArrayRendering and ArrayFirstFailure. |
| Decoder.ParseItems | TimestreamHelper.cs:180 | No contract of its own. The `Select` over the items; stated by DecoderProperties.ParseItemsSucceeds and ParseItemsFirstFailure. |
| Decoder.ParseRow | TimestreamHelper.cs:116-127 | No contract of its own; stated by DecoderProperties.RowRendering, RowFailure, RowFirstFailure, RowMissingColumn and RowIgnoresExtraColumns. |
| Decoder.ParseCells | TimestreamHelper.cs:120-125 | No contract of its own. The cell loop from position j on; stated by DecoderProperties.ParseCellsSucceeds, ParseCellsFirstFailure, ParseCellsMissingColumn and ParseCellsIgnoresExtraColumns. |
| DecoderProperties.ParseItemsSucceeds | TimestreamHelper.cs:180 | The `Select` over an array's items succeeds iff every item decodes against the element column. It then yields one text per item, in item order. |
| DecoderProperties.ParseItemsFirstFailure | TimestreamHelper.cs:180 | If item k is the first to fail, the array's items fail with item k's error. |
| DecoderProperties.ParsePointsSucceeds | TimestreamHelper.cs:161-162 | The `Select` over a time series succeeds iff every point's value decodes against the measure-value column. It then yields `{time=t, value=v}` per point, in order. |
| DecoderProperties.ParsePointsFirstFailure | TimestreamHelper.cs:161-162 | If point k's value is the first to fail, the points fail with its error. |
| DecoderProperties.ParseCellsSucceeds | TimestreamHelper.cs:120-125 | The cells from position j on succeed iff each has a column and decodes against it. They then yield one text per cell, in cell order. |
| DecoderProperties.ParseCellsFirstFailure | TimestreamHelper.cs:120-125 | If cell k is the first to fail and has a column, the cells fail with its error. |
| DecoderProperties.ParseCellsMissingColumn | TimestreamHelper.cs:122 | There may be more cells than columns. If every cell that has a column decodes, the cells fail with `ColumnIndexOutOfRange` at the first cell without a column. |
| DecoderProperties.ParseCellsIgnoresExtraColumns | TimestreamHelper.cs:120-122 | Appending columns beyond the last cell does not change the decoded cells. |
| DecoderProperties.RowRendering | TimestreamHelper.cs:116-127 | A row whose every cell has a column and decodes renders as `"{" + join(",", cells) + "}"`. There is exactly one cell per datum, in datum order, and cell j is read against `columnInfo[j]`. |
| DecoderProperties.RowFailure | TimestreamHelper.cs:116-127 | A row fails iff some cell lacks a column or fails to decode. |
| DecoderProperties.RowFirstFailure | TimestreamHelper.cs:120-125 | The first failing cell decides the row's error. |
| DecoderProperties.RowMissingColumn | TimestreamHelper.cs:120-122 | A row with more cells than columns, whose cells up to the last column decode, fails with `ColumnIndexOutOfRange` at the number of columns. |
| DecoderProperties.RowIgnoresExtraColumns | TimestreamHelper.cs:120-122 | Column infos beyond the row's last cell never affect the result. |
| DecoderProperties.ArrayRendering | TimestreamHelper.cs:178-181 | An empty array fails with `SequenceContainsNoElements`. An array whose items all decode renders as `"[" + join(",", items) + "]"`. It succeeds iff it is non-empty and every item decodes. |
| DecoderProperties.ArrayFirstFailure | TimestreamHelper.cs:178-181 | The first failing item decides the array's error. |
| DecoderProperties.TimeSeriesRendering | TimestreamHelper.cs:159-166 | An empty series fails with `SequenceContainsNoElements`. Otherwise it renders as `"[" + join(",", "{time=" + t + ", value=" + v + "}") + "]"`, each v read against the measure-value column. It succeeds iff it is non-empty and every value decodes. |
| DecoderProperties.TimeSeriesFirstFailure | TimestreamHelper.cs:159-166 | The first point whose value fails decides the series' error. |
| DecoderProperties.NullCell | TimestreamHelper.cs:131-134 | A null datum renders as `name=NULL` whatever the column's type. An unnamed column gives `=NULL`. |
| DecoderProperties.TimeSeriesCell | TimestreamHelper.cs:136-140 | A non-null datum in a column whose type sets a time series renders as that time series. Neither the array part, the row part nor the column's name changes the result. |
| DecoderProperties.ArrayCell | TimestreamHelper.cs:141-145 | Take a column whose type sets an array part but no time series. It renders as `name + "=[" + join(",", items) + "]"`, each item read against the element column. It succeeds iff the array is non-empty and every item decodes. An empty array fails with `SequenceContainsNoElements`; otherwise the cell fails with the error of the array's first failing item. Its row part plays no role. |
| DecoderProperties.RowCell | TimestreamHelper.cs:146-151 | Take a column with no time series, no array and a non-empty row schema. It renders as exactly the nested row's text. The column's name and the datum's scalar text play no role. |
| DecoderProperties.ScalarCell | TimestreamHelper.cs:168-176 | Take a column with no container part, or with an empty row schema. It renders as `name=text`, or the bare text when the column is unnamed. |
| DecoderProperties.EmptyRowSchemaIsNoRowSchema | TimestreamHelper.cs:146 | For every column and datum, an empty row schema decodes the same as no row schema. |
| OutputShape.DatumBalanced | TimestreamHelper.cs:129-181 | Take a cell in which no text the decoder prints holds a bracket or brace. That covers the column's name for a null, an array or a scalar, the timestamps of a time series, and the scalar text of a scalar, recursively through the part that wins the dispatch. If the cell decodes, its text has balanced square brackets and balanced braces. Each kind is counted on its own: the depth never goes below zero and ends at zero. |
| OutputShape.PointTextBalanced | TimestreamHelper.cs:162 | `{time=t, value=v}` is balanced when t is plain and v is balanced. |
| OutputShape.RowBalanced | TimestreamHelper.cs:116-127 | Take a row whose cells that have a column are plain against it. If it decodes, its braced text is balanced. |
| DecoderExamples.ScalarRowExample | TimestreamHelper.cs:116-127 | Columns `species` and `count` with values `Owl` and `3` render as `{species=Owl,count=3}`. |
| DecoderExamples.NestedRowDropsNameExample | TimestreamHelper.cs:146-151 | A row column `addr` with fields `street=Main`, `zip=12345` renders as `{street=Main,zip=12345}`, without `addr`. |
| DecoderExamples.ArrayKeepsNameExample | TimestreamHelper.cs:141-145 | An array column `tags` of unnamed scalars `a`, `b` renders as `tags=[a,b]`. |
| DecoderExamples.UnnamedNullItemExample | TimestreamHelper.cs:131-134 | A null item of an unnamed element column renders as `=NULL`: `xs=[1,=NULL]`. |
| DecoderExamples.TimeSeriesExample | TimestreamHelper.cs:159-166 | A series column `measure` with measure-value column `v` renders as `[{time=t1, value=v=5},{time=t2, value=v=7}]`. |
| DecoderExamples.EmptyArrayExample | TimestreamHelper.cs:180 | An empty array column fails instead of rendering `tags=[]`. |
| Executor.DecodeRowsSnoc | TimestreamHelper.cs:108-111 | Decoding rows one more row at a time, as the page loop does, agrees with decoding them all. |
| Executor.DecodeRowsPointwise | TimestreamHelper.cs:108-111 | A page decodes iff each row does. It then yields exactly one text per row, in row order. |
| Executor.DecodeRowsTail | TimestreamHelper.cs:108-111 | A failure among the first i rows is the failure of the whole page. |
| Executor.DecodePagesSnoc | TimestreamHelper.cs:83-89 | Decoding pages one more page at a time, as the paging loop does, agrees with decoding them all: the first failure wins, otherwise outputs concatenate in page order. |
| Executor.DecodePagesTail | TimestreamHelper.cs:83-89 | A failure among the first i pages is the failure of the whole query. |
| Executor.DecodePagesRowCount | TimestreamHelper.cs:83-89 | When every page decodes, the result holds exactly one text per row of the pages read. |
| Executor.LastPage | TimestreamHelper.cs:86 | The index of the first page without a continuation token. Every earlier page has one. |
| Executor.ParseRow | TimestreamHelper.cs:116-127 | The index loop that fills `rowOutput` and joins it in braces returns exactly the row's decoded text, or the error of the first failing cell. |
| Executor.ParseQueryResult | TimestreamHelper.cs:94-114 | The loop over the page's rows returns exactly the page's decoded rows in order, or the first row's error. |
| Executor.StopPage | TimestreamHelper.cs:83-89 | The index of the first page that has no continuation token or fails to decode. Every earlier page has a token and decodes. |
| Executor.StopWithinLastPage | TimestreamHelper.cs:83-89 | When some page has no token, the query stops at or before the first such page. Its outcome equals decoding every page up to that one. |
| Executor.QueryRecords | TimestreamHelper.cs:76-91 | Exactly `StopPage + 1` requests are sent. The first carries no token, and request k+1 carries page k's token. The result is the concatenation, in page order, of the decoded rows of pages 0 to `StopPage`. It succeeds iff the stop page decodes, and then that page has no token. On failure the error is the stop page's. When some page has no token, the result equals decoding pages 0 to `LastPage`. |
| Executor.PagesBalanced | TimestreamHelper.cs:76-114 | Take pages whose every row is plain against the page's columns. If the query decodes, every text it returns is balanced. |
| Executor.TwoPageExample | TimestreamHelper.cs:83-89 | Take a page of two rows with token `t1`, then a page of one row with none. `LastPage` is the second page, and the pages up to it decode to the three texts in page-then-row order. |
| Executor.TwoPageQuery | TimestreamHelper.cs:76-91 | Running the query over those two pages sends two requests: the first with no token, the second with `t1`. It returns the three texts in page-then-row order. |

## Left out

- `WriteRecordsAsync` and the write client configuration
  (`TimestreamHelper.cs:32-52`): they only hand a record list to the AWS SDK.
- The SDK clients, their 20-second timeout and 10-attempt retry
  (`TimestreamHelper.cs:67-73`), and the `QueryAsync` calls. These are network
  I/O. The service is modelled as a sequence of pages, where request k is
  answered with page k. Transport failures are not modelled.
- Executor.QueryRecords: requires that some page has no continuation token or
  fails to decode. On a service that returns decodable pages with tokens
  forever, the C# loop runs forever; the model does not represent that run.
- The JSON serialisation of the column infos and the read of `QueryStatus` in
  `ParseQueryResult` (`TimestreamHelper.cs:99-106`): their results are never
  used, and they are foreign library calls.
- `async`/`await` and `Task`: the model is sequential.
- The unused `HT_TTL_HOURS`/`CT_TTL_DAYS` constants, and the
  `DatabaseName`/`TableName` fields and constructor. The query path does not
  read them.
- The `ScalarType` field of the SDK's `Type`: the decoder never reads it.
- Null references from the SDK. The model gives every field a value, so it
  does not model the exceptions these would raise:
  - a null `ArrayValue` or `TimeSeriesValue`: `Enumerable.Select` throws
    `ArgumentNullException` (`TimestreamHelper.cs:180`, `:161-162`);
  - a null `RowValue` or a null `Row.Data`: `NullReferenceException` at
    `row.Data` or `data.Count` (`TimestreamHelper.cs:118`, `:120`);
  - a null `ColumnInfo.Type`, or a null datum or column in a list:
    `NullReferenceException` (`TimestreamHelper.cs:131`, `:136-137`);
  - a null `response.ColumnInfo` or `response.Rows`: `NullReferenceException`
    in `ParseQueryResult` (`TimestreamHelper.cs:103`, `:108`);
  - a null `ScalarValue` or `Time` interpolates as `""`, the same as an empty
    text, so the model loses nothing there.
- Program.cs (configuration, console output, argument dispatch, building a
  write record): it is command-line plumbing and is not part of this model.
