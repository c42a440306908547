/** What the decoder promises: the shape of each kind of cell, the order in
    which the column type's parts are tested, and which error surfaces. */
module DecoderProperties {
  import opened Wrappers
  import opened Text
  import opened QueryModel
  import opened Decoder

  /** Every item decodes against `info`. */
  ghost predicate AllDecode(info: ColumnInfo, items: seq<Datum>)
  {
    forall i :: 0 <= i < |items| ==> ParseDatum(info, items[i]).Success?
  }

  /** The decoded items, in order. */
  ghost function DecodedItems(info: ColumnInfo, items: seq<Datum>): seq<string>
    requires AllDecode(info, items)
  {
    seq(|items|, i requires 0 <= i < |items| && AllDecode(info, items) => ParseDatum(info, items[i]).value)
  }

  /** Item `k` is the first one that fails to decode. */
  ghost predicate FirstFailureAt(info: ColumnInfo, items: seq<Datum>, k: nat)
  {
    k < |items| && ParseDatum(info, items[k]).Failure?
    && forall i :: 0 <= i < k ==> ParseDatum(info, items[i]).Success?
  }

  /** Every value of a time series decodes against `info`. */
  ghost predicate AllPointsDecode(info: ColumnInfo, points: seq<TimeSeriesDataPoint>)
  {
    forall i :: 0 <= i < |points| ==> ParseDatum(info, points[i].value).Success?
  }

  /** The rendered points, in order. */
  ghost function DecodedPoints(info: ColumnInfo, points: seq<TimeSeriesDataPoint>): seq<string>
    requires AllPointsDecode(info, points)
  {
    seq(|points|, i requires 0 <= i < |points| && AllPointsDecode(info, points) =>
      PointText(points[i].time, ParseDatum(info, points[i].value).value))
  }

  /** Every cell of `data` from position `j` on has a column and decodes
      against it. */
  ghost predicate CellsDecodeFrom(columnInfo: seq<ColumnInfo>, data: seq<Datum>, j: nat)
  {
    (|data| <= j || |data| <= |columnInfo|)
    && forall i :: j <= i < |data| ==> ParseDatum(columnInfo[i], data[i]).Success?
  }

  /** The decoded cells from position `j` on, in order; cell `i` read against
      `columnInfo[i]`. */
  ghost function DecodedCellsFrom(columnInfo: seq<ColumnInfo>, data: seq<Datum>, j: nat): seq<string>
    requires j <= |data| && CellsDecodeFrom(columnInfo, data, j)
  {
    seq(|data| - j, i requires 0 <= i < |data| - j && CellsDecodeFrom(columnInfo, data, j) =>
      ParseDatum(columnInfo[j + i], data[j + i]).value)
  }

  // ---------------------------------------------------------------------------
  // The Select steps: decoding a list succeeds exactly when every element
  // does, keeps order and length, and otherwise reports the first failure.

  lemma {:induction false} ParseItemsSucceeds(info: ColumnInfo, items: seq<Datum>)
    ensures ParseItems(info, items).Success? <==> AllDecode(info, items)
    ensures AllDecode(info, items) ==> ParseItems(info, items) == Success(DecodedItems(info, items))
  {
    if |items| > 0 {
      ParseItemsSucceeds(info, items[1..]);
      assert AllDecode(info, items) ==> AllDecode(info, items[1..]) by {
        if AllDecode(info, items) {
          forall i | 0 <= i < |items[1..]| ensures ParseDatum(info, items[1..][i]).Success? {
            assert items[1..][i] == items[i + 1];
          }
        }
      }
      if ParseDatum(info, items[0]).Success? && AllDecode(info, items[1..]) {
        forall i | 1 <= i < |items| ensures ParseDatum(info, items[i]).Success? {
          assert items[i] == items[1..][i - 1];
        }
        var first := ParseDatum(info, items[0]).value;
        var rest := DecodedItems(info, items[1..]);
        assert ParseItems(info, items) == Success([first] + rest);
        var whole := DecodedItems(info, items);
        forall i | 0 <= i < |items| ensures ([first] + rest)[i] == whole[i] {
          if i > 0 {
            assert items[i] == items[1..][i - 1];
          }
        }
        assert [first] + rest == whole;
      }
    }
  }

  lemma {:induction false} ParseItemsFirstFailure(info: ColumnInfo, items: seq<Datum>, k: nat)
    requires FirstFailureAt(info, items, k)
    ensures ParseItems(info, items) == Failure(ParseDatum(info, items[k]).error)
  {
    if k > 0 {
      assert FirstFailureAt(info, items[1..], k - 1) by {
        assert items[1..][k - 1] == items[k];
        forall i | 0 <= i < k - 1 ensures ParseDatum(info, items[1..][i]).Success? {
          assert items[1..][i] == items[i + 1];
        }
      }
      ParseItemsFirstFailure(info, items[1..], k - 1);
    }
  }

  lemma {:induction false} ParsePointsSucceeds(info: ColumnInfo, points: seq<TimeSeriesDataPoint>)
    ensures ParsePoints(info, points).Success? <==> AllPointsDecode(info, points)
    ensures AllPointsDecode(info, points) ==> ParsePoints(info, points) == Success(DecodedPoints(info, points))
  {
    if |points| > 0 {
      ParsePointsSucceeds(info, points[1..]);
      assert AllPointsDecode(info, points) ==> AllPointsDecode(info, points[1..]) by {
        if AllPointsDecode(info, points) {
          forall i | 0 <= i < |points[1..]| ensures ParseDatum(info, points[1..][i].value).Success? {
            assert points[1..][i] == points[i + 1];
          }
        }
      }
      if ParseDatum(info, points[0].value).Success? && AllPointsDecode(info, points[1..]) {
        forall i | 1 <= i < |points| ensures ParseDatum(info, points[i].value).Success? {
          assert points[i] == points[1..][i - 1];
        }
        var first := PointText(points[0].time, ParseDatum(info, points[0].value).value);
        var rest := DecodedPoints(info, points[1..]);
        assert ParsePoints(info, points) == Success([first] + rest);
        var whole := DecodedPoints(info, points);
        forall i | 0 <= i < |points| ensures ([first] + rest)[i] == whole[i] {
          if i > 0 {
            assert points[i] == points[1..][i - 1];
          }
        }
        assert [first] + rest == whole;
      }
    }
  }

  lemma {:induction false} ParsePointsFirstFailure(info: ColumnInfo, points: seq<TimeSeriesDataPoint>, k: nat)
    requires k < |points| && ParseDatum(info, points[k].value).Failure?
    requires forall i :: 0 <= i < k ==> ParseDatum(info, points[i].value).Success?
    ensures ParsePoints(info, points) == Failure(ParseDatum(info, points[k].value).error)
  {
    if k > 0 {
      assert points[1..][k - 1] == points[k];
      forall i | 0 <= i < k - 1 ensures ParseDatum(info, points[1..][i].value).Success? {
        assert points[1..][i] == points[i + 1];
      }
      ParsePointsFirstFailure(info, points[1..], k - 1);
    }
  }

  lemma {:induction false} ParseCellsSucceeds(columnInfo: seq<ColumnInfo>, data: seq<Datum>, j: nat)
    requires j <= |data|
    ensures ParseCells(columnInfo, data, j).Success? <==> CellsDecodeFrom(columnInfo, data, j)
    ensures CellsDecodeFrom(columnInfo, data, j) ==>
      ParseCells(columnInfo, data, j) == Success(DecodedCellsFrom(columnInfo, data, j))
    decreases |data| - j
  {
    if j < |data| {
      ParseCellsSucceeds(columnInfo, data, j + 1);
      if CellsDecodeFrom(columnInfo, data, j) {
        assert [ParseDatum(columnInfo[j], data[j]).value] + DecodedCellsFrom(columnInfo, data, j + 1)
          == DecodedCellsFrom(columnInfo, data, j);
      }
    }
  }

  lemma {:induction false} ParseCellsFirstFailure(columnInfo: seq<ColumnInfo>, data: seq<Datum>, j: nat, k: nat)
    requires j <= k < |data| && k < |columnInfo| && ParseDatum(columnInfo[k], data[k]).Failure?
    requires forall i :: j <= i < k ==> ParseDatum(columnInfo[i], data[i]).Success?
    ensures ParseCells(columnInfo, data, j) == Failure(ParseDatum(columnInfo[k], data[k]).error)
    decreases k - j
  {
    if j < k {
      ParseCellsFirstFailure(columnInfo, data, j + 1, k);
    }
  }

  lemma {:induction false} ParseCellsMissingColumn(columnInfo: seq<ColumnInfo>, data: seq<Datum>, j: nat)
    requires j <= |columnInfo| < |data|
    requires forall i :: j <= i < |columnInfo| ==> ParseDatum(columnInfo[i], data[i]).Success?
    ensures ParseCells(columnInfo, data, j) == Failure(ColumnIndexOutOfRange(|columnInfo|))
    decreases |columnInfo| - j
  {
    if j < |columnInfo| {
      ParseCellsMissingColumn(columnInfo, data, j + 1);
    }
  }

  lemma {:induction false} ParseCellsIgnoresExtraColumns(columnInfo: seq<ColumnInfo>, extra: seq<ColumnInfo>, data: seq<Datum>, j: nat)
    requires j <= |data| <= |columnInfo|
    ensures ParseCells(columnInfo + extra, data, j) == ParseCells(columnInfo, data, j)
    decreases |data| - j
  {
    if j < |data| {
      assert (columnInfo + extra)[j] == columnInfo[j];
      ParseCellsIgnoresExtraColumns(columnInfo, extra, data, j + 1);
    }
  }

  // ---------------------------------------------------------------------------
  // Rows.

  /** A row whose every cell has a column and decodes renders as its cells,
      in order, joined by commas and wrapped in braces. */
  lemma RowRendering(columnInfo: seq<ColumnInfo>, row: Row)
    requires CellsDecodeFrom(columnInfo, row.data, 0)
    ensures |DecodedCellsFrom(columnInfo, row.data, 0)| == |row.data|
    ensures ParseRow(columnInfo, row) == Success("{" + Join(",", DecodedCellsFrom(columnInfo, row.data, 0)) + "}")
  {
    ParseCellsSucceeds(columnInfo, row.data, 0);
  }

  /** A row fails to render exactly when some cell lacks a column or fails. */
  lemma RowFailure(columnInfo: seq<ColumnInfo>, row: Row)
    ensures ParseRow(columnInfo, row).Failure? <==> !CellsDecodeFrom(columnInfo, row.data, 0)
  {
    ParseCellsSucceeds(columnInfo, row.data, 0);
  }

  /** The first cell that fails decides the row's error. */
  lemma RowFirstFailure(columnInfo: seq<ColumnInfo>, row: Row, k: nat)
    requires k < |row.data| && k < |columnInfo| && ParseDatum(columnInfo[k], row.data[k]).Failure?
    requires forall i :: 0 <= i < k ==> ParseDatum(columnInfo[i], row.data[i]).Success?
    ensures ParseRow(columnInfo, row) == Failure(ParseDatum(columnInfo[k], row.data[k]).error)
  {
    ParseCellsFirstFailure(columnInfo, row.data, 0, k);
  }

  /** A row with more cells than columns, whose cells up to the last column
      decode, fails at the first cell without a column. */
  lemma RowMissingColumn(columnInfo: seq<ColumnInfo>, row: Row)
    requires |columnInfo| < |row.data|
    requires forall i :: 0 <= i < |columnInfo| ==> ParseDatum(columnInfo[i], row.data[i]).Success?
    ensures ParseRow(columnInfo, row) == Failure(ColumnIndexOutOfRange(|columnInfo|))
  {
    ParseCellsMissingColumn(columnInfo, row.data, 0);
  }

  /** Columns beyond the row's last cell are never read. */
  lemma RowIgnoresExtraColumns(columnInfo: seq<ColumnInfo>, extra: seq<ColumnInfo>, row: Row)
    requires |row.data| <= |columnInfo|
    ensures ParseRow(columnInfo + extra, row) == ParseRow(columnInfo, row)
  {
    ParseCellsIgnoresExtraColumns(columnInfo, extra, row.data, 0);
  }

  // ---------------------------------------------------------------------------
  // Arrays and time series.

  /** An array renders as its items, each read against the element column,
      joined by commas in brackets; an empty array is an error. */
  lemma ArrayRendering(arrayColumnInfo: ColumnInfo, items: seq<Datum>)
    ensures |items| == 0 ==> ParseArray(arrayColumnInfo, items) == Failure(SequenceContainsNoElements)
    ensures |items| > 0 && AllDecode(arrayColumnInfo, items) ==>
      ParseArray(arrayColumnInfo, items) == Success("[" + Join(",", DecodedItems(arrayColumnInfo, items)) + "]")
    ensures ParseArray(arrayColumnInfo, items).Success? <==> |items| > 0 && AllDecode(arrayColumnInfo, items)
  {
    ParseItemsSucceeds(arrayColumnInfo, items);
    if AllDecode(arrayColumnInfo, items) {
      AggregateIsJoin(DecodedItems(arrayColumnInfo, items));
    }
  }

  /** The first item that fails decides the array's error. */
  lemma ArrayFirstFailure(arrayColumnInfo: ColumnInfo, items: seq<Datum>, k: nat)
    requires FirstFailureAt(arrayColumnInfo, items, k)
    ensures ParseArray(arrayColumnInfo, items) == Failure(ParseDatum(arrayColumnInfo, items[k]).error)
  {
    ParseItemsFirstFailure(arrayColumnInfo, items, k);
  }

  /** A time series renders as its points `{time=…, value=…}`, each value read
      against the measure-value column, joined by commas in brackets; an empty
      series is an error. */
  lemma TimeSeriesRendering(info: ColumnInfo, datum: Datum)
    requires info.columnType.timeSeriesMeasureValueColumnInfo.Some?
    ensures var valueInfo := info.columnType.timeSeriesMeasureValueColumnInfo.value;
      && (|datum.timeSeriesValue| == 0 ==> ParseTimeSeries(info, datum) == Failure(SequenceContainsNoElements))
      && (|datum.timeSeriesValue| > 0 && AllPointsDecode(valueInfo, datum.timeSeriesValue) ==>
            ParseTimeSeries(info, datum) == Success("[" + Join(",", DecodedPoints(valueInfo, datum.timeSeriesValue)) + "]"))
      && (ParseTimeSeries(info, datum).Success? <==>
            |datum.timeSeriesValue| > 0 && AllPointsDecode(valueInfo, datum.timeSeriesValue))
  {
    var valueInfo := info.columnType.timeSeriesMeasureValueColumnInfo.value;
    ParsePointsSucceeds(valueInfo, datum.timeSeriesValue);
    if AllPointsDecode(valueInfo, datum.timeSeriesValue) {
      AggregateIsJoin(DecodedPoints(valueInfo, datum.timeSeriesValue));
    }
  }

  /** The first point whose value fails decides the series' error. */
  lemma TimeSeriesFirstFailure(info: ColumnInfo, datum: Datum, k: nat)
    requires info.columnType.timeSeriesMeasureValueColumnInfo.Some?
    requires var valueInfo := info.columnType.timeSeriesMeasureValueColumnInfo.value;
      && k < |datum.timeSeriesValue| && ParseDatum(valueInfo, datum.timeSeriesValue[k].value).Failure?
      && forall i :: 0 <= i < k ==> ParseDatum(valueInfo, datum.timeSeriesValue[i].value).Success?
    ensures ParseTimeSeries(info, datum)
      == Failure(ParseDatum(info.columnType.timeSeriesMeasureValueColumnInfo.value, datum.timeSeriesValue[k].value).error)
  {
    ParsePointsFirstFailure(info.columnType.timeSeriesMeasureValueColumnInfo.value, datum.timeSeriesValue, k);
  }

  // ---------------------------------------------------------------------------
  // One cell: the dispatch order and what each branch produces.

  /** A null datum renders as `name=NULL` whatever the column's type; with no
      name the `=` stays: `=NULL`. */
  lemma NullCell(info: ColumnInfo, datum: Datum)
    requires datum.nullValue
    ensures info.name.Some? ==> ParseDatum(info, datum) == Success(info.name.value + "=NULL")
    ensures info.name.None? ==> ParseDatum(info, datum) == Success("=NULL")
  {
    assert "" + "=NULL" == "=NULL";
  }

  /** A time-series column is rendered as a time series whatever else its type
      sets, and the column's own name does not appear. */
  lemma TimeSeriesCell(info: ColumnInfo, datum: Datum, name: Option<string>,
                       arrayInfo: Option<ColumnInfo>, rowInfo: Option<seq<ColumnInfo>>)
    requires !datum.nullValue && info.columnType.timeSeriesMeasureValueColumnInfo.Some?
    ensures ParseDatum(info, datum) == ParseTimeSeries(info, datum)
    ensures ParseDatum(info, datum)
      == ParseDatum(ColumnInfo(name, info.columnType.(arrayColumnInfo := arrayInfo, rowColumnInfo := rowInfo)), datum)
  {
  }

  /** An array column (no time series set) renders as `name=[…]`, its items
      read against the element column, whatever row schema its type also
      carries; an empty array is an error, and so is an item that fails, with
      that item's error. */
  lemma ArrayCell(info: ColumnInfo, datum: Datum, rowInfo: Option<seq<ColumnInfo>>)
    requires !datum.nullValue
    requires info.columnType.timeSeriesMeasureValueColumnInfo.None? && info.columnType.arrayColumnInfo.Some?
    ensures var elementInfo := info.columnType.arrayColumnInfo.value;
      && (|datum.arrayValue| == 0 ==> ParseDatum(info, datum) == Failure(SequenceContainsNoElements))
      && (|datum.arrayValue| > 0 && AllDecode(elementInfo, datum.arrayValue) ==>
            ParseDatum(info, datum)
              == Success(NameText(info.name) + "=[" + Join(",", DecodedItems(elementInfo, datum.arrayValue)) + "]"))
    ensures var elementInfo := info.columnType.arrayColumnInfo.value;
      ParseDatum(info, datum).Success? <==> |datum.arrayValue| > 0 && AllDecode(elementInfo, datum.arrayValue)
    ensures var elementInfo := info.columnType.arrayColumnInfo.value;
      ParseDatum(info, datum).Failure? ==> ParseDatum(info, datum).error == ParseArray(elementInfo, datum.arrayValue).error
    ensures ParseDatum(info, datum) == ParseDatum(info.(columnType := info.columnType.(rowColumnInfo := rowInfo)), datum)
  {
    var elementInfo := info.columnType.arrayColumnInfo.value;
    ArrayRendering(elementInfo, datum.arrayValue);
    if |datum.arrayValue| > 0 && AllDecode(elementInfo, datum.arrayValue) {
      var items := Join(",", DecodedItems(elementInfo, datum.arrayValue));
      assert NameText(info.name) + "=" + ("[" + items + "]") == NameText(info.name) + "=[" + items + "]";
    }
  }

  /** A column whose type is a non-empty row (no time series, no array) renders
      as the nested row alone: the column's own name and scalar text play no
      part. */
  lemma RowCell(info: ColumnInfo, datum: Datum, name: Option<string>, scalar: string)
    requires !datum.nullValue
    requires info.columnType.timeSeriesMeasureValueColumnInfo.None? && info.columnType.arrayColumnInfo.None?
    requires info.columnType.rowColumnInfo.Some? && |info.columnType.rowColumnInfo.value| > 0
    ensures ParseDatum(info, datum) == ParseRow(info.columnType.rowColumnInfo.value, datum.rowValue)
    ensures ParseDatum(info, datum) == ParseDatum(info.(name := name), datum.(scalarValue := scalar))
  {
  }

  /** A column with no container part set, or with an empty row schema,
      renders as `name=text`, or the bare text when the column has no name. */
  lemma ScalarCell(info: ColumnInfo, datum: Datum)
    requires !datum.nullValue
    requires info.columnType.timeSeriesMeasureValueColumnInfo.None? && info.columnType.arrayColumnInfo.None?
    requires info.columnType.rowColumnInfo.None? || info.columnType.rowColumnInfo == Some([])
    ensures info.name.Some? ==> ParseDatum(info, datum) == Success(info.name.value + "=" + datum.scalarValue)
    ensures info.name.None? ==> ParseDatum(info, datum) == Success(datum.scalarValue)
  {
    assert "" + datum.scalarValue == datum.scalarValue;
  }

  /** An empty row schema is the same as none at all, for every column and datum. */
  lemma EmptyRowSchemaIsNoRowSchema(info: ColumnInfo, datum: Datum)
    ensures ParseDatum(info.(columnType := info.columnType.(rowColumnInfo := Some([]))), datum)
         == ParseDatum(info.(columnType := info.columnType.(rowColumnInfo := None)), datum)
  {
  }
}
