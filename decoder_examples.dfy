/** Worked examples of the canonical text, each derived from the general
    properties of the decoder. Each example receives its column and datum as
    parameters fixed by `requires x == <literal>`: this keeps the verifier from
    unfolding the decoder on constants, which would be very slow. */
module DecoderExamples {
  import opened Wrappers
  import opened Text
  import opened QueryModel
  import opened Decoder
  import opened DecoderProperties

  /** Two named scalar columns: `{species=Owl,count=3}`. */
  lemma ScalarRowExample(columns: seq<ColumnInfo>, data: seq<Datum>)
    requires columns == [ColumnInfo(Some("species"), ScalarType()), ColumnInfo(Some("count"), ScalarType())]
    requires data == [Scalar("Owl"), Scalar("3")]
    ensures ParseRow(columns, Row(data)) == Success("{species=Owl,count=3}")
  {
    assert ParseScalarType(columns[0], data[0]) == "species=Owl";
    assert ParseScalarType(columns[1], data[1]) == "count=3";
    RowRendering(columns, Row(data));
    assert DecodedCellsFrom(columns, data, 0) == ["species=Owl", "count=3"];
    assert Join(",", ["species=Owl", "count=3"]) == "species=Owl,count=3";
    assert "{" + "species=Owl,count=3" + "}" == "{species=Owl,count=3}";
  }

  /** A nested row drops its column's name: `addr` does not appear. */
  lemma NestedRowDropsNameExample(fields: seq<ColumnInfo>, addr: Datum)
    requires fields == [ColumnInfo(Some("street"), ScalarType()), ColumnInfo(Some("zip"), ScalarType())]
    requires addr == Datum("", [], [], Row([Scalar("Main"), Scalar("12345")]), false)
    ensures ParseDatum(ColumnInfo(Some("addr"), ColumnType(None, Some(fields), None)), addr)
         == Success("{street=Main,zip=12345}")
  {
    var data := addr.rowValue.data;
    assert ParseScalarType(fields[0], data[0]) == "street=Main";
    assert ParseScalarType(fields[1], data[1]) == "zip=12345";
    RowRendering(fields, Row(data));
    assert DecodedCellsFrom(fields, data, 0) == ["street=Main", "zip=12345"];
    assert Join(",", ["street=Main", "zip=12345"]) == "street=Main,zip=12345";
    assert "{" + "street=Main,zip=12345" + "}" == "{street=Main,zip=12345}";
    RowCell(ColumnInfo(Some("addr"), ColumnType(None, Some(fields), None)), addr, None, "");
  }

  /** An array keeps its column's name; its unnamed items are bare text. */
  lemma ArrayKeepsNameExample(element: ColumnInfo, items: Datum)
    requires element == ColumnInfo(None, ScalarType())
    requires items == Datum("", [], [Scalar("a"), Scalar("b")], Row([]), false)
    ensures ParseDatum(ColumnInfo(Some("tags"), ColumnType(Some(element), None, None)), items) == Success("tags=[a,b]")
  {
    var values := items.arrayValue;
    assert ParseScalarType(element, values[0]) == "a";
    assert ParseScalarType(element, values[1]) == "b";
    assert AllDecode(element, values);
    assert DecodedItems(element, values) == ["a", "b"];
    assert Join(",", ["a", "b"]) == "a,b";
    ArrayCell(ColumnInfo(Some("tags"), ColumnType(Some(element), None, None)), items, None);
    assert "tags" + "=[" + "a,b" + "]" == "tags=[a,b]";
  }

  /** A null item of an unnamed element column keeps its `=`. */
  lemma UnnamedNullItemExample(element: ColumnInfo, items: Datum)
    requires element == ColumnInfo(None, ScalarType())
    requires items == Datum("", [], [Scalar("1"), Null()], Row([]), false)
    ensures ParseDatum(ColumnInfo(Some("xs"), ColumnType(Some(element), None, None)), items) == Success("xs=[1,=NULL]")
  {
    var values := items.arrayValue;
    assert ParseScalarType(element, values[0]) == "1";
    NullCell(element, values[1]);
    assert AllDecode(element, values);
    assert DecodedItems(element, values) == ["1", "=NULL"];
    assert Join(",", ["1", "=NULL"]) == "1,=NULL";
    ArrayCell(ColumnInfo(Some("xs"), ColumnType(Some(element), None, None)), items, None);
    assert "xs" + "=[" + "1,=NULL" + "]" == "xs=[1,=NULL]";
  }

  /** A time series drops its column's name; each value is read against the
      measure-value column, here named `v`. The expected text is written in
      two halves, split after the first point. */
  lemma TimeSeriesExample(info: ColumnInfo, series: Datum)
    requires info == ColumnInfo(Some("measure"), ColumnType(None, None, Some(ColumnInfo(Some("v"), ScalarType()))))
    requires series == Datum("", [TimeSeriesDataPoint("t1", Scalar("5")), TimeSeriesDataPoint("t2", Scalar("7"))],
                             [], Row([]), false)
    ensures ParseDatum(info, series) == Success("[{time=t1, value=v=5}," + "{time=t2, value=v=7}]")
  {
    TimeSeriesExamplePoints(info, series);
    var first, second := PointText("t1", "v=5"), PointText("t2", "v=7");
    assert first == "{time=t1, value=v=5}";
    assert second == "{time=t2, value=v=7}";
    SeriesTextExample(first, second);
  }

  /** The step of `TimeSeriesExample` that decodes the two points. */
  lemma TimeSeriesExamplePoints(info: ColumnInfo, series: Datum)
    requires info == ColumnInfo(Some("measure"), ColumnType(None, None, Some(ColumnInfo(Some("v"), ScalarType()))))
    requires series == Datum("", [TimeSeriesDataPoint("t1", Scalar("5")), TimeSeriesDataPoint("t2", Scalar("7"))],
                             [], Row([]), false)
    ensures ParseDatum(info, series) == Success("[" + (PointText("t1", "v=5") + "," + PointText("t2", "v=7")) + "]")
  {
    var valueInfo := info.columnType.timeSeriesMeasureValueColumnInfo.value;
    var points := series.timeSeriesValue;
    var first, second := PointText("t1", "v=5"), PointText("t2", "v=7");
    assert AllPointsDecode(valueInfo, points) && DecodedPoints(valueInfo, points) == [first, second] by {
      assert ParseScalarType(valueInfo, points[0].value) == "v=5";
      assert ParseScalarType(valueInfo, points[1].value) == "v=7";
    }
    assert Join(",", [first, second]) == first + "," + second by {
      assert [first, second][1..] == [second];
    }
    TimeSeriesRendering(info, series);
    TimeSeriesCell(info, series, None, None, None);
  }

  /** The bracketed series text of the two points, split after the first. */
  lemma SeriesTextExample(first: string, second: string)
    requires first == "{time=t1, value=v=5}" && second == "{time=t2, value=v=7}"
    ensures "[" + (first + "," + second) + "]" == "[{time=t1, value=v=5}," + "{time=t2, value=v=7}]"
  {
    assert "[" + (first + "," + second) + "]" == ("[" + first + ",") + (second + "]");
    assert "[" + first + "," == "[{time=t1, value=v=5},";
    assert second + "]" == "{time=t2, value=v=7}]";
  }

  /** An empty array is an error, not `tags=[]`. */
  lemma EmptyArrayExample()
    ensures var items := Datum("", [], [], Row([]), false);
      ParseDatum(ColumnInfo(Some("tags"), ColumnType(Some(ColumnInfo(None, ScalarType())), None, None)), items)
        == Failure(SequenceContainsNoElements)
  {
  }
}
