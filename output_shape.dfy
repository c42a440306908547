/** The shape of the canonical text: when no name, scalar text or timestamp
    contains a bracket or brace itself, every decoded cell and row has its
    square brackets balanced and its braces balanced. */
module OutputShape {
  import opened Wrappers
  import opened Text
  import opened QueryModel
  import opened Decoder

  /** How a character moves the nesting depth of the pair `open`/`close`. */
  function Delta(ch: char, open: char, close: char): int
  {
    if ch == open then 1 else if ch == close then -1 else 0
  }

  /** The nesting depth of the pair `open`/`close` after reading `s`. */
  function Depth(s: string, open: char, close: char): int
  {
    if |s| == 0 then 0 else Depth(s[..|s| - 1], open, close) + Delta(s[|s| - 1], open, close)
  }

  /** `s` closes every pair it opens and never closes one it has not opened. */
  ghost predicate BalancedPair(s: string, open: char, close: char)
  {
    Depth(s, open, close) == 0 && forall k :: 0 <= k <= |s| ==> Depth(s[..k], open, close) >= 0
  }

  /** Both kinds of bracket the decoder writes are balanced in `s`. */
  ghost predicate Balanced(s: string)
  {
    BalancedPair(s, '[', ']') && BalancedPair(s, '{', '}')
  }

  /** `s` holds no bracket or brace. */
  ghost predicate Plain(s: string)
  {
    forall i :: 0 <= i < |s| ==> s[i] != '[' && s[i] != ']' && s[i] != '{' && s[i] != '}'
  }

  /** No text the decoder prints for `datum` holds a bracket or brace. The
      tests follow the decoder's dispatch: the column's name for a null, an
      array or a scalar; every timestamp and value of a time series; every item
      of an array; every cell of a non-empty row; the scalar text only for a
      scalar. Each part of the datum is paired with the column it is read
      against. */
  ghost predicate PlainCell(info: ColumnInfo, datum: Datum)
    decreases datum
  {
    var columnType := info.columnType;
    var plainName := info.name.Some? ==> Plain(info.name.value);
    if datum.nullValue then
      plainName
    else if columnType.timeSeriesMeasureValueColumnInfo.Some? then
      forall i :: 0 <= i < |datum.timeSeriesValue| ==>
        Plain(datum.timeSeriesValue[i].time)
        && PlainCell(columnType.timeSeriesMeasureValueColumnInfo.value, datum.timeSeriesValue[i].value)
    else if columnType.arrayColumnInfo.Some? then
      plainName
      && forall i :: 0 <= i < |datum.arrayValue| ==> PlainCell(columnType.arrayColumnInfo.value, datum.arrayValue[i])
    else if columnType.rowColumnInfo.Some? && |columnType.rowColumnInfo.value| > 0 then
      PlainCells(columnType.rowColumnInfo.value, datum.rowValue.data)
    else
      plainName && Plain(datum.scalarValue)
  }

  /** Every cell of a row that has a column is plain against it. */
  ghost predicate PlainCells(columnInfo: seq<ColumnInfo>, data: seq<Datum>)
    decreases data
  {
    forall i :: 0 <= i < |data| && i < |columnInfo| ==> PlainCell(columnInfo[i], data[i])
  }

  // ---------------------------------------------------------------------------
  // Depth arithmetic.

  lemma {:induction false} DepthConcat(a: string, b: string, open: char, close: char)
    ensures Depth(a + b, open, close) == Depth(a, open, close) + Depth(b, open, close)
    decreases |b|
  {
    if |b| > 0 {
      assert (a + b)[..|a + b| - 1] == a + b[..|b| - 1];
      DepthConcat(a, b[..|b| - 1], open, close);
    } else {
      assert a + b == a;
    }
  }

  lemma {:induction false} PlainDepth(s: string, open: char, close: char)
    requires Plain(s) && open in "[{" && close in "]}"
    ensures Depth(s, open, close) == 0
    decreases |s|
  {
    if |s| > 0 {
      PlainDepth(s[..|s| - 1], open, close);
    }
  }

  lemma PlainIsBalanced(s: string)
    requires Plain(s)
    ensures Balanced(s)
  {
    forall k | 0 <= k <= |s| ensures Depth(s[..k], '[', ']') == 0 && Depth(s[..k], '{', '}') == 0 {
      PlainDepth(s[..k], '[', ']');
      PlainDepth(s[..k], '{', '}');
    }
    assert s[..|s|] == s;
  }

  lemma {:induction false} ConcatBalancedPair(a: string, b: string, open: char, close: char)
    requires BalancedPair(a, open, close) && BalancedPair(b, open, close)
    ensures BalancedPair(a + b, open, close)
  {
    DepthConcat(a, b, open, close);
    forall k | 0 <= k <= |a + b| ensures Depth((a + b)[..k], open, close) >= 0 {
      if k <= |a| {
        assert (a + b)[..k] == a[..k];
      } else {
        assert (a + b)[..k] == a + b[..k - |a|];
        DepthConcat(a, b[..k - |a|], open, close);
        assert a[..|a|] == a;
      }
    }
  }

  lemma ConcatBalanced(a: string, b: string)
    requires Balanced(a) && Balanced(b)
    ensures Balanced(a + b)
  {
    ConcatBalancedPair(a, b, '[', ']');
    ConcatBalancedPair(a, b, '{', '}');
  }

  lemma {:induction false} WrapBalancedPair(s: string, first: char, last: char, open: char, close: char)
    requires BalancedPair(s, open, close)
    requires Delta(first, open, close) >= 0 && Delta(first, open, close) + Delta(last, open, close) == 0
    ensures BalancedPair([first] + s + [last], open, close)
  {
    var w := [first] + s + [last];
    assert Depth([first], open, close) == Delta(first, open, close) by {
      assert [first][..0] == [];
    }
    assert Depth([last], open, close) == Delta(last, open, close) by {
      assert [last][..0] == [];
    }
    DepthConcat([first] + s, [last], open, close);
    DepthConcat([first], s, open, close);
    forall k | 0 <= k <= |w| ensures Depth(w[..k], open, close) >= 0 {
      if 1 <= k <= |s| + 1 {
        assert w[..k] == [first] + s[..k - 1];
        DepthConcat([first], s[..k - 1], open, close);
      } else if k == |w| {
        assert w[..k] == w;
      }
    }
  }

  /** Wrapping a balanced text in one pair of brackets or braces keeps it balanced. */
  lemma WrapBalanced(s: string, open: char, close: char)
    requires Balanced(s)
    requires (open == '[' && close == ']') || (open == '{' && close == '}')
    ensures Balanced([open] + s + [close])
  {
    WrapBalancedPair(s, open, close, '[', ']');
    WrapBalancedPair(s, open, close, '{', '}');
  }

  /** Parts that are each balanced join, with a plain separator, into a
      balanced text. */
  lemma {:induction false} JoinBalanced(parts: seq<string>)
    requires forall k :: 0 <= k < |parts| ==> Balanced(parts[k])
    ensures Balanced(Join(",", parts))
  {
    if |parts| == 0 {
      PlainIsBalanced("");
    } else if |parts| > 1 {
      JoinBalanced(parts[1..]);
      PlainIsBalanced(",");
      ConcatBalanced(parts[0], ",");
      ConcatBalanced(parts[0] + ",", Join(",", parts[1..]));
    }
  }

  /** The `Aggregate` of balanced parts, when there is one, is balanced. */
  lemma AggregateBalanced(parts: seq<string>)
    requires forall k :: 0 <= k < |parts| ==> Balanced(parts[k])
    ensures Aggregate(parts).Some? ==> Balanced(Aggregate(parts).value)
  {
    AggregateIsJoin(parts);
    JoinBalanced(parts);
  }

  /** A plain prefix followed by a balanced text is balanced. */
  lemma PlainThenBalanced(prefix: string, s: string)
    requires Plain(prefix) && Balanced(s)
    ensures Balanced(prefix + s)
  {
    PlainIsBalanced(prefix);
    ConcatBalanced(prefix, s);
  }

  lemma PlainConcat(a: string, b: string)
    requires Plain(a) && Plain(b)
    ensures Plain(a + b)
  {
    forall i | 0 <= i < |a + b| ensures (a + b)[i] != '[' && (a + b)[i] != ']' && (a + b)[i] != '{' && (a + b)[i] != '}' {
      if i >= |a| {
        assert (a + b)[i] == b[i - |a|];
      }
    }
  }

  /** A decoded time-series point is balanced when its time is plain and its
      value is balanced. */
  lemma PointTextBalanced(time: string, value: string)
    requires Plain(time) && Balanced(value)
    ensures Balanced(PointText(time, value))
  {
    var inner := "time=" + time + ", value=" + value;
    PlainConcat("time=", time);
    PlainConcat("time=" + time, ", value=");
    PlainThenBalanced("time=" + time + ", value=", value);
    WrapBalanced(inner, '{', '}');
    assert PointText(time, value) == ['{'] + inner + ['}'];
  }

  /** Every cell whose printed names, texts and times are plain renders, when
      it decodes, with balanced brackets and balanced braces. */
  lemma {:induction false} DatumBalanced(info: ColumnInfo, datum: Datum)
    requires PlainCell(info, datum)
    ensures ParseDatum(info, datum).Success? ==> Balanced(ParseDatum(info, datum).value)
    decreases datum, 1
  {
    var columnType := info.columnType;
    var prefix := NameText(info.name) + "=";
    if datum.nullValue {
      PlainConcat(NameText(info.name), "=NULL");
      PlainIsBalanced(NameText(info.name) + "=NULL");
    } else if columnType.timeSeriesMeasureValueColumnInfo.Some? {
      var valueInfo := columnType.timeSeriesMeasureValueColumnInfo.value;
      PointsBalanced(valueInfo, datum.timeSeriesValue);
      var points := ParsePoints(valueInfo, datum.timeSeriesValue);
      if points.Success? {
        AggregateBalanced(points.value);
        if Aggregate(points.value).Some? {
          WrapBalanced(Aggregate(points.value).value, '[', ']');
          assert ParseDatum(info, datum) == Success("[" + Aggregate(points.value).value + "]");
          assert ParseDatum(info, datum).value == ['['] + Aggregate(points.value).value + [']'];
        }
      }
    } else if columnType.arrayColumnInfo.Some? {
      var itemInfo := columnType.arrayColumnInfo.value;
      ItemsBalanced(itemInfo, datum.arrayValue);
      var items := ParseItems(itemInfo, datum.arrayValue);
      if items.Success? {
        AggregateBalanced(items.value);
        if Aggregate(items.value).Some? {
          var bracketed := "[" + Aggregate(items.value).value + "]";
          WrapBalanced(Aggregate(items.value).value, '[', ']');
          assert bracketed == ['['] + Aggregate(items.value).value + [']'];
          PlainConcat(NameText(info.name), "=");
          PlainThenBalanced(prefix, bracketed);
          assert ParseArray(itemInfo, datum.arrayValue) == Success(bracketed);
          assert ParseDatum(info, datum).value == prefix + bracketed;
        }
      }
    } else if columnType.rowColumnInfo.Some? && |columnType.rowColumnInfo.value| > 0 {
      RowBalanced(columnType.rowColumnInfo.value, datum.rowValue);
    } else {
      if info.name.Some? {
        PlainConcat(info.name.value, "=");
      }
      PlainConcat(ParseColumnName(info), datum.scalarValue);
      PlainIsBalanced(ParseScalarType(info, datum));
    }
  }

  lemma {:induction false} PointsBalanced(valueInfo: ColumnInfo, points: seq<TimeSeriesDataPoint>)
    requires forall i :: 0 <= i < |points| ==> Plain(points[i].time) && PlainCell(valueInfo, points[i].value)
    ensures ParsePoints(valueInfo, points).Success? ==>
      forall k :: 0 <= k < |ParsePoints(valueInfo, points).value| ==> Balanced(ParsePoints(valueInfo, points).value[k])
    decreases points
  {
    if |points| > 0 {
      DatumBalanced(valueInfo, points[0].value);
      PointsBalanced(valueInfo, points[1..]);
      var value := ParseDatum(valueInfo, points[0].value);
      if value.Success? {
        PointTextBalanced(points[0].time, value.value);
      }
    }
  }

  lemma {:induction false} ItemsBalanced(info: ColumnInfo, items: seq<Datum>)
    requires forall i :: 0 <= i < |items| ==> PlainCell(info, items[i])
    ensures ParseItems(info, items).Success? ==>
      forall k :: 0 <= k < |ParseItems(info, items).value| ==> Balanced(ParseItems(info, items).value[k])
    decreases items, 0
  {
    if |items| > 0 {
      DatumBalanced(info, items[0]);
      ItemsBalanced(info, items[1..]);
    }
  }

  /** Every row the decoder renders from plain names, texts and times has
      balanced brackets and balanced braces. */
  lemma {:induction false} RowBalanced(columnInfo: seq<ColumnInfo>, row: Row)
    requires PlainCells(columnInfo, row.data)
    ensures ParseRow(columnInfo, row).Success? ==> Balanced(ParseRow(columnInfo, row).value)
    decreases row, 1
  {
    CellsBalanced(columnInfo, row.data, 0);
    var cells := ParseCells(columnInfo, row.data, 0);
    if cells.Success? {
      JoinBalanced(cells.value);
      WrapBalanced(Join(",", cells.value), '{', '}');
      assert ParseRow(columnInfo, row).value == ['{'] + Join(",", cells.value) + ['}'];
    }
  }

  lemma {:induction false} CellsBalanced(columnInfo: seq<ColumnInfo>, data: seq<Datum>, j: nat)
    requires j <= |data| && PlainCells(columnInfo, data)
    ensures ParseCells(columnInfo, data, j).Success? ==>
      forall k :: 0 <= k < |ParseCells(columnInfo, data, j).value| ==> Balanced(ParseCells(columnInfo, data, j).value[k])
    decreases data, |data| - j
  {
    if j < |data| && j < |columnInfo| {
      DatumBalanced(columnInfo[j], data[j]);
      CellsBalanced(columnInfo, data, j + 1);
    }
  }
}
