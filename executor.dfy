/** The query side: decoding every row of a page, and draining a query page
    by page by following continuation tokens. The service is a sequence of
    pages: the k-th request is answered with `pages[k]`. */
module Executor {
  import opened Wrappers
  import opened Text
  import opened QueryModel
  import Decoder
  import opened DecoderProperties
  import OutputShape

  // ---------------------------------------------------------------------------
  // Specification functions.

  /** Two outcomes in evaluation order: the first failure wins, otherwise the
      outputs are concatenated. */
  function Then(first: Result<seq<string>, DecodeError>, second: Result<seq<string>, DecodeError>): Result<seq<string>, DecodeError>
  {
    if first.Failure? then first
    else if second.Failure? then second
    else Success(first.value + second.value)
  }

  /** One text per row, in row order, each row read against the page's schema. */
  function DecodeRows(columnInfo: seq<ColumnInfo>, rows: seq<Row>): Result<seq<string>, DecodeError>
  {
    if |rows| == 0 then Success([])
    else
      var head := match Decoder.ParseRow(columnInfo, rows[0])
        case Failure(e) => Failure(e)
        case Success(text) => Success([text]);
      Then(head, DecodeRows(columnInfo, rows[1..]))
  }

  /** The decoded rows of one page. */
  function DecodePage(page: Page): Result<seq<string>, DecodeError>
  {
    DecodeRows(page.columnInfo, page.rows)
  }

  /** The decoded rows of several pages, page after page. */
  function DecodePages(pages: seq<Page>): Result<seq<string>, DecodeError>
  {
    if |pages| == 0 then Success([])
    else Then(DecodePage(pages[0]), DecodePages(pages[1..]))
  }

  /** Some page of the service ends the result (has no continuation token). */
  predicate Ends(pages: seq<Page>)
  {
    exists i :: 0 <= i < |pages| && pages[i].nextToken.None?
  }

  /** The index of the first page without a continuation token: the last page
      the query reads. */
  function LastPage(pages: seq<Page>): (n: nat)
    requires Ends(pages)
    ensures n < |pages| && pages[n].nextToken.None?
    ensures forall i :: 0 <= i < n ==> pages[i].nextToken.Some?
  {
    if pages[0].nextToken.None? then 0
    else
      var i :| 0 <= i < |pages| && pages[i].nextToken.None?;
      assert pages[1..][i - 1] == pages[i];
      1 + LastPage(pages[1..])
  }

  /** The query stops at this page: it has no continuation token, or it fails
      to decode and the exception leaves the loop. */
  predicate Halts(page: Page)
  {
    page.nextToken.None? || DecodePage(page).Failure?
  }

  /** Some page of the service stops the query. */
  predicate Stops(pages: seq<Page>)
  {
    exists i :: 0 <= i < |pages| && Halts(pages[i])
  }

  /** The index of the first page that stops the query: the last page it
      reads. */
  function StopPage(pages: seq<Page>): (n: nat)
    requires Stops(pages)
    ensures n < |pages| && Halts(pages[n])
    ensures forall i :: 0 <= i < n ==> pages[i].nextToken.Some? && DecodePage(pages[i]).Success?
  {
    if Halts(pages[0]) then 0
    else
      var i :| 0 <= i < |pages| && Halts(pages[i]);
      assert pages[1..][i - 1] == pages[i];
      1 + StopPage(pages[1..])
  }

  /** The total number of rows of some pages. */
  function RowCount(pages: seq<Page>): nat
  {
    if |pages| == 0 then 0 else |pages[0].rows| + RowCount(pages[1..])
  }

  // ---------------------------------------------------------------------------
  // Lemmas about them.

  lemma ThenAssociative(a: Result<seq<string>, DecodeError>, b: Result<seq<string>, DecodeError>,
                        c: Result<seq<string>, DecodeError>)
    ensures Then(Then(a, b), c) == Then(a, Then(b, c))
  {
    if a.Success? && b.Success? && c.Success? {
      assert (a.value + b.value) + c.value == a.value + (b.value + c.value);
    }
  }

  /** Decoding rows one more row at a time, as the loop does, agrees with the
      definition. */
  lemma {:induction false} DecodeRowsSnoc(columnInfo: seq<ColumnInfo>, rows: seq<Row>, row: Row)
    ensures DecodeRows(columnInfo, rows + [row])
         == Then(DecodeRows(columnInfo, rows), DecodeRows(columnInfo, [row]))
  {
    if |rows| == 0 {
      assert rows + [row] == [row];
      var single := DecodeRows(columnInfo, [row]);
      if single.Success? {
        assert [] + single.value == single.value;
      }
    } else {
      assert (rows + [row])[1..] == rows[1..] + [row];
      DecodeRowsSnoc(columnInfo, rows[1..], row);
      var head := match Decoder.ParseRow(columnInfo, rows[0])
        case Failure(e) => Failure(e)
        case Success(text) => Success([text]);
      ThenAssociative(head, DecodeRows(columnInfo, rows[1..]), DecodeRows(columnInfo, [row]));
    }
  }

  /** A page decodes when each of its rows does, to exactly one text per row,
      in row order. */
  lemma {:induction false} DecodeRowsPointwise(columnInfo: seq<ColumnInfo>, rows: seq<Row>)
    ensures DecodeRows(columnInfo, rows).Success?
        <==> forall i :: 0 <= i < |rows| ==> Decoder.ParseRow(columnInfo, rows[i]).Success?
    ensures DecodeRows(columnInfo, rows).Success? ==>
      var texts := DecodeRows(columnInfo, rows).value;
      |texts| == |rows| && forall i :: 0 <= i < |rows| ==> Decoder.ParseRow(columnInfo, rows[i]) == Success(texts[i])
  {
    if |rows| > 0 {
      DecodeRowsPointwise(columnInfo, rows[1..]);
      forall i | 1 <= i < |rows| ensures rows[i] == rows[1..][i - 1] { }
    }
  }

  /** Decoding pages one more page at a time, as the paging loop does, agrees
      with the definition. */
  lemma {:induction false} DecodePagesSnoc(pages: seq<Page>, page: Page)
    ensures DecodePages(pages + [page]) == Then(DecodePages(pages), DecodePage(page))
  {
    if |pages| == 0 {
      assert pages + [page] == [page];
      assert [page][1..] == [];
      if DecodePage(page).Success? {
        assert DecodePage(page).value + [] == DecodePage(page).value;
        assert [] + DecodePage(page).value == DecodePage(page).value;
      }
    } else {
      assert (pages + [page])[1..] == pages[1..] + [page];
      DecodePagesSnoc(pages[1..], page);
      ThenAssociative(DecodePage(pages[0]), DecodePages(pages[1..]), DecodePage(page));
    }
  }

  /** Every row of every page is decoded exactly once: the result has one text
      per row of the pages read. */
  lemma {:induction false} DecodePagesRowCount(pages: seq<Page>)
    ensures DecodePages(pages).Success? ==> |DecodePages(pages).value| == RowCount(pages)
  {
    if |pages| > 0 {
      DecodePagesRowCount(pages[1..]);
      DecodeRowsPointwise(pages[0].columnInfo, pages[0].rows);
    }
  }

  // ---------------------------------------------------------------------------
  // The imperative code.

  /** `ParseRow`: fills the list of cell texts with an index loop, then joins
      them in braces. */
  method ParseRow(columnInfo: seq<ColumnInfo>, row: Row) returns (r: Result<string, DecodeError>)
    ensures r == Decoder.ParseRow(columnInfo, row)
  {
    var data := row.data;
    var rowOutput: seq<string> := [];
    for j := 0 to |data|
      invariant j <= |columnInfo| || j == 0
      invariant |rowOutput| == j
      invariant forall i :: 0 <= i < j ==> Decoder.ParseDatum(columnInfo[i], data[i]) == Success(rowOutput[i])
    {
      if j >= |columnInfo| {
        RowMissingColumn(columnInfo, row);
        return Failure(ColumnIndexOutOfRange(j));
      }
      var cell := Decoder.ParseDatum(columnInfo[j], data[j]);
      if cell.Failure? {
        RowFirstFailure(columnInfo, row, j);
        return Failure(cell.error);
      }
      rowOutput := rowOutput + [cell.value];
    }
    RowRendering(columnInfo, row);
    assert rowOutput == DecodedCellsFrom(columnInfo, data, 0);
    r := Success("{" + Join(",", rowOutput) + "}");
  }

  /** `ParseQueryResult`: one text per row of the page, appended in order. */
  method ParseQueryResult(response: Page) returns (r: Result<seq<string>, DecodeError>)
    ensures r == DecodePage(response)
  {
    var columnInfo := response.columnInfo;
    var rows := response.rows;
    var results: seq<string> := [];
    for i := 0 to |rows|
      invariant DecodeRows(columnInfo, rows[..i]) == Success(results)
    {
      var text := ParseRow(columnInfo, rows[i]);
      DecodeRowsSnoc(columnInfo, rows[..i], rows[i]);
      assert rows[..i + 1] == rows[..i] + [rows[i]];
      assert [rows[i]][1..] == [];
      if text.Failure? {
        DecodeRowsTail(columnInfo, rows, i + 1);
        return Failure(text.error);
      }
      assert DecodeRows(columnInfo, [rows[i]]) == Success([text.value] + []);
      assert [text.value] + [] == [text.value];
      results := results + [text.value];
    }
    assert rows[..|rows|] == rows;
    r := Success(results);
  }

  /** A failure in the first `i` rows is the failure of the whole page. */
  lemma {:induction false} DecodeRowsTail(columnInfo: seq<ColumnInfo>, rows: seq<Row>, i: nat)
    requires i <= |rows| && DecodeRows(columnInfo, rows[..i]).Failure?
    ensures DecodeRows(columnInfo, rows) == DecodeRows(columnInfo, rows[..i])
    decreases |rows| - i
  {
    if i < |rows| {
      DecodeRowsSnoc(columnInfo, rows[..i], rows[i]);
      assert rows[..i + 1] == rows[..i] + [rows[i]];
      DecodeRowsTail(columnInfo, rows, i + 1);
    } else {
      assert rows[..i] == rows;
    }
  }

  /** `QueryRecordsAsync`: decode the page just received and append its rows;
      stop at a page without a continuation token, otherwise ask for the next
      page with that token. Also returns the requests sent, in order. */
  method QueryRecords(query: string, pages: seq<Page>) returns (result: Result<seq<string>, DecodeError>, requests: seq<QueryRequest>)
    requires Stops(pages)
    ensures |requests| == StopPage(pages) + 1
    ensures requests[0] == QueryRequest(query, None)
    ensures forall k :: 1 <= k < |requests| ==>
      pages[k - 1].nextToken.Some? && requests[k] == QueryRequest(query, pages[k - 1].nextToken)
    ensures result == DecodePages(pages[..StopPage(pages) + 1])
    ensures result.Success? <==> DecodePage(pages[StopPage(pages)]).Success?
    ensures result.Success? ==> pages[StopPage(pages)].nextToken.None?
    ensures result.Failure? ==> DecodePage(pages[StopPage(pages)]) == Failure(result.error)
    ensures Ends(pages) ==> result == DecodePages(pages[..LastPage(pages) + 1])
  {
    ghost var stop := StopPage(pages);
    var queryRequest := QueryRequest(query, None);
    requests := [queryRequest];
    var queryResponse := pages[0];
    var results: seq<string> := [];
    var i := 0;
    while true
      invariant i <= stop && queryResponse == pages[i] && |requests| == i + 1
      invariant requests[0] == QueryRequest(query, None)
      invariant forall k :: 1 <= k < |requests| ==>
        pages[k - 1].nextToken.Some? && requests[k] == QueryRequest(query, pages[k - 1].nextToken)
      invariant queryRequest == requests[i]
      invariant DecodePages(pages[..i]) == Success(results)
      decreases stop - i
    {
      var parsed := ParseQueryResult(queryResponse);
      DecodePagesSnoc(pages[..i], pages[i]);
      assert pages[..i + 1] == pages[..i] + [pages[i]];
      if parsed.Failure? {
        assert i == stop;
        result := Failure(parsed.error);
        break;
      }
      results := results + parsed.value;
      if queryResponse.nextToken.None? {
        assert i == stop;
        result := Success(results);
        break;
      }
      assert i < stop;
      queryRequest := queryRequest.(nextToken := queryResponse.nextToken);
      i := i + 1;
      queryResponse := pages[i];
      requests := requests + [queryRequest];
    }
    if Ends(pages) {
      StopWithinLastPage(pages);
    }
  }

  /** A query over a service that ends stops at or before its last page, with
      the same outcome as decoding every page up to the last. */
  lemma StopWithinLastPage(pages: seq<Page>)
    requires Ends(pages)
    ensures Stops(pages) && StopPage(pages) <= LastPage(pages)
    ensures DecodePages(pages[..StopPage(pages) + 1]) == DecodePages(pages[..LastPage(pages) + 1])
  {
    var last := LastPage(pages);
    assert Halts(pages[last]);
    var stop := StopPage(pages);
    if stop < last {
      var upTo := pages[..last + 1];
      assert DecodePage(pages[stop]).Failure?;
      assert upTo[..stop + 1] == pages[..stop] + [pages[stop]] by {
        assert upTo[..stop + 1] == pages[..stop + 1];
      }
      DecodePagesSnoc(pages[..stop], pages[stop]);
      DecodePagesTail(upTo, stop + 1);
      assert upTo[..stop + 1] == pages[..stop + 1];
    }
  }

  /** A failure in the first `i` pages is the failure of all of them. */
  lemma {:induction false} DecodePagesTail(pages: seq<Page>, i: nat)
    requires i <= |pages| && DecodePages(pages[..i]).Failure?
    ensures DecodePages(pages) == DecodePages(pages[..i])
    decreases |pages| - i
  {
    if i < |pages| {
      DecodePagesSnoc(pages[..i], pages[i]);
      assert pages[..i + 1] == pages[..i] + [pages[i]];
      DecodePagesTail(pages, i + 1);
    } else {
      assert pages[..i] == pages;
    }
  }

  /** Two pages, the first with two rows and token `t1`, the second with one
      row and no token: the last page is the second, and the pages up to it
      decode to the three row texts in page-then-row order. */
  lemma TwoPageExample(first: Page, second: Page)
    requires |first.rows| == 2 && first.nextToken == Some("t1")
    requires |second.rows| == 1 && second.nextToken.None?
    requires Decoder.ParseRow(first.columnInfo, first.rows[0]).Success?
    requires Decoder.ParseRow(first.columnInfo, first.rows[1]).Success?
    requires Decoder.ParseRow(second.columnInfo, second.rows[0]).Success?
    ensures Ends([first, second]) && LastPage([first, second]) == 1
    ensures DecodePages([first, second][..LastPage([first, second]) + 1])
         == Success([Decoder.ParseRow(first.columnInfo, first.rows[0]).value,
                     Decoder.ParseRow(first.columnInfo, first.rows[1]).value,
                     Decoder.ParseRow(second.columnInfo, second.rows[0]).value])
  {
    var pages := [first, second];
    assert pages[1].nextToken.None?;
    assert pages[..2] == pages;
    DecodeRowsPointwise(first.columnInfo, first.rows);
    DecodeRowsPointwise(second.columnInfo, second.rows);
    var a := Decoder.ParseRow(first.columnInfo, first.rows[0]).value;
    var b := Decoder.ParseRow(first.columnInfo, first.rows[1]).value;
    var c := Decoder.ParseRow(second.columnInfo, second.rows[0]).value;
    assert DecodePage(first) == Success([a, b]) by {
      forall i | 0 <= i < |first.rows| ensures Decoder.ParseRow(first.columnInfo, first.rows[i]).Success? {
        assert i == 0 || i == 1;
      }
      assert DecodeRows(first.columnInfo, first.rows).Success?;
      var texts := DecodeRows(first.columnInfo, first.rows).value;
      assert |texts| == 2;
      assert Decoder.ParseRow(first.columnInfo, first.rows[0]) == Success(texts[0]);
      assert Decoder.ParseRow(first.columnInfo, first.rows[1]) == Success(texts[1]);
      assert texts == [a, b];
    }
    assert DecodePage(second) == Success([c]) by {
      forall i | 0 <= i < |second.rows| ensures Decoder.ParseRow(second.columnInfo, second.rows[i]).Success? {
        assert i == 0;
      }
      assert DecodeRows(second.columnInfo, second.rows).Success?;
      var texts := DecodeRows(second.columnInfo, second.rows).value;
      assert |texts| == 1;
      assert Decoder.ParseRow(second.columnInfo, second.rows[0]) == Success(texts[0]);
      assert texts == [c];
    }
    assert [first] + [second] == pages;
    DecodePagesSnoc([first], second);
    assert DecodePages([first]) == Success([a, b]) by {
      assert [first][1..] == [];
      assert [a, b] + [] == [a, b];
    }
    assert [a, b] + [c] == [a, b, c];
  }

  /** The query over those two pages sends two requests, the second carrying
      `t1`, and returns the three row texts in page-then-row order. */
  method TwoPageQuery(first: Page, second: Page) returns (result: Result<seq<string>, DecodeError>, requests: seq<QueryRequest>)
    requires |first.rows| == 2 && first.nextToken == Some("t1")
    requires |second.rows| == 1 && second.nextToken.None?
    requires Decoder.ParseRow(first.columnInfo, first.rows[0]).Success?
    requires Decoder.ParseRow(first.columnInfo, first.rows[1]).Success?
    requires Decoder.ParseRow(second.columnInfo, second.rows[0]).Success?
    ensures requests == [QueryRequest("q", None), QueryRequest("q", Some("t1"))]
    ensures result == Success([Decoder.ParseRow(first.columnInfo, first.rows[0]).value,
                               Decoder.ParseRow(first.columnInfo, first.rows[1]).value,
                               Decoder.ParseRow(second.columnInfo, second.rows[0]).value])
  {
    TwoPageExample(first, second);
    var pages := [first, second];
    StopWithinLastPage(pages);
    result, requests := QueryRecords("q", pages);
  }

  /** Every row a query returns has balanced brackets and braces, provided no
      name, scalar text or timestamp the decoder prints holds one. */
  lemma {:induction false} PagesBalanced(pages: seq<Page>)
    requires forall p, i :: 0 <= p < |pages| && 0 <= i < |pages[p].rows| ==>
      OutputShape.PlainCells(pages[p].columnInfo, pages[p].rows[i].data)
    ensures DecodePages(pages).Success? ==>
      forall k :: 0 <= k < |DecodePages(pages).value| ==> OutputShape.Balanced(DecodePages(pages).value[k])
  {
    if |pages| > 0 {
      var page := pages[0];
      DecodeRowsPointwise(page.columnInfo, page.rows);
      forall i | 0 <= i < |page.rows| {
        OutputShape.RowBalanced(page.columnInfo, page.rows[i]);
      }
      PagesBalanced(pages[1..]);
    }
  }
}
