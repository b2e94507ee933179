/** The export in the script's main block: a header row, then for every
    market in the response and every point of its history, in order, one row
    `[date, sym, ecn, margin, open, high, low, close, raw_symbol]` with
    `(sym, ecn, margin)` the classification of the market's ticker.
    The rows are stated for a classifier `classify` given as a parameter;
    the export itself passes `ParseSymbol`. */
module Export {
  import opened Strings
  import opened Symbols

  /** A CSV cell: text, or a number taken from the response. */
  datatype Cell = Text(text: String) | Number(value: real)

  type Row = seq<Cell>

  /** One point of a market's history: time `t` in Unix seconds and the
      open, high, low and close of the predicted funding rate. */
  datatype Point = Point(t: int, o: real, h: real, l: real, c: real)

  /** One market of the response: its ticker and its history. */
  datatype Market = Market(symbol: String, history: seq<Point>)

  const Header: Row :=
    [Text("date"), Text("sym"), Text("ecn"), Text("margin"),
     Text("open"), Text("high"), Text("low"), Text("close"), Text("raw_symbol")]

  /** The row of one point, `p` being the classification of `raw`; `date`
      stands for the local-time formatting of a Unix time. */
  function PointRow(p: Parsed, raw: String, pt: Point, date: int -> String): Row
  {
    [Text(date(pt.t)), Text(p.sym), Text(p.exchange), Text(p.margin),
     Number(pt.o), Number(pt.h), Number(pt.l), Number(pt.c), Text(raw)]
  }

  /** The rows of one market, its ticker classified once. */
  function MarketRows(classify: String -> Parsed, m: Market, date: int -> String): seq<Row>
  {
    var p := classify(m.symbol);
    seq(|m.history|, j requires 0 <= j < |m.history| => PointRow(p, m.symbol, m.history[j], date))
  }

  /** The rows of all markets, in order. */
  function DataRows(classify: String -> Parsed, data: seq<Market>, date: int -> String): seq<Row>
    decreases |data|
  {
    if data == [] then []
    else DataRows(classify, data[..|data| - 1], date) + MarketRows(classify, data[|data| - 1], date)
  }

  /** The whole file. */
  function Table(classify: String -> Parsed, data: seq<Market>, date: int -> String): seq<Row>
  {
    [Header] + DataRows(classify, data, date)
  }

  /** The number of history points over all markets. */
  function TotalPoints(data: seq<Market>): nat
    decreases |data|
  {
    if data == [] then 0
    else TotalPoints(data[..|data| - 1]) + |data[|data| - 1].history|
  }

  /** A data row agrees with the classifier on its own last cell: nine
      cells, the ticker last, its classification in cells 1 to 3 and the
      four numbers in cells 4 to 7. */
  predicate ConsistentRow(classify: String -> Parsed, row: Row)
  {
    |row| == 9 && row[0].Text? && row[8].Text? &&
    (var p := classify(row[8].text);
     row[1] == Text(p.sym) && row[2] == Text(p.exchange) && row[3] == Text(p.margin)) &&
    row[4].Number? && row[5].Number? && row[6].Number? && row[7].Number?
  }

  // ---------------------------------------------------------------------
  // The file

  /** One row per history point, plus the header. */
  lemma {:induction false} TableSize(classify: String -> Parsed, data: seq<Market>, date: int -> String)
    ensures |Table(classify, data, date)| == 1 + TotalPoints(data)
  {
    DataRowsSize(classify, data, date);
  }

  lemma {:induction false} DataRowsSize(classify: String -> Parsed, data: seq<Market>, date: int -> String)
    ensures |DataRows(classify, data, date)| == TotalPoints(data)
    decreases |data|
  {
    if data != [] {
      DataRowsSize(classify, data[..|data| - 1], date);
    }
  }

  /** Point `j` of market `i` is the row right after the header and the
      points of the markets before `i`. */
  lemma {:induction false} RowAt(classify: String -> Parsed, data: seq<Market>, date: int -> String,
                                 i: nat, j: nat)
    requires i < |data| && j < |data[i].history|
    ensures 1 + TotalPoints(data[..i]) + j < |Table(classify, data, date)|
    ensures Table(classify, data, date)[1 + TotalPoints(data[..i]) + j] ==
      PointRow(classify(data[i].symbol), data[i].symbol, data[i].history[j], date)
  {
    DataRowAt(classify, data, date, i, j);
  }

  lemma {:induction false} DataRowAt(classify: String -> Parsed, data: seq<Market>, date: int -> String,
                                     i: nat, j: nat)
    requires i < |data| && j < |data[i].history|
    ensures TotalPoints(data[..i]) + j < |DataRows(classify, data, date)|
    ensures DataRows(classify, data, date)[TotalPoints(data[..i]) + j] ==
      PointRow(classify(data[i].symbol), data[i].symbol, data[i].history[j], date)
    decreases |data|
  {
    var n := |data| - 1;
    var front := data[..n];
    DataRowsSize(classify, front, date);
    DataRowsSize(classify, data, date);
    if i < n {
      assert front[..i] == data[..i];
      DataRowAt(classify, front, date, i, j);
    } else {
      assert data[..i] == front;
    }
  }

  /** Every row after the header agrees with the classifier. */
  lemma {:induction false} TableRowsConsistent(classify: String -> Parsed, data: seq<Market>,
                                               date: int -> String, k: nat)
    requires 1 <= k < |Table(classify, data, date)|
    ensures ConsistentRow(classify, Table(classify, data, date)[k])
  {
    DataRowsConsistent(classify, data, date, k - 1);
  }

  lemma {:induction false} DataRowsConsistent(classify: String -> Parsed, data: seq<Market>,
                                              date: int -> String, k: nat)
    requires k < |DataRows(classify, data, date)|
    ensures ConsistentRow(classify, DataRows(classify, data, date)[k])
    decreases |data|
  {
    var n := |data| - 1;
    var front := DataRows(classify, data[..n], date);
    if k < |front| {
      DataRowsConsistent(classify, data[..n], date, k);
    } else {
      var m := data[n];
      assert DataRows(classify, data, date)[k] == MarketRows(classify, m, date)[k - |front|];
    }
  }

  /** The rows of the first `j + 1` points of a market. */
  lemma MarketRowsPrefix(classify: String -> Parsed, m: Market, date: int -> String, j: nat)
    requires j < |m.history|
    ensures MarketRows(classify, m, date)[..j + 1] ==
      MarketRows(classify, m, date)[..j] + [PointRow(classify(m.symbol), m.symbol, m.history[j], date)]
  {
  }

  /** The rows of the first `i + 1` markets. */
  lemma DataRowsPrefix(classify: String -> Parsed, data: seq<Market>, date: int -> String, i: nat)
    requires i < |data|
    ensures DataRows(classify, data[..i + 1], date) ==
      DataRows(classify, data[..i], date) + MarketRows(classify, data[i], date)
  {
    assert data[..i + 1][..i] == data[..i];
  }

  // ---------------------------------------------------------------------
  // The writer

  /** The output file as the sequence of rows written to it. */
  class CsvFile {
    var rows: seq<Row>

    constructor ()
      ensures rows == []
    {
      rows := [];
    }

    /** Opening with mode "w" truncates the file. */
    method Open()
      modifies this
      ensures rows == []
    {
      rows := [];
    }

    method WriteRow(r: Row)
      modifies this
      ensures rows == old(rows) + [r]
    {
      rows := rows + [r];
    }
  }

  /** The two nested loops of the main block, under classifier `classify`:
      whatever the file held before, it ends up holding exactly the header
      and the rows of `data`. */
  method WriteTable(file: CsvFile, classify: String -> Parsed, data: seq<Market>, date: int -> String)
    modifies file
    ensures file.rows == Table(classify, data, date)
  {
    file.Open();
    file.WriteRow(Header);
    var i := 0;
    while i < |data|
      invariant 0 <= i <= |data|
      invariant file.rows == [Header] + DataRows(classify, data[..i], date)
    {
      var market := data[i];
      var raw := market.symbol;
      var p := classify(raw);
      var j := 0;
      while j < |market.history|
        invariant 0 <= j <= |market.history|
        invariant file.rows ==
          [Header] + DataRows(classify, data[..i], date) + MarketRows(classify, market, date)[..j]
      {
        file.WriteRow(PointRow(p, raw, market.history[j], date));
        MarketRowsPrefix(classify, market, date, j);
        j := j + 1;
      }
      assert MarketRows(classify, market, date)[..j] == MarketRows(classify, market, date);
      DataRowsPrefix(classify, data, date, i);
      i := i + 1;
    }
    assert data[..i] == data;
  }

  /** The export as the script runs it, classifying with `ParseSymbol`;
      running it again with the same response rewrites the same file. */
  method WriteFundingHistory(file: CsvFile, data: seq<Market>, date: int -> String)
    modifies file
    ensures file.rows == Table(ParseSymbol, data, date)
  {
    WriteTable(file, ParseSymbol, data, date);
  }
}
