/**
 * Row selection of naver_stock_gui_crawler.py: the records picked out of the tables of
 * the KOSPI 200 page for three target names, by the anchor-text pass and, when that finds
 * nothing, by the row-text fallback pass run on a second download of the page.
 */
module NaverStock {
  import opened Wrappers
  import opened Text

  /**
   * A `td` cell: its text with surrounding whitespace removed, and the stripped text of
   * its first `a` element when it has one.
   */
  datatype Cell = Cell(text: string, anchor: Option<string>)

  /** A `tr` row: its `td` cells and its whole text (`get_text()`, not stripped). */
  datatype Row = Row(cells: seq<Cell>, text: string)

  type Table = seq<Row>

  /** One stock record. */
  datatype Stock = Stock(name: string, price: string, change: string, changeRate: string,
                         volume: string)

  const Targets: seq<string> := ["하이닉스", "유라클", "이마트"]

  /** The text of cell `j`, or '-' when the row is shorter. */
  function Field(cells: seq<Cell>, j: nat): (f: string)
    ensures j < |cells| ==> f == cells[j].text
    ensures j >= |cells| ==> f == "-"
  {
    if j < |cells| then cells[j].text else "-"
  }

  /** A name that contains one of the target names. */
  predicate NamesTarget(name: string, targets: seq<string>) {
    exists k :: 0 <= k < |targets| && Contains(name, targets[k])
  }

  /** The anchor-pass record of a row, if it yields one. */
  function AnchorRecord(row: Row, targets: seq<string>): (r: Option<Stock>)
    ensures r.Some? <==>
      |row.cells| > 0 && row.cells[0].anchor.Some? && NamesTarget(row.cells[0].anchor.value, targets)
    ensures r.Some? ==> r.value.name == row.cells[0].anchor.value
  {
    if |row.cells| > 0 && row.cells[0].anchor.Some? then
      var name := row.cells[0].anchor.value;
      if NamesTarget(name, targets) then
        Some(Stock(name, Field(row.cells, 1), Field(row.cells, 2), Field(row.cells, 3),
                   Field(row.cells, 4)))
      else None
    else None
  }

  function AsList(r: Option<Stock>): seq<Stock> {
    if r.Some? then [r.value] else []
  }

  /** The anchor-pass records of the rows of one table, in row order. */
  function AnchorRows(rows: seq<Row>, targets: seq<string>): (data: seq<Stock>)
    ensures |data| <= |rows|
  {
    if rows == [] then []
    else AnchorRows(rows[..|rows| - 1], targets) + AsList(AnchorRecord(rows[|rows| - 1], targets))
  }

  /** The anchor-pass records of all tables: table order, then row order. */
  function AnchorPass(tables: seq<Table>, targets: seq<string>): seq<Stock> {
    if tables == [] then []
    else AnchorPass(tables[..|tables| - 1], targets) + AnchorRows(tables[|tables| - 1], targets)
  }

  /** The fallback record of a row for target `t`: named by the target, cells 1 to 4. */
  function TargetStock(row: Row, t: string): (s: Stock)
    requires |row.cells| >= 5
    ensures s.name == t
  {
    Stock(t, row.cells[1].text, row.cells[2].text, row.cells[3].text, row.cells[4].text)
  }

  /** The fallback records of one row, checking the targets in list order. */
  function RowHits(row: Row, targets: seq<string>): (data: seq<Stock>)
    ensures |data| <= |targets|
    ensures forall i :: 0 <= i < |data| ==> data[i].name in targets
  {
    if targets == [] then []
    else
      var t := targets[|targets| - 1];
      RowHits(row, targets[..|targets| - 1])
      + if Contains(row.text, t) && |row.cells| >= 5 then [TargetStock(row, t)] else []
  }

  predicate Distinct(ts: seq<string>) {
    forall i, j :: 0 <= i < j < |ts| ==> ts[i] != ts[j]
  }

  /**
   * With a target list that names no target twice, as the script's does, a row yields at
   * most one fallback record per target: no two of its records share a name.
   */
  lemma {:induction false} RowHitsOncePerTarget(row: Row, targets: seq<string>)
    requires Distinct(targets)
    ensures forall i, j :: 0 <= i < j < |RowHits(row, targets)| ==>
      RowHits(row, targets)[i].name != RowHits(row, targets)[j].name
  {
    if targets != [] {
      var init, t := targets[..|targets| - 1], targets[|targets| - 1];
      RowHitsOncePerTarget(row, init);
      assert forall k :: 0 <= k < |init| ==> init[k] == targets[k];
    }
  }

  /** The script's three targets are distinct. */
  lemma TargetsDistinct()
    ensures Distinct(Targets)
  {
  }

  function FallbackRows(rows: seq<Row>, targets: seq<string>): seq<Stock> {
    if rows == [] then []
    else FallbackRows(rows[..|rows| - 1], targets) + RowHits(rows[|rows| - 1], targets)
  }

  /** The fallback records of all tables. */
  function FallbackPass(tables: seq<Table>, targets: seq<string>): seq<Stock> {
    if tables == [] then []
    else FallbackPass(tables[..|tables| - 1], targets) + FallbackRows(tables[|tables| - 1], targets)
  }

  /** A row gives an anchor-pass record exactly when its anchor text names a target. */
  lemma {:induction false} AnchorRowsMembers(rows: seq<Row>, targets: seq<string>, s: Stock)
    ensures s in AnchorRows(rows, targets) <==> exists r :: 0 <= r < |rows| && AnchorRecord(rows[r], targets) == Some(s)
    decreases |rows|
  {
    if rows != [] {
      var init := rows[..|rows| - 1];
      AnchorRowsMembers(init, targets, s);
      assert forall r :: 0 <= r < |init| ==> rows[r] == init[r];
    }
  }

  /**
   * The anchor pass finds nothing exactly when no row of any table names a target in its
   * first cell's anchor; only then does the fallback pass run.
   */
  lemma {:induction false} AnchorPassEmpty(tables: seq<Table>, targets: seq<string>)
    ensures AnchorPass(tables, targets) == [] <==>
      forall t, r :: 0 <= t < |tables| && 0 <= r < |tables[t]| ==> AnchorRecord(tables[t][r], targets).None?
    decreases |tables|
  {
    if tables != [] {
      var init := tables[..|tables| - 1];
      var last := tables[|tables| - 1];
      AnchorPassEmpty(init, targets);
      AnchorRowsEmpty(last, targets);
      assert forall t :: 0 <= t < |init| ==> init[t] == tables[t];
    }
  }

  lemma AnchorRowsEmpty(rows: seq<Row>, targets: seq<string>)
    ensures AnchorRows(rows, targets) == [] <==> forall r :: 0 <= r < |rows| ==> AnchorRecord(rows[r], targets).None?
  {
    if AnchorRows(rows, targets) != [] {
      var s := AnchorRows(rows, targets)[0];
      AnchorRowsMembers(rows, targets, s);
    } else {
      forall r | 0 <= r < |rows| ensures AnchorRecord(rows[r], targets).None? {
        if AnchorRecord(rows[r], targets).Some? {
          AnchorRowsMembers(rows, targets, AnchorRecord(rows[r], targets).value);
        }
      }
    }
  }

  /**
   * A fallback record of a row is the record for a target that occurs in the row's text,
   * and the row has at least five cells.
   */
  lemma {:induction false} RowHitsMembers(row: Row, targets: seq<string>, s: Stock)
    ensures s in RowHits(row, targets) <==>
      |row.cells| >= 5 && s.name in targets && Contains(row.text, s.name) && s == TargetStock(row, s.name)
    decreases |targets|
  {
    if targets != [] {
      var init := targets[..|targets| - 1];
      RowHitsMembers(row, init, s);
      assert targets == init + [targets[|targets| - 1]];
    }
  }

  lemma AnchorRowsStep(rows: seq<Row>, targets: seq<string>, r: nat)
    requires r < |rows|
    ensures AnchorRows(rows[..r + 1], targets) == AnchorRows(rows[..r], targets) + AsList(AnchorRecord(rows[r], targets))
  {
    assert rows[..r + 1][..r] == rows[..r];
  }

  lemma AnchorPassStep(tables: seq<Table>, targets: seq<string>, t: nat)
    requires t < |tables|
    ensures AnchorPass(tables[..t + 1], targets) == AnchorPass(tables[..t], targets) + AnchorRows(tables[t], targets)
  {
    assert tables[..t + 1][..t] == tables[..t];
  }

  lemma RowHitsStep(row: Row, targets: seq<string>, k: nat)
    requires k < |targets|
    ensures RowHits(row, targets[..k + 1]) == RowHits(row, targets[..k])
      + if Contains(row.text, targets[k]) && |row.cells| >= 5 then [TargetStock(row, targets[k])] else []
  {
    assert targets[..k + 1][..k] == targets[..k];
  }

  lemma FallbackRowsStep(rows: seq<Row>, targets: seq<string>, r: nat)
    requires r < |rows|
    ensures FallbackRows(rows[..r + 1], targets) == FallbackRows(rows[..r], targets) + RowHits(rows[r], targets)
  {
    assert rows[..r + 1][..r] == rows[..r];
  }

  lemma FallbackPassStep(tables: seq<Table>, targets: seq<string>, t: nat)
    requires t < |tables|
    ensures FallbackPass(tables[..t + 1], targets) == FallbackPass(tables[..t], targets) + FallbackRows(tables[t], targets)
  {
    assert tables[..t + 1][..t] == tables[..t];
  }

  lemma Associative(a: seq<Stock>, b: seq<Stock>, c: seq<Stock>)
    ensures a + (b + c) == (a + b) + c
  {
  }

  /** The first pass: for each table, for each row, the anchor-text record if any. */
  method CrawlAnchors(tables: seq<Table>, targets: seq<string>) returns (data: seq<Stock>)
    ensures data == AnchorPass(tables, targets)
  {
    data := [];
    var t := 0;
    while t < |tables|
      invariant 0 <= t <= |tables|
      invariant data == AnchorPass(tables[..t], targets)
    {
      var rows := tables[t];
      var r := 0;
      while r < |rows|
        invariant 0 <= r <= |rows|
        invariant data == AnchorPass(tables[..t], targets) + AnchorRows(rows[..r], targets)
      {
        var row := rows[r];
        ghost var before := data;
        if |row.cells| > 0 && row.cells[0].anchor.Some? {
          var name := row.cells[0].anchor.value;
          if NamesTarget(name, targets) {
            data := data + [Stock(name, Field(row.cells, 1), Field(row.cells, 2),
                                  Field(row.cells, 3), Field(row.cells, 4))];
          }
        }
        assert data == before + AsList(AnchorRecord(row, targets));
        AnchorRowsStep(rows, targets, r);
        Associative(AnchorPass(tables[..t], targets), AnchorRows(rows[..r], targets),
                    AsList(AnchorRecord(row, targets)));
        r := r + 1;
      }
      assert rows[..r] == rows;
      AnchorPassStep(tables, targets, t);
      t := t + 1;
    }
    assert tables[..t] == tables;
  }

  /** The fallback pass: for each table, row and target, a record per target in the row text. */
  method CrawlFallback(tables: seq<Table>, targets: seq<string>) returns (data: seq<Stock>)
    ensures data == FallbackPass(tables, targets)
  {
    data := [];
    var t := 0;
    while t < |tables|
      invariant 0 <= t <= |tables|
      invariant data == FallbackPass(tables[..t], targets)
    {
      var rows := tables[t];
      var r := 0;
      while r < |rows|
        invariant 0 <= r <= |rows|
        invariant data == FallbackPass(tables[..t], targets) + FallbackRows(rows[..r], targets)
      {
        var row := rows[r];
        ghost var before := data;
        var k := 0;
        while k < |targets|
          invariant 0 <= k <= |targets|
          invariant data == before + RowHits(row, targets[..k])
        {
          var target := targets[k];
          if Contains(row.text, target) {
            var cells := row.cells;
            if |cells| >= 5 {
              data := data + [TargetStock(row, target)];
            }
          }
          RowHitsStep(row, targets, k);
          Associative(before, RowHits(row, targets[..k]),
                      if Contains(row.text, target) && |row.cells| >= 5 then [TargetStock(row, target)] else []);
          k := k + 1;
        }
        assert targets[..k] == targets;
        FallbackRowsStep(rows, targets, r);
        Associative(FallbackPass(tables[..t], targets), FallbackRows(rows[..r], targets),
                    RowHits(row, targets));
        r := r + 1;
      }
      assert rows[..r] == rows;
      FallbackPassStep(tables, targets, t);
      t := t + 1;
    }
    assert tables[..t] == tables;
  }

  /**
   * The crawler thread's result for the three target names: the anchor pass on the page,
   * or, when it finds nothing, the fallback pass on the page as downloaded a second time
   * (`refetched`).
   */
  method Run(tables: seq<Table>, refetched: seq<Table>) returns (data: seq<Stock>)
    ensures AnchorPass(tables, Targets) != [] ==> data == AnchorPass(tables, Targets)
    ensures AnchorPass(tables, Targets) == [] ==> data == FallbackPass(refetched, Targets)
  {
    data := CrawlAnchors(tables, Targets);
    if data == [] {
      data := CrawlFallback(refetched, Targets);
    }
  }
}
