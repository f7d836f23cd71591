/**
 * The coin table crawler of kimpga_gui_crawler.py: which rows of the first table on the
 * page become coin records, how a coin cell is split into name and symbol, the colour of
 * the change column, and what the worker reports when nothing was found.
 */
module Kimpga {
  import opened Wrappers
  import opened Text

  /** A table row, as the texts of its `td` cells before stripping. */
  type Row = seq<string>

  /** One coin record (the dictionary the crawler appends). */
  datatype Coin = Coin(rank: nat, name: string, symbol: string, price: string,
                       change: string, marketCap: string)

  /** Foreground colour of the change cell. */
  datatype Colour = Rising | Falling | Plain

  /**
   * A row is taken when it has at least four cells, the first two are non-blank after
   * stripping and the second (the price) holds a digit.
   */
  predicate Accepted(row: Row) {
    |row| >= 4 && Strip(row[0]) != [] && Strip(row[1]) != [] && HasDigit(Strip(row[1]))
  }

  /** The text of cell `j`, stripped; only ever read for cells that exist. */
  function CellText(row: Row, j: nat): string {
    if j < |row| then Strip(row[j]) else ""
  }

  /**
   * The coin cell split into (name, symbol): with two or more words the last is the symbol
   * and the others, joined by single spaces, are the name; otherwise both are the cell.
   */
  function SplitNameSymbol(cell: string): (r: (string, string))
    ensures |Words(cell)| < 2 ==> r.0 == cell && r.1 == cell
    ensures |Words(cell)| >= 2 ==> r.1 == Words(cell)[|Words(cell)| - 1]
  {
    var parts := Words(cell);
    if |parts| >= 2 then (JoinSpaces(parts[..|parts| - 1]), parts[|parts| - 1])
    else (cell, cell)
  }

  /** The record built from a row with the given rank. */
  function MakeCoin(row: Row, rank: nat): (c: Coin)
    ensures c.rank == rank
  {
    var (name, symbol) := SplitNameSymbol(CellText(row, 0));
    Coin(rank, name, symbol, CellText(row, 1), CellText(row, 2), CellText(row, 3))
  }

  /** The record of an accepted row has a price holding a digit and a one-word symbol. */
  lemma AcceptedCoin(row: Row, rank: nat)
    requires Accepted(row)
    ensures MakeCoin(row, rank).price != [] && HasDigit(MakeCoin(row, rank).price)
    ensures MakeCoin(row, rank).symbol != [] && NoSpaceIn(MakeCoin(row, rank).symbol)
  {
    var cell := Strip(row[0]);
    StripIdempotent(row[0]);
    NameSymbolOfCell(cell);
  }

  /** The rows `accept` takes, in table order. */
  function Filter(rows: seq<Row>, accept: Row -> bool): (acc: seq<Row>)
    ensures |acc| <= |rows|
    ensures forall k :: 0 <= k < |acc| ==> accept(acc[k])
  {
    if rows == [] then []
    else
      var init := Filter(rows[..|rows| - 1], accept);
      if accept(rows[|rows| - 1]) then init + [rows[|rows| - 1]] else init
  }

  /** The rows the crawler turns into coins, in table order. */
  function AcceptedRows(rows: seq<Row>): seq<Row> {
    Filter(rows, Accepted)
  }

  /** A row is among the taken rows exactly when it is in the table and taken. */
  lemma {:induction false} FilterMembers(rows: seq<Row>, accept: Row -> bool, r: Row)
    ensures r in Filter(rows, accept) <==> r in rows && accept(r)
    decreases |rows|
  {
    if rows != [] {
      var init := rows[..|rows| - 1];
      FilterMembers(init, accept, r);
      assert rows == init + [rows[|rows| - 1]];
    }
  }

  /** Scanning fewer rows takes a prefix of what scanning all rows takes. */
  lemma {:induction false} FilterPrefix(rows: seq<Row>, accept: Row -> bool, i: nat)
    requires i <= |rows|
    ensures Filter(rows[..i], accept) <= Filter(rows, accept)
    decreases |rows|
  {
    if i < |rows| {
      var init := rows[..|rows| - 1];
      assert rows[..i] == init[..i];
      FilterPrefix(init, accept, i);
    } else {
      assert rows[..i] == rows;
    }
  }

  lemma FilterStep(rows: seq<Row>, accept: Row -> bool, i: nat)
    requires i < |rows|
    ensures Filter(rows[..i + 1], accept)
      == Filter(rows[..i], accept) + if accept(rows[i]) then [rows[i]] else []
  {
    assert rows[..i + 1][..i] == rows[..i];
  }

  /** With two or more words, splitting the name again and adding the symbol gives the words of the cell. */
  lemma NameSymbolRejoin(cell: string)
    requires |Words(cell)| >= 2
    ensures Words(SplitNameSymbol(cell).0) + [SplitNameSymbol(cell).1] == Words(cell)
  {
    WordsWellFormed(cell);
    RejoinInit(Words(cell));
  }

  lemma RejoinInit(parts: seq<string>)
    requires |parts| >= 2 && WellFormedWords(parts)
    ensures Words(JoinSpaces(parts[..|parts| - 1])) + [parts[|parts| - 1]] == parts
  {
    var init := parts[..|parts| - 1];
    WellFormedInit(parts);
    WordsOfJoin(init);
    SnocInit(parts);
  }

  lemma SnocInit(parts: seq<string>)
    requires |parts| >= 1
    ensures parts[..|parts| - 1] + [parts[|parts| - 1]] == parts
  {
  }

  lemma WellFormedInit(parts: seq<string>)
    requires |parts| >= 1 && WellFormedWords(parts)
    ensures WellFormedWords(parts[..|parts| - 1])
  {
  }

  /** A stripped, non-blank cell yields a non-empty symbol without whitespace. */
  lemma NameSymbolOfCell(cell: string)
    requires cell != [] && Strip(cell) == cell
    ensures SplitNameSymbol(cell).1 != [] && NoSpaceIn(SplitNameSymbol(cell).1)
  {
    WordsWellFormed(cell);
    if |Words(cell)| < 2 {
      SingleWordHasNoSpace(cell);
    }
  }

  /** Stripped text that `split()` does not cut into two words holds no whitespace at all. */
  lemma SingleWordHasNoSpace(s: string)
    requires s != [] && !IsSpace(s[0]) && !IsSpace(s[|s| - 1])
    requires |Words(s)| < 2
    ensures NoSpaceIn(s)
  {
    var n := WordLen(s);
    WordsStep(s);
    var rest := s[n..];
    assert Words(rest) == [];
    assert StripStart(rest) == [];
    assert n == |s|;
  }

  /** Records made from rows, ranked 1, 2, ... in order. */
  function Ranked(rs: seq<Row>, make: (Row, nat) -> Coin): (cs: seq<Coin>)
    ensures |cs| == |rs|
  {
    if rs == [] then []
    else Ranked(rs[..|rs| - 1], make) + [make(rs[|rs| - 1], |rs|)]
  }

  /** The k-th record is made from the k-th row with rank k + 1. */
  lemma {:induction false} RankedAt(rs: seq<Row>, make: (Row, nat) -> Coin, k: nat)
    requires k < |rs|
    ensures Ranked(rs, make)[k] == make(rs[k], k + 1)
  {
    if k < |rs| - 1 {
      RankedAt(rs[..|rs| - 1], make, k);
    }
  }

  lemma RankedSnoc(rs: seq<Row>, r: Row, make: (Row, nat) -> Coin)
    ensures Ranked(rs + [r], make) == Ranked(rs, make) + [make(r, |rs| + 1)]
  {
    assert (rs + [r])[..|rs|] == rs;
  }

  /**
   * The crawl loop: rows are scanned in order, stopping as soon as `limit` records were
   * collected; each row `accept` takes becomes a record ranked by its place in the result.
   */
  method Collect(rows: seq<Row>, limit: int, accept: Row -> bool, make: (Row, nat) -> Coin)
    returns (coins: seq<Coin>)
    ensures |coins| == if limit <= 0 then 0 else Min(limit, |Filter(rows, accept)|)
    ensures coins == Ranked(Filter(rows, accept)[..|coins|], make)
  {
    coins := [];
    var i := 0;
    while i < |rows|
      invariant 0 <= i <= |rows|
      invariant coins == Ranked(Filter(rows[..i], accept), make)
      invariant limit <= 0 ==> coins == []
      invariant 0 < limit ==> |coins| <= limit
    {
      if |coins| >= limit {
        break;
      }
      FilterStep(rows, accept, i);
      if accept(rows[i]) {
        RankedSnoc(Filter(rows[..i], accept), rows[i], make);
        coins := coins + [make(rows[i], |coins| + 1)];
        assert Filter(rows[..i + 1], accept) == Filter(rows[..i], accept) + [rows[i]];
      } else {
        assert Filter(rows[..i + 1], accept) == Filter(rows[..i], accept);
      }
      i := i + 1;
    }
    CollectDone(rows, limit, accept, make, i, coins);
  }

  /** Where the crawl loop stops, what it holds is the ranked prefix its contract promises. */
  lemma CollectDone(rows: seq<Row>, limit: int, accept: Row -> bool, make: (Row, nat) -> Coin,
                    i: nat, coins: seq<Coin>)
    requires i <= |rows| && coins == Ranked(Filter(rows[..i], accept), make)
    requires limit <= 0 ==> coins == []
    requires 0 < limit ==> |coins| <= limit
    requires i == |rows| || |coins| >= limit
    ensures |coins| == if limit <= 0 then 0 else Min(limit, |Filter(rows, accept)|)
    ensures coins == Ranked(Filter(rows, accept)[..|coins|], make)
  {
    var taken := Filter(rows[..i], accept);
    FilterPrefix(rows, accept, i);
    PrefixTake(taken, Filter(rows, accept));
    if i == |rows| {
      assert rows[..i] == rows;
    }
  }

  lemma PrefixTake(p: seq<Row>, s: seq<Row>)
    requires p <= s
    ensures s[..|p|] == p
  {
  }

  /** The kimpga crawl: the first `limit` accepted rows, as coins ranked 1, 2, ... */
  method ExtractCoins(rows: seq<Row>, limit: int) returns (coins: seq<Coin>)
    ensures |coins| == if limit <= 0 then 0 else Min(limit, |AcceptedRows(rows)|)
    ensures forall k :: 0 <= k < |coins| ==>
      coins[k] == MakeCoin(AcceptedRows(rows)[k], k + 1)
  {
    coins := Collect(rows, limit, Accepted, MakeCoin);
    forall k | 0 <= k < |coins|
      ensures coins[k] == MakeCoin(AcceptedRows(rows)[k], k + 1)
    {
      RankedAt(AcceptedRows(rows)[..|coins|], MakeCoin, k);
    }
  }

  function Min(a: int, b: int): int {
    if a <= b then a else b
  }

  /** A change text containing '+' is shown as rising, else one containing '-' as falling. */
  function ChangeColour(change: string): (c: Colour)
    ensures c == Rising <==> exists i :: 0 <= i < |change| && change[i] == '+'
    ensures c == Falling <==>
      (forall i :: 0 <= i < |change| ==> change[i] != '+')
      && (exists i :: 0 <= i < |change| && change[i] == '-')
  {
    ContainsChar(change, '+');
    ContainsChar(change, '-');
    if Contains(change, "+") then Rising
    else if Contains(change, "-") then Falling
    else Plain
  }

  /** What the worker thread reports once the crawl is over. */
  datatype Report = DataReady(coins: seq<Coin>) | Error(message: string)

  const NotFound := "크롤링 실패: 데이터를 찾을 수 없습니다."

  /**
   * The worker's run: `tables` are the row lists of the tables on the page. No table, or
   * no accepted row, ends in the not-found error; otherwise the coins are delivered.
   */
  method Run(tables: seq<seq<Row>>, limit: int) returns (report: Report)
    ensures report.Error? <==> tables == [] || limit <= 0 || AcceptedRows(tables[0]) == []
    ensures report.Error? ==> report.message == NotFound
    ensures report.DataReady? ==>
      |report.coins| == Min(limit, |AcceptedRows(tables[0])|)
      && forall k :: 0 <= k < |report.coins| ==>
        report.coins[k] == MakeCoin(AcceptedRows(tables[0])[k], k + 1)
  {
    var coins: seq<Coin> := [];
    if tables != [] {
      coins := ExtractCoins(tables[0], limit);
    }
    if coins != [] {
      report := DataReady(coins);
    } else {
      report := Error(NotFound);
    }
  }
}
