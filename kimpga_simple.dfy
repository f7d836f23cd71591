/**
 * The simplified kimpga window of kimpga_simple_gui2.py. Its crawl applies the same row
 * rule, name/symbol split, limit and change colouring as the full crawler (module Kimpga);
 * it differs in how a failed crawl is reported: each failure raises its own message.
 */
module KimpgaSimple {
  import opened Wrappers
  import Kimpga

  const NoTable := "테이블을 찾을 수 없습니다."
  const NoData := "크롤링된 데이터가 없습니다."

  /**
   * The worker's run on the row lists of the page's tables: the error message it emits,
   * or the coins it loads into the window.
   */
  method Run(tables: seq<seq<Kimpga.Row>>, limit: int) returns (outcome: Result<seq<Kimpga.Coin>, string>)
    ensures tables == [] ==> outcome == Failure(NoTable)
    ensures tables != [] && (limit <= 0 || Kimpga.AcceptedRows(tables[0]) == []) ==>
      outcome == Failure(NoData)
    ensures outcome.Success? ==>
      tables != [] && 0 < |outcome.value| == Kimpga.Min(limit, |Kimpga.AcceptedRows(tables[0])|)
      && forall k :: 0 <= k < |outcome.value| ==>
        outcome.value[k] == Kimpga.MakeCoin(Kimpga.AcceptedRows(tables[0])[k], k + 1)
    ensures outcome.Failure? ==> outcome.error in {NoTable, NoData}
    ensures tables != [] && 0 < limit && Kimpga.AcceptedRows(tables[0]) != [] ==> outcome.Success?
  {
    if tables == [] {
      return Failure(NoTable);
    }
    var coins := Kimpga.ExtractCoins(tables[0], limit);
    if coins != [] {
      outcome := Success(coins);
    } else {
      outcome := Failure(NoData);
    }
  }
}
