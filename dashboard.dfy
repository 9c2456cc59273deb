/** The dashboard's session state around the backtest: the results list, the
    re-entrancy flag, and the results table drawn from the list. */
module Dashboard {
  import opened Prices
  import opened Signal
  import opened Metrics
  import opened Backtest

  /** A run on fewer bars than this reports "Insufficient data". */
  const MinimumBars: nat := 10

  /** The results table shows at most this many rows. */
  const TableDays: nat := 20

  /** The message a run ends with. */
  datatype Outcome =
    | AlreadyRunning                 // "Backtest already running..."
    | InsufficientData               // "Insufficient data"
    | Complete(signalsFound: nat)    // "Backtest complete: N triggers found!"

  /** The session-state entries the backtest reads and writes. */
  class Session {
    var backtestResults: seq<Record>
    var backtestRunning: bool

    constructor ()
      ensures backtestResults == [] && !backtestRunning
    {
      backtestResults := [];
      backtestRunning := false;
    }

    /** `run_historical_backtest` on the fetched bars `data`. */
    method RunHistoricalBacktest(data: seq<Bar>) returns (outcome: Outcome)
      modifies this
      ensures old(backtestRunning) ==>
                outcome == AlreadyRunning && backtestRunning && backtestResults == old(backtestResults)
      ensures !old(backtestRunning) && |data| < MinimumBars ==>
                outcome == InsufficientData && !backtestRunning && backtestResults == []
      ensures !old(backtestRunning) && |data| >= MinimumBars ==>
                && !backtestRunning
                && backtestResults == BacktestRecords(data)
                && outcome == Complete(|Triggers(backtestResults)|)
    {
      if backtestRunning {
        return AlreadyRunning;
      }
      backtestRunning := true;
      backtestResults := [];
      if |data| < MinimumBars {
        backtestRunning := false;
        return InsufficientData;
      }
      var results, signalsFound := ScanPairs(data);
      backtestResults := results;
      backtestRunning := false;
      outcome := Complete(signalsFound);
    }
  }

  /** The table as written: `backtest_results[-20:]`, the twenty entries at
      the END of the list. */
  function TableRowsAsWritten(results: seq<Record>): (rows: seq<Record>)
    ensures |rows| == if |results| <= TableDays then |results| else TableDays
    ensures rows == results[|results| - |rows|..]
  {
    if |results| <= TableDays then results else results[|results| - TableDays..]
  }

  /** The table headed "Last 20 Days" as intended: the twenty newest records,
      which are at the FRONT of the list. */
  function LatestTableRows(results: seq<Record>): (rows: seq<Record>)
    ensures |rows| <= TableDays
    ensures |rows| == TableDays || rows == results
    ensures rows <= results
  {
    if |results| <= TableDays then results else results[..TableDays]
  }

  /** With more than 21 complete bars, the table as written holds the records
      of pairs 20 down to 1, the oldest ones, and never the newest day. */
  lemma TableShowsOldestPairs(data: seq<Bar>)
    requires |data| > TableDays + 1
    requires forall j :: 0 <= j < |data| ==> data[j].open.Number? && data[j].low.Number? && data[j].high.Number?
    requires forall a, b :: 0 <= a < b < |data| ==> data[a].date != data[b].date
    ensures |TableRowsAsWritten(BacktestRecords(data))| == TableDays
    ensures forall k :: 0 <= k < TableDays ==>
              var today, yesterday := data[TableDays - k], data[TableDays - 1 - k];
              TableRowsAsWritten(BacktestRecords(data))[k]
                == SignalFor(today.date, today.open.x, yesterday.low.x, yesterday.high.x)
    ensures forall r :: r in TableRowsAsWritten(BacktestRecords(data)) ==> r.date != data[|data| - 1].date
  {
    var n := |data|;
    var records := BacktestRecords(data);
    CompleteDataRecords(data);
    var rows := TableRowsAsWritten(records);
    assert rows == records[n - 1 - TableDays..];
    forall k | 0 <= k < TableDays
      ensures var today, yesterday := data[TableDays - k], data[TableDays - 1 - k];
              rows[k] == SignalFor(today.date, today.open.x, yesterday.low.x, yesterday.high.x)
    {
      assert rows[k] == records[n - 1 - TableDays + k];
    }
    forall r | r in rows
      ensures r.date != data[n - 1].date
    {
      var k :| 0 <= k < |rows| && rows[k] == r;
      assert r.date == data[TableDays - k].date;
    }
  }

  /** With complete bars, the intended table holds the records of the newest
      pairs, newest first: row `k` is built from bar `|data| - 1 - k`. */
  lemma LatestTableShowsNewestPairs(data: seq<Bar>)
    requires |data| > 0
    requires forall j :: 0 <= j < |data| ==> data[j].open.Number? && data[j].low.Number? && data[j].high.Number?
    ensures |LatestTableRows(BacktestRecords(data))| == if |data| - 1 <= TableDays then |data| - 1 else TableDays
    ensures forall k :: 0 <= k < |LatestTableRows(BacktestRecords(data))| ==>
              var today, yesterday := data[|data| - 1 - k], data[|data| - 2 - k];
              LatestTableRows(BacktestRecords(data))[k]
                == SignalFor(today.date, today.open.x, yesterday.low.x, yesterday.high.x)
    ensures |data| >= 2 ==> LatestTableRows(BacktestRecords(data))[0].date == data[|data| - 1].date
  {
    var records := BacktestRecords(data);
    CompleteDataRecords(data);
    var rows := LatestTableRows(records);
    forall k | 0 <= k < |rows|
      ensures var today, yesterday := data[|data| - 1 - k], data[|data| - 2 - k];
              rows[k] == SignalFor(today.date, today.open.x, yesterday.low.x, yesterday.high.x)
    {
      assert rows[k] == records[k];
    }
  }
}
