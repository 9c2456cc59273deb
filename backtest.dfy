/** The backtest scan: every consecutive pair of bars, newest first, each
    pair with all three prices present contributing one record. */
module Backtest {
  import opened Prices
  import opened Signal
  import opened Metrics

  /** Pair `j` is bar `j` with the bar before it; it yields a record when
      today's open and yesterday's low and high are all present. */
  predicate Evaluated(data: seq<Bar>, j: int)
    requires 1 <= j < |data|
  {
    PairRecord(data[j - 1], data[j]).Some?
  }

  /** What pair `j` appends: its record, or nothing when a price is missing. */
  function Appended(data: seq<Bar>, j: int): (rs: seq<Record>)
    requires 1 <= j < |data|
    ensures |rs| <= 1
    ensures |rs| == 1 <==> Evaluated(data, j)
  {
    match PairRecord(data[j - 1], data[j])
    case Some(r) => [r]
    case None => []
  }

  /** The records appended by pairs `i`, `i - 1`, ..., 1, in that order. */
  function RecordsFrom(data: seq<Bar>, i: int): (records: seq<Record>)
    requires i < |data|
    ensures |records| <= if i < 1 then 0 else i
    ensures forall k :: 0 <= k < |records| ==> WellFormed(records[k])
    decreases i
  {
    if i < 1 then [] else Appended(data, i) + RecordsFrom(data, i - 1)
  }

  /** The records a run appends: the pair ending at the newest bar first,
      down to the pair ending at bar 1, skipping incomplete pairs. */
  function BacktestRecords(data: seq<Bar>): (records: seq<Record>)
    ensures |data| < 2 ==> records == []
    ensures |data| >= 2 ==> |records| <= |data| - 1
    ensures forall k :: 0 <= k < |records| ==> WellFormed(records[k])
  {
    RecordsFrom(data, |data| - 1)
  }

  /** The indices of the pairs `i`, ..., 1 that append a record, in that order. */
  function EvaluatedFrom(data: seq<Bar>, i: int): (pairs: seq<int>)
    requires i < |data|
    ensures forall k :: 0 <= k < |pairs| ==> 1 <= pairs[k] <= i && Evaluated(data, pairs[k])
    decreases i
  {
    if i < 1 then []
    else (if Evaluated(data, i) then [i] else []) + EvaluatedFrom(data, i - 1)
  }

  /** The evaluated pairs come newest first, and none with all prices present is left out. */
  lemma {:induction false} EvaluatedFromOrdered(data: seq<Bar>, i: int)
    requires i < |data|
    ensures forall k, m :: 0 <= k < m < |EvaluatedFrom(data, i)| ==> EvaluatedFrom(data, i)[k] > EvaluatedFrom(data, i)[m]
    ensures forall j :: 1 <= j <= i ==> (j in EvaluatedFrom(data, i) <==> Evaluated(data, j))
    decreases i
  {
    if i >= 1 {
      EvaluatedFromOrdered(data, i - 1);
      var ps := EvaluatedFrom(data, i - 1);
      var head := if Evaluated(data, i) then [i] else [];
      assert EvaluatedFrom(data, i) == head + ps;
    }
  }

  /** Record `k` of pairs `i` down to 1 comes from the `k`-th evaluated pair. */
  lemma {:induction false} RecordsFollowPairs(data: seq<Bar>, i: int)
    requires i < |data|
    ensures |RecordsFrom(data, i)| == |EvaluatedFrom(data, i)|
    ensures forall k :: 0 <= k < |EvaluatedFrom(data, i)| ==>
              var j := EvaluatedFrom(data, i)[k];
              1 <= j < |data| && RecordsFrom(data, i)[k] == PairRecord(data[j - 1], data[j]).value
    decreases i
  {
    if i >= 1 {
      RecordsFollowPairs(data, i - 1);
      var rs, ps := RecordsFrom(data, i - 1), EvaluatedFrom(data, i - 1);
      var head := if Evaluated(data, i) then [i] else [];
      assert RecordsFrom(data, i) == Appended(data, i) + rs;
      assert EvaluatedFrom(data, i) == head + ps;
      assert |Appended(data, i)| == |head|;
      forall k | 0 <= k < |EvaluatedFrom(data, i)|
        ensures var j := EvaluatedFrom(data, i)[k];
                1 <= j < |data| && RecordsFrom(data, i)[k] == PairRecord(data[j - 1], data[j]).value
      {
        if k < |head| {
          assert EvaluatedFrom(data, i)[k] == i;
        } else {
          assert EvaluatedFrom(data, i)[k] == ps[k - |head|];
          assert RecordsFrom(data, i)[k] == rs[k - |head|];
        }
      }
    }
  }

  /** The pair indices whose records a run appends, in record order. */
  function EvaluatedPairs(data: seq<Bar>): (pairs: seq<int>)
  {
    EvaluatedFrom(data, |data| - 1)
  }

  /** The evaluated pairs of a run are exactly the pairs with all three prices
      present, newest first, and record `k` comes from the `k`-th of them: an
      incomplete pair is skipped without stopping the scan. */
  lemma RecordsFollowEvaluatedPairs(data: seq<Bar>)
    ensures forall k, m :: 0 <= k < m < |EvaluatedPairs(data)| ==> EvaluatedPairs(data)[k] > EvaluatedPairs(data)[m]
    ensures forall j :: 1 <= j < |data| ==> (j in EvaluatedPairs(data) <==> Evaluated(data, j))
    ensures |BacktestRecords(data)| == |EvaluatedPairs(data)|
    ensures forall k :: 0 <= k < |EvaluatedPairs(data)| ==>
              var j := EvaluatedPairs(data)[k];
              1 <= j < |data| && BacktestRecords(data)[k] == PairRecord(data[j - 1], data[j]).value
  {
    EvaluatedFromOrdered(data, |data| - 1);
    RecordsFollowPairs(data, |data| - 1);
  }

  /** With every price of bars `0..i` present, record `k` of pairs `i` down
      to 1 is built from bar `i - k` and the bar before it. */
  lemma {:induction false} CompleteRecordsFrom(data: seq<Bar>, i: int)
    requires 0 <= i < |data|
    requires forall j :: 0 <= j <= i ==> data[j].open.Number? && data[j].low.Number? && data[j].high.Number?
    ensures |RecordsFrom(data, i)| == i
    ensures forall k :: 0 <= k < i ==>
              RecordsFrom(data, i)[k]
                == SignalFor(data[i - k].date, data[i - k].open.x, data[i - 1 - k].low.x, data[i - 1 - k].high.x)
    decreases i
  {
    if i >= 1 {
      CompleteRecordsFrom(data, i - 1);
      assert RecordsFrom(data, i) == Appended(data, i) + RecordsFrom(data, i - 1);
    }
  }

  /** With no price missing, a run yields one record per pair, and record `k`
      is built from bar `|data| - 1 - k` and the bar before it. */
  lemma CompleteDataRecords(data: seq<Bar>)
    requires |data| > 0
    requires forall j :: 0 <= j < |data| ==> data[j].open.Number? && data[j].low.Number? && data[j].high.Number?
    ensures |BacktestRecords(data)| == |data| - 1
    ensures forall k :: 0 <= k < |data| - 1 ==>
              var today, yesterday := data[|data| - 1 - k], data[|data| - 2 - k];
              BacktestRecords(data)[k] == SignalFor(today.date, today.open.x, yesterday.low.x, yesterday.high.x)
  {
    CompleteRecordsFrom(data, |data| - 1);
  }

  /** Every TRIGGER record of a run is a gap-up whose two retracement levels
      both lie within yesterday's range. */
  lemma TriggersAreAccepted(data: seq<Bar>)
    ensures forall r :: r in Triggers(BacktestRecords(data)) ==>
              && r.yestLow < r.todayOpen
              && r.levels.Some?
              && r.yestLow <= r.levels.value.buy50 <= r.yestHigh
              && r.yestLow <= Level(r.yestLow, r.todayOpen, GoldenRatio) <= r.yestHigh
  {
    var records := BacktestRecords(data);
    TriggersAreTriggerRows(records);
  }

  /** The loop of the backtest: `i` runs from the newest index down to 1. */
  method ScanPairs(data: seq<Bar>) returns (results: seq<Record>, signalsFound: nat)
    ensures results == BacktestRecords(data)
    ensures signalsFound == |Triggers(results)|
  {
    results := [];
    signalsFound := 0;
    var i := |data| - 1;
    while i > 0
      invariant i < |data|
      invariant results + RecordsFrom(data, i) == BacktestRecords(data)
      invariant signalsFound == |Triggers(results)|
      decreases i
    {
      var todayOpen := SafeFloat(data[i].open);
      var yestLow := SafeFloat(data[i - 1].low);
      var yestHigh := SafeFloat(data[i - 1].high);
      if todayOpen.None? || yestLow.None? || yestHigh.None? {
        i := i - 1;
        continue;
      }
      var r := SignalFor(data[i].date, todayOpen.value, yestLow.value, yestHigh.value);
      assert Appended(data, i) == [r];
      assert results + [r] + RecordsFrom(data, i - 1) == BacktestRecords(data);
      TriggersAppend(results, [r]);
      results := results + [r];
      if r.trigger == Trigger {
        signalsFound := signalsFound + 1;
      }
      i := i - 1;
    }
  }
}
