/** The per-pair "gap and accept" rule: today's open against yesterday's
    low and high, the 0.5 and 0.618 retracement levels and the record a
    backtest appends for the pair. Prices are exact reals. */
module Signal {
  import opened Prices

  const HalfRatio: real := 0.5
  const GoldenRatio: real := 0.618
  const ExtensionRatio: real := 0.382

  /** The price `ratio` of the way from `low` up to `open`. */
  function Level(low: real, open: real, ratio: real): real
  {
    low + ratio * (open - low)
  }

  /** The `trigger` column: "TRIGGER" or "NO TRADE". */
  datatype Verdict = Trigger | NoTrade

  /** Entry, stop and first target of a record whose range is positive. */
  datatype Levels = Levels(buy50: real, sl: real, target1: real)

  /** One row of the backtest results. `case1` and `acceptance` are the
      "YES"/"NO" columns; `levels` is None in the degenerate record, which
      has no `buy_50`, `sl` or `target1`. */
  datatype Record = Record(
    date: Date,
    todayOpen: real,
    yestLow: real,
    yestHigh: real,
    case1: bool,
    acceptance: bool,
    trigger: Verdict,
    levels: Option<Levels>)

  /** What every record of a backtest satisfies, stated in terms of the three
      input prices it carries. */
  predicate WellFormed(r: Record)
  {
    var o, l, h := r.todayOpen, r.yestLow, r.yestHigh;
    && (r.case1 <==> l < o)
    && (o <= l ==> !r.acceptance && r.trigger == NoTrade && r.levels.None?)
    && (l < o ==>
          && r.levels.Some?
          && r.levels.value.sl == l
          && r.levels.value.buy50 == Level(l, o, HalfRatio)
          && r.levels.value.target1 == o + ExtensionRatio * (o - l)
          && l < r.levels.value.buy50 < Level(l, o, GoldenRatio) < o < r.levels.value.target1
          && (r.acceptance <==> Level(l, o, GoldenRatio) <= h)
          && (r.trigger == Trigger <==> r.acceptance))
  }

  /** The record for one pair whose three prices are all present. */
  function SignalFor(date: Date, todayOpen: real, yestLow: real, yestHigh: real): (r: Record)
    ensures r.date == date && r.todayOpen == todayOpen && r.yestLow == yestLow && r.yestHigh == yestHigh
    ensures WellFormed(r)
    ensures r.trigger == Trigger ==>
              && yestLow < todayOpen
              && r.levels.Some?
              && yestLow <= r.levels.value.buy50 <= yestHigh
              && yestLow <= Level(yestLow, todayOpen, GoldenRatio) <= yestHigh
  {
    var case1 := todayOpen > yestLow;
    var rangeSize := todayOpen - yestLow;
    if rangeSize <= 0.0 then
      Record(date, todayOpen, yestLow, yestHigh, case1, false, NoTrade, None)
    else
      var buy618 := Level(yestLow, todayOpen, GoldenRatio);
      var buy50 := Level(yestLow, todayOpen, HalfRatio);
      var acceptance := yestLow <= buy618 <= yestHigh && yestLow <= buy50 <= yestHigh;
      var trigger := if case1 && acceptance then Trigger else NoTrade;
      Record(date, todayOpen, yestLow, yestHigh, case1, acceptance, trigger,
             Some(Levels(buy50, yestLow, todayOpen + ExtensionRatio * rangeSize)))
  }

  /** The record for bar `current` and the bar before it, or None when
      today's open or yesterday's low or high is missing. */
  function PairRecord(prior: Bar, current: Bar): (r: Option<Record>)
    ensures r.Some? <==> current.open.Number? && prior.low.Number? && prior.high.Number?
    ensures r.Some? ==> r.value.date == current.date && r.value.todayOpen == current.open.x
                        && r.value.yestLow == prior.low.x && r.value.yestHigh == prior.high.x
                        && WellFormed(r.value)
  {
    var todayOpen := SafeFloat(current.open);
    var yestLow := SafeFloat(prior.low);
    var yestHigh := SafeFloat(prior.high);
    if todayOpen.None? || yestLow.None? || yestHigh.None? then None
    else Some(SignalFor(current.date, todayOpen.value, yestLow.value, yestHigh.value))
  }

  /** The worked example: yesterday 100..200, today opens at 150. */
  lemma WorkedExample(d: Date)
    ensures var r := SignalFor(d, 150.0, 100.0, 200.0);
            && r.trigger == Trigger
            && r.levels == Some(Levels(125.0, 100.0, 169.1))
            && Level(100.0, 150.0, GoldenRatio) == 130.9
  {
  }

  /** An open exactly at yesterday's low is not a gap-up and never triggers. */
  lemma OpenAtLowIsNoTrade(d: Date, low: real, high: real)
    ensures var r := SignalFor(d, low, low, high);
            !r.case1 && !r.acceptance && r.trigger == NoTrade && r.levels.None?
  {
  }
}
