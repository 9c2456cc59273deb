/** Reductions over the results list: the TRIGGER rows and the hit rate. */
module Metrics {
  import opened Signal

  /** `[r for r in results if r['trigger'] == 'TRIGGER']`, in list order. */
  function Triggers(results: seq<Record>): (t: seq<Record>)
    ensures |t| <= |results|
    ensures |t| == |results| <==> forall k :: 0 <= k < |results| ==> results[k].trigger == Trigger
  {
    if results == [] then []
    else (if results[0].trigger == Trigger then [results[0]] else []) + Triggers(results[1..])
  }

  /** The TRIGGER rows are exactly the rows of the results whose verdict is TRIGGER. */
  lemma {:induction false} TriggersAreTriggerRows(results: seq<Record>)
    ensures forall r :: r in Triggers(results) <==> r in results && r.trigger == Trigger
  {
    if results != [] {
      TriggersAreTriggerRows(results[1..]);
      assert forall r :: r in results <==> r == results[0] || r in results[1..];
    }
  }

  lemma {:induction false} TriggersAppend(a: seq<Record>, b: seq<Record>)
    ensures Triggers(a + b) == Triggers(a) + Triggers(b)
  {
    if a == [] {
      assert a + b == b;
    } else {
      assert (a + b)[1..] == a[1..] + b;
      TriggersAppend(a[1..], b);
    }
  }

  /** `t` out of `n` in percent, for `t <= n` and `n > 0`. */
  function Percent(t: nat, n: nat): (p: real)
    requires t <= n && 0 < n
    ensures 0.0 <= p <= 100.0
    ensures p * (n as real) == 100.0 * (t as real)
    ensures p == 0.0 <==> t == 0
    ensures p == 100.0 <==> t == n
  {
    var tr, nr := t as real, n as real;
    var q := tr / nr;
    assert q * nr == tr;
    assert (q * 100.0) * nr == 100.0 * (q * nr);
    q * 100.0
  }

  /** The report's hit rate: triggers per result in percent, 0 for no results. */
  function HitRate(results: seq<Record>): (rate: real)
    ensures 0.0 <= rate <= 100.0
    ensures rate == 0.0 <==> |Triggers(results)| == 0
    ensures |results| > 0 ==> rate * (|results| as real) == 100.0 * (|Triggers(results)| as real)
    ensures |results| > 0 ==> (rate == 100.0 <==> |Triggers(results)| == |results|)
  {
    if |results| > 0 then Percent(|Triggers(results)|, |results|) else 0.0
  }

  /** The dashboard metric, computed without a guard: it is only shown when
      the results list is non-empty. */
  function MetricHitRate(results: seq<Record>): (rate: real)
    requires |results| > 0
    ensures rate == HitRate(results)
  {
    var triggers := |Triggers(results)|;
    (triggers as real / |results| as real) * 100.0
  }
}
