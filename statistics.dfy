/**
 * The statistics accumulator: hourly states become long-term statistic points
 * whose `sum` is the running total, continued from the latest stored point.
 */
module Statistics {
  import opened Wrappers
  import opened History

  /** One statistic point: `start` hour, the hour's own `state`, its `mean`, and the running `sum`. */
  datatype StatisticData = StatisticData(start: int, state: real, mean: real, sum: real)

  /** The sum of the states, in order. */
  function Total(states: seq<HistoricalState>): (t: real)
    ensures (forall i :: 0 <= i < |states| ==> states[i].state >= 0.0) ==> t >= 0.0
  {
    if states == [] then 0.0 else Total(states[..|states| - 1]) + states[|states| - 1].state
  }

  /**
   * Where the running sum starts: `latest["sum"]` when `latest` is a non-empty
   * dictionary, 0 when it is `None` or empty (both read as false); `None` here
   * stands for the `KeyError` of a non-empty dictionary without a "sum" entry.
   */
  function Seed(latest: Option<map<string, real>>): (s: Option<real>)
    ensures s.None? <==> latest.Some? && latest.value != map[] && "sum" !in latest.value
    ensures latest.Some? && "sum" in latest.value ==> s == Some(latest.value["sum"])
    ensures latest.None? || latest.value == map[] ==> s == Some(0.0)
  {
    match latest
    case None => Some(0.0)
    case Some(m) => if m == map[] then Some(0.0) else if "sum" in m then Some(m["sum"]) else None
  }

  /** Point `i` of an accumulation from `seed`. */
  function PointAt(states: seq<HistoricalState>, seed: real, i: int): (p: StatisticData)
    requires 0 <= i < |states|
    ensures p.start == states[i].dt && p.state == states[i].state && p.mean == states[i].state
    ensures p.sum == seed + Total(states[..i]) + states[i].state
  {
    assert states[..i + 1][..i] == states[..i];
    StatisticData(states[i].dt, states[i].state, states[i].state, seed + Total(states[..i + 1]))
  }

  /** Totals add up over a concatenation. */
  lemma {:induction false} TotalAppend(a: seq<HistoricalState>, b: seq<HistoricalState>)
    ensures Total(a + b) == Total(a) + Total(b)
  {
    if b == [] {
      assert a + b == a;
    } else {
      var front := b[..|b| - 1];
      TotalAppend(a, front);
      assert (a + b)[..|a + b| - 1] == a + front;
    }
  }

  /** With no negative state, a longer prefix never has a smaller total. */
  lemma {:induction false} TotalGrows(states: seq<HistoricalState>, i: nat, j: nat)
    requires i <= j <= |states|
    requires forall k :: 0 <= k < |states| ==> states[k].state >= 0.0
    ensures Total(states[..i]) <= Total(states[..j])
  {
    if i < j {
      TotalGrows(states, i, j - 1);
      assert states[..j][..j - 1] == states[..j - 1];
    }
  }

  /** With no negative state, the sums of the points never decrease. */
  lemma {:induction false} SumsNonDecreasing(states: seq<HistoricalState>, seed: real, i: nat, j: nat)
    requires i <= j < |states|
    requires forall k :: 0 <= k < |states| ==> states[k].state >= 0.0
    ensures PointAt(states, seed, i).sum <= PointAt(states, seed, j).sum
  {
    TotalGrows(states, i + 1, j + 1);
  }

  /**
   * Accumulating `b` from the last sum of accumulating `a` gives the same points
   * as accumulating `a + b` at once: the running sum chains across calls.
   */
  lemma {:induction false} Chained(a: seq<HistoricalState>, b: seq<HistoricalState>, seed: real, i: nat)
    requires i < |b|
    ensures PointAt(b, seed + Total(a), i) == PointAt(a + b, seed, |a| + i)
  {
    var front := b[..i + 1];
    assert (a + b)[..|a| + i + 1] == a + front;
    TotalAppend(a, front);
  }
}
