/**
 * The day-by-day historical fetch of the energy sensor, as pure specification:
 * which days are requested, which records pass the watermark filter, and what
 * one whole run over the replies leaves behind.
 */
module History {
  import opened Wrappers
  import opened Api

  /** One accepted reading: `state` is the hour's value, `dt` the hour it covers. */
  datatype HistoricalState = HistoricalState(state: real, dt: int)

  function ToState(r: Record): HistoricalState
  {
    HistoricalState(r.value, r.time)
  }

  /** Hour `t` is strictly later than the watermark; every hour is later than an absent one. */
  predicate Later(t: int, watermark: Option<int>)
  {
    watermark.None? || t > watermark.value
  }

  /** Watermark `w` is at or past `v`; every watermark is at or past an absent one. */
  predicate AtLeast(w: Option<int>, v: Option<int>)
  {
    v.None? || (w.Some? && w.value >= v.value)
  }

  predicate StrictlyAscending(states: seq<HistoricalState>)
  {
    forall i, j :: 0 <= i < j < |states| ==> states[i].dt < states[j].dt
  }

  /** States as the sensor publishes them: strictly ascending, and the last of them is the watermark. */
  predicate Consistent(states: seq<HistoricalState>, watermark: Option<int>)
  {
    && StrictlyAscending(states)
    && (states != [] ==> watermark == Some(states[|states| - 1].dt))
  }

  /**
   * States later than the watermark of a consistent sequence are later than
   * every state in it: nothing already published is published again.
   */
  lemma {:induction false} NothingRepeated(published: seq<HistoricalState>, watermark: Option<int>, next: seq<HistoricalState>)
    requires Consistent(published, watermark)
    requires forall t :: t in next ==> Later(t.dt, watermark)
    ensures forall s, t :: s in published && t in next ==> s.dt < t.dt
  {
    forall s, t | s in published && t in next
      ensures s.dt < t.dt
    {
      var i :| 0 <= i < |published| && published[i] == s;
      assert s.dt <= published[|published| - 1].dt;
    }
  }

  /* ---------------- The watermark filter over one batch of records ---------------- */

  /** The states a batch adds and the watermark it leaves. */
  datatype Filtered = Filtered(states: seq<HistoricalState>, watermark: Option<int>)

  /**
   * The inner loop of the fetch: records are taken in order, and a record is
   * kept, and the watermark moved to it, exactly when it is later than the watermark.
   */
  function Accept(batch: seq<Record>, watermark: Option<int>): (f: Filtered)
    ensures |f.states| <= |batch|
  {
    if batch == [] then Filtered([], watermark)
    else
      var f := Accept(batch[..|batch| - 1], watermark);
      var r := batch[|batch| - 1];
      if Later(r.time, f.watermark) then Filtered(f.states + [ToState(r)], Some(r.time)) else f
  }

  /** The later of a watermark and an hour. */
  function Latest(watermark: Option<int>, t: int): Option<int>
  {
    if watermark.Some? && watermark.value >= t then watermark else Some(t)
  }

  /** The latest of the watermark and every hour in the batch (an absent watermark is below all hours). */
  function LatestTime(watermark: Option<int>, batch: seq<Record>): (t: Option<int>)
    ensures AtLeast(t, watermark)
    ensures batch != [] ==> t.Some?
  {
    if batch == [] then watermark
    else Latest(LatestTime(watermark, batch[..|batch| - 1]), batch[|batch| - 1].time)
  }

  /** Record `i` is later than the watermark and than every record before it in the batch. */
  predicate IsNew(batch: seq<Record>, watermark: Option<int>, i: int)
    requires 0 <= i < |batch|
  {
    Later(batch[i].time, LatestTime(watermark, batch[..i]))
  }

  /** What the filter keeps is strictly ascending, later than the starting watermark, and ends at the new watermark. */
  lemma {:induction false} AcceptShape(batch: seq<Record>, watermark: Option<int>)
    ensures var f := Accept(batch, watermark);
      && StrictlyAscending(f.states)
      && (forall s :: s in f.states ==> Later(s.dt, watermark))
      && f.watermark == (if f.states == [] then watermark else Some(f.states[|f.states| - 1].dt))
      && |f.states| <= |batch|
  {
    if batch != [] {
      AcceptShape(batch[..|batch| - 1], watermark);
    }
  }

  /** The watermark a batch leaves is the latest hour among the old watermark and the whole batch. */
  lemma {:induction false} AcceptWatermark(batch: seq<Record>, watermark: Option<int>)
    ensures Accept(batch, watermark).watermark == LatestTime(watermark, batch)
    ensures AtLeast(Accept(batch, watermark).watermark, watermark)
  {
    if batch != [] {
      AcceptWatermark(batch[..|batch| - 1], watermark);
    }
  }

  /** Record by record, the watermark never moves back. */
  lemma {:induction false} AcceptWatermarkGrows(batch: seq<Record>, watermark: Option<int>, i: nat, j: nat)
    requires i <= j <= |batch|
    ensures AtLeast(Accept(batch[..j], watermark).watermark, Accept(batch[..i], watermark).watermark)
  {
    if i < j {
      AcceptWatermarkGrows(batch, watermark, i, j - 1);
      assert batch[..j][..j - 1] == batch[..j - 1];
    }
  }

  /**
   * A record is kept exactly when it is later than the watermark and every
   * earlier record: records at or before the watermark, whether seen before or
   * repeated within the batch, are skipped.
   */
  lemma {:induction false} AcceptSelects(batch: seq<Record>, watermark: Option<int>)
    ensures forall i :: 0 <= i < |batch| && IsNew(batch, watermark, i) ==>
      ToState(batch[i]) in Accept(batch, watermark).states
    ensures forall s :: s in Accept(batch, watermark).states ==>
      exists i :: 0 <= i < |batch| && IsNew(batch, watermark, i) && s == ToState(batch[i])
  {
    if batch != [] {
      var n := |batch|;
      var prefix := batch[..n - 1];
      AcceptSelects(prefix, watermark);
      AcceptWatermark(prefix, watermark);
      forall i | 0 <= i < n - 1
        ensures IsNew(batch, watermark, i) == IsNew(prefix, watermark, i)
      {
        assert batch[..i] == prefix[..i];
      }
      assert batch[..n - 1] == prefix;
      var f := Accept(prefix, watermark);
      forall s | s in Accept(batch, watermark).states
        ensures exists i :: 0 <= i < n && IsNew(batch, watermark, i) && s == ToState(batch[i])
      {
        if s in f.states {
          var i :| 0 <= i < n - 1 && IsNew(prefix, watermark, i) && s == ToState(prefix[i]);
          assert IsNew(batch, watermark, i) && s == ToState(batch[i]);
        } else {
          assert IsNew(batch, watermark, n - 1) && s == ToState(batch[n - 1]);
        }
      }
    }
  }

  /** Filtering two batches one after the other is filtering their concatenation once. */
  lemma {:induction false} AcceptAppend(a: seq<Record>, b: seq<Record>, watermark: Option<int>)
    ensures var f := Accept(a, watermark);
      var g := Accept(b, f.watermark);
      Accept(a + b, watermark) == Filtered(f.states + g.states, g.watermark)
  {
    if b == [] {
      assert a + b == a;
    } else {
      var front := b[..|b| - 1];
      AcceptAppend(a, front, watermark);
      assert (a + b)[..|a + b| - 1] == a + front;
      assert (a + b)[|a + b| - 1] == b[|b| - 1];
    }
  }

  /* ---------------- The days requested ---------------- */

  /** The calendar day, as a day number, that hour `t` falls in. */
  function Period(t: int): (d: int)
    ensures 24 * d <= t < 24 * d + 24
  {
    t / 24
  }

  /**
   * The days the loop walks: from `daysBack` days before `now` up to one
   * day before `now`, one day at a time.
   */
  function Planned(now: int, daysBack: int): (days: seq<int>)
    ensures |days| == if daysBack > 0 then daysBack else 0
  {
    seq(if daysBack > 0 then daysBack else 0, k => Period(now - 24 * (daysBack - k)))
  }

  lemma {:induction false} ShiftDays(t: int, m: int)
    ensures Period(t - 24 * m) == Period(t) - m
  {
    var q, r := t / 24, t % 24;
    assert t - 24 * m == 24 * (q - m) + r;
  }

  /** `daysBack` consecutive days, ending the day before `now`; none at all when `daysBack <= 0`. */
  lemma {:induction false} PlannedDays(now: int, daysBack: int)
    ensures |Planned(now, daysBack)| == if daysBack > 0 then daysBack else 0
    ensures forall k :: 0 <= k < |Planned(now, daysBack)| ==> Planned(now, daysBack)[k] == Period(now) - daysBack + k
    ensures daysBack > 0 ==> Planned(now, daysBack)[0] == Period(now - 24 * daysBack)
    ensures daysBack > 0 ==> Planned(now, daysBack)[daysBack - 1] == Period(now - 24)
  {
    forall k | 0 <= k < |Planned(now, daysBack)|
      ensures Planned(now, daysBack)[k] == Period(now) - daysBack + k
    {
      ShiftDays(now, daysBack - k);
    }
    ShiftDays(now, 1);
  }

  /* ---------------- One run over the replies of the requested days ---------------- */

  /**
   * Where a run stands: the states gathered so far, the watermark, how many
   * days delivered records, and the error message of the day that failed, if one did.
   */
  datatype Progress = Progress(states: seq<HistoricalState>, watermark: Option<int>, days: nat, failure: Option<string>)
  {
    /** The number of requests the run has issued: the failing one counts too. */
    function Issued(): nat
    {
      days + if failure.Some? then 1 else 0
    }
  }

  /**
   * The outer loop of the fetch over the replies to the planned days, in order:
   * a reply carrying a list runs it through the filter (an empty list is a
   * successful day that keeps nothing); the first reply of `None` (a failed
   * request) stops the run, and later replies are never asked for.
   */
  function Sync(replies: seq<Reply>, watermark: Option<int>): (p: Progress)
    ensures p.Issued() <= |replies|
    ensures p.failure.None? ==> p.days == |replies|
  {
    if replies == [] then Progress([], watermark, 0, None)
    else
      var p := Sync(replies[..|replies| - 1], watermark);
      var reply := replies[|replies| - 1];
      if p.failure.Some? then p
      else match reply.values
        case None => Progress(p.states, p.watermark, p.days, Some(reply.errorMessage))
        case Some(batch) =>
          var f := Accept(batch, p.watermark);
          Progress(p.states + f.states, f.watermark, p.days + 1, None)
  }

  /** All records delivered by the replies, day after day. */
  function Received(replies: seq<Reply>): seq<Record>
  {
    if replies == [] then []
    else Received(replies[..|replies| - 1]) + match replies[|replies| - 1].values
      case Some(batch) => batch
      case None => []
  }

  /** The days before `days` all delivered a list; a failed run failed on the first reply of `None`. */
  lemma {:induction false} SyncDelivered(replies: seq<Reply>, watermark: Option<int>)
    ensures var p := Sync(replies, watermark);
      && (forall k :: 0 <= k < p.days ==> replies[k].values.Some?)
      && (p.failure.Some? ==> replies[p.days].values.None? && p.failure == Some(replies[p.days].errorMessage))
  {
    if replies != [] {
      var n := |replies|;
      var prefix := replies[..n - 1];
      var q := Sync(prefix, watermark);
      SyncDelivered(prefix, watermark);
      assert replies[..n - 1] == prefix;
      if q.failure.Some? {
        assert replies[q.days] == prefix[q.days];
      }
    }
  }

  /** A run is one watermark filter over everything the successful days delivered. */
  lemma {:induction false} SyncIsOneFilter(replies: seq<Reply>, watermark: Option<int>)
    ensures var p := Sync(replies, watermark);
      Filtered(p.states, p.watermark) == Accept(Received(replies[..p.days]), watermark)
  {
    if replies != [] {
      var n := |replies|;
      var prefix := replies[..n - 1];
      var q := Sync(prefix, watermark);
      SyncIsOneFilter(prefix, watermark);
      if q.failure.Some? {
        SyncStopsAtFailure(replies, watermark, n - 1);
        assert replies[..q.days] == prefix[..q.days];
      } else if replies[n - 1].values.None? {
        SyncFailsAt(replies, watermark, n - 1);
        assert prefix[..q.days] == prefix;
      } else {
        var batch := replies[n - 1].values.value;
        SyncDay(replies, watermark, n - 1);
        assert prefix[..q.days] == prefix;
        assert replies[..n] == replies;
        assert Received(replies) == Received(prefix) + batch;
        AcceptAppend(Received(prefix), batch, watermark);
      }
    }
  }

  /** Once a run has failed, the replies after the failing one change nothing. */
  lemma {:induction false} SyncStopsAtFailure(replies: seq<Reply>, watermark: Option<int>, j: nat)
    requires j <= |replies|
    requires Sync(replies[..j], watermark).failure.Some?
    ensures Sync(replies, watermark) == Sync(replies[..j], watermark)
  {
    if j < |replies| {
      var prefix := replies[..|replies| - 1];
      assert prefix[..j] == replies[..j];
      SyncStopsAtFailure(prefix, watermark, j);
    } else {
      assert replies[..j] == replies;
    }
  }

  /** A day with records extends a run that has not failed by filtering them from its watermark. */
  lemma {:induction false} SyncDay(replies: seq<Reply>, watermark: Option<int>, k: nat)
    requires k < |replies| && replies[k].values.Some?
    requires Sync(replies[..k], watermark).failure.None?
    ensures var q := Sync(replies[..k], watermark);
      var f := Accept(replies[k].values.value, q.watermark);
      Sync(replies[..k + 1], watermark) == Progress(q.states + f.states, f.watermark, q.days + 1, None)
  {
    assert replies[..k + 1][..k] == replies[..k];
  }

  /**
   * A reply of `None` (a failed request) ends a run that has not failed: what was gathered and
   * the watermark stay as they were, and the day's error message is recorded.
   */
  lemma {:induction false} SyncFailsAt(replies: seq<Reply>, watermark: Option<int>, k: nat)
    requires k < |replies| && replies[k].values.None?
    requires Sync(replies[..k], watermark).failure.None?
    ensures var q := Sync(replies[..k], watermark);
      Sync(replies, watermark) == Progress(q.states, q.watermark, k, Some(replies[k].errorMessage))
    ensures Sync(replies, watermark).Issued() == k + 1
  {
    assert replies[..k + 1][..k] == replies[..k];
    SyncStopsAtFailure(replies, watermark, k + 1);
  }

  /** Day by day, the watermark of a run never moves back, also on the day that fails. */
  lemma {:induction false} SyncWatermarkGrows(replies: seq<Reply>, watermark: Option<int>, i: nat, j: nat)
    requires i <= j <= |replies|
    ensures AtLeast(Sync(replies[..j], watermark).watermark, Sync(replies[..i], watermark).watermark)
  {
    if i < j {
      SyncWatermarkGrows(replies, watermark, i, j - 1);
      var before := replies[..j];
      assert before[..j - 1] == replies[..j - 1];
      var q := Sync(replies[..j - 1], watermark);
      if q.failure.None? && replies[j - 1].values.Some? {
        SyncDay(replies, watermark, j - 1);
        AcceptWatermark(replies[j - 1].values.value, q.watermark);
      }
    }
  }

  /**
   * What a run gathers is strictly ascending and later than the starting
   * watermark; the watermark never moves back and ends at the last gathered
   * state, or stays where it was; it is the latest hour of every record the
   * successful days delivered, also when a later day failed.
   */
  lemma {:induction false} SyncShape(replies: seq<Reply>, watermark: Option<int>)
    ensures Consistent(Sync(replies, watermark).states, Sync(replies, watermark).watermark)
    ensures forall s :: s in Sync(replies, watermark).states ==> Later(s.dt, watermark)
    ensures Sync(replies, watermark).states == [] ==> Sync(replies, watermark).watermark == watermark
    ensures AtLeast(Sync(replies, watermark).watermark, watermark)
    ensures Sync(replies, watermark).watermark ==
      LatestTime(watermark, Received(replies[..Sync(replies, watermark).days]))
  {
    var p := Sync(replies, watermark);
    SyncIsOneFilter(replies, watermark);
    AcceptShape(Received(replies[..p.days]), watermark);
    AcceptWatermark(Received(replies[..p.days]), watermark);
  }
}
