/**
 * The historical energy sensor of one meter: it walks the last `daysBack` days,
 * asks the metering service for each day's hourly values, keeps the records
 * later than its watermark, and folds accepted states into statistic points.
 */
module Sensor {
  import opened Wrappers
  import opened Api
  import opened History
  import opened Statistics

  class HistorySensor {
    const client: Client
    const meterId: string
    const meterAlias: string
    const password: string
    const username: string
    const daysBack: int
    /** The watermark: the hour of the latest accepted record, absent until one is accepted; held in memory only. */
    var lastUpdate: Option<int>
    /** The states the latest fetch published. */
    var historicalStates: seq<HistoricalState>

    /** The published states are strictly ascending and the last of them is the watermark. */
    ghost predicate Valid()
      reads this
    {
      Consistent(historicalStates, lastUpdate)
    }

    constructor (client: Client, meterId: string, meterAlias: string, password: string, username: string, daysBack: int)
      ensures Valid()
      ensures this.client == client && this.meterId == meterId && this.meterAlias == meterAlias
      ensures this.password == password && this.username == username && this.daysBack == daysBack
      ensures lastUpdate == None && historicalStates == []
    {
      this.client := client;
      this.meterId := meterId;
      this.meterAlias := meterAlias;
      this.password := password;
      this.username := username;
      this.daysBack := daysBack;
      lastUpdate := None;
      historicalStates := [];
    }

    /** The requests a fetch at hour `now` would issue if no day failed. */
    function DayRequests(now: int): seq<Request>
    {
      Requests(meterId, Planned(now, daysBack))
    }

    /** The run a fetch at hour `now` makes from watermark `start` while the client holds the token of login number `logins`. */
    function Expected(now: int, start: Option<int>, logins: nat): Progress
    {
      Sync(Replies(client.answer, logins, DayRequests(now)), start)
    }

    /**
     * One historical fetch at hour `now`. Without a failure it publishes what the
     * run gathered; on the first reply of `None` (a failed request) it logs in again exactly when
     * the error message is "Access denied", publishes nothing, and stops; the
     * watermark keeps what earlier days of the same fetch moved it to.
     */
    method UpdateHistorical(now: int)
      requires Valid()
      modifies this, client
      ensures Valid()
      ensures lastUpdate == Expected(now, old(lastUpdate), |old(client.logins)|).watermark
      ensures var p := Expected(now, old(lastUpdate), |old(client.logins)|);
        historicalStates == if p.failure.None? then p.states else []
      ensures var p := Expected(now, old(lastUpdate), |old(client.logins)|);
        client.requests == old(client.requests) + DayRequests(now)[..p.Issued()]
      ensures var p := Expected(now, old(lastUpdate), |old(client.logins)|);
        client.logins == old(client.logins) +
          if p.failure == Some(AccessDenied) then [Login(username, password, "temporary")] else []
      ensures var p := Expected(now, old(lastUpdate), |old(client.logins)|);
        p.Issued() == 0 ==> client.last == old(client.last)
      ensures var p := Expected(now, old(lastUpdate), |old(client.logins)|);
        p.Issued() > 0 ==> client.last == Replies(client.answer, |old(client.logins)|, DayRequests(now))[p.Issued() - 1]
      ensures AtLeast(lastUpdate, old(lastUpdate))
      ensures forall s :: s in historicalStates ==> Later(s.dt, old(lastUpdate))
      ensures forall s, t :: s in old(historicalStates) && t in historicalStates ==> s.dt < t.dt
    {
      ghost var p := Expected(now, lastUpdate, |client.logins|);
      var ok, histStates := FetchDays(now);
      SyncShape(Replies(client.answer, |old(client.logins)|, DayRequests(now)), old(lastUpdate));
      if !ok {
        historicalStates := [];
        NothingRepeated(old(historicalStates), old(lastUpdate), []);
        return;
      }
      historicalStates := histStates;
      NothingRepeated(old(historicalStates), old(lastUpdate), histStates);
    }

    /**
     * The day loop of the fetch: from `daysBack` days before `now` up to one day
     * before it, one day at a time, each day's new records are appended; the
     * first reply of `None` (a failed request) stops the loop with `ok` false.
     */
    method FetchDays(now: int) returns (ok: bool, histStates: seq<HistoricalState>)
      modifies this`lastUpdate, client
      ensures var p := Expected(now, old(lastUpdate), |old(client.logins)|);
        && ok == p.failure.None?
        && histStates == p.states
        && lastUpdate == p.watermark
      ensures var p := Expected(now, old(lastUpdate), |old(client.logins)|);
        client.requests == old(client.requests) + DayRequests(now)[..p.Issued()]
      ensures var p := Expected(now, old(lastUpdate), |old(client.logins)|);
        client.logins == old(client.logins) +
          if p.failure == Some(AccessDenied) then [Login(username, password, "temporary")] else []
      ensures var p := Expected(now, old(lastUpdate), |old(client.logins)|);
        client.last == if p.Issued() == 0 then old(client.last)
                       else Replies(client.answer, |old(client.logins)|, DayRequests(now))[p.Issued() - 1]
    {
      var currentTime := now;
      var previousDay := currentTime - 24;
      var daysBackDay := currentTime - 24 * daysBack;
      histStates := [];
      ghost var start := lastUpdate;
      ghost var requests := DayRequests(now);
      ghost var replies := Replies(client.answer, |client.logins|, requests);
      ghost var k: nat := 0;
      ghost var run := Sync(replies[..0], start);
      while daysBackDay <= previousDay
        invariant k <= |requests|
        invariant daysBackDay == now - 24 * (daysBack - k)
        invariant (daysBackDay <= previousDay) == (k < |requests|)
        invariant run == Sync(replies[..k], start)
        invariant run.failure.None? && histStates == run.states && lastUpdate == run.watermark
        invariant client.requests == old(client.requests) + requests[..k]
        invariant client.logins == old(client.logins)
        invariant client.last == if k == 0 then old(client.last) else replies[k - 1]
        decreases previousDay - daysBackDay
      {
        var period := Period(daysBackDay);
        assert requests[k] == DayRequest(meterId, period);
        var dayOk;
        dayOk, histStates := FetchDay(period, histStates);
        assert requests[..k + 1] == requests[..k] + [requests[k]];
        assert client.requests == old(client.requests) + requests[..k + 1];
        if !dayOk {
          SyncFailsAt(replies, start, k);
          assert Sync(replies, start).Issued() == k + 1;
          return false, histStates;
        }
        SyncDay(replies, start, k);
        run := Sync(replies[..k + 1], start);
        daysBackDay := daysBackDay + 24;
        k := k + 1;
      }
      assert replies[..k] == replies;
      assert requests[..k] == requests;
      ok := true;
    }

    /**
     * One day of the fetch: the day's records are requested; when a list comes
     * back (possibly empty), its new records are appended; when `None` comes back,
     * the client logs in again exactly when the error message is "Access denied",
     * and `ok` is false.
     */
    method FetchDay(period: int, histStates: seq<HistoricalState>) returns (ok: bool, extended: seq<HistoricalState>)
      modifies this`lastUpdate, client
      ensures var reply := client.answer(|old(client.logins)|, DayRequest(meterId, period));
        && client.requests == old(client.requests) + [DayRequest(meterId, period)]
        && client.last == reply
        && ok == reply.values.Some?
        && (ok ==> && extended == histStates + Accept(reply.values.value, old(lastUpdate)).states
                   && lastUpdate == Accept(reply.values.value, old(lastUpdate)).watermark
                   && client.logins == old(client.logins))
        && (!ok ==> && extended == histStates && lastUpdate == old(lastUpdate)
                    && client.logins == old(client.logins) +
                         if reply.errorMessage == AccessDenied then [Login(username, password, "temporary")] else [])
    {
      var inputData := client.GetPeriodValues(meterId, period, "ActiveEnergy", "hour");
      if inputData.None? {
        var status := client.GetStatus();
        var errorMessage := client.GetErrorMessage();
        if errorMessage == AccessDenied {
          client.Authenticate(username, password, "temporary");
        }
        return false, histStates;
      }
      extended := AppendNew(histStates, inputData.value);
      ok := true;
    }

    /**
     * The inner loop of one day: each record later than the watermark is
     * appended as a state and moves the watermark to its hour; the others are skipped.
     */
    method AppendNew(histStates: seq<HistoricalState>, data: seq<Record>) returns (extended: seq<HistoricalState>)
      modifies this`lastUpdate
      ensures extended == histStates + Accept(data, old(lastUpdate)).states
      ensures lastUpdate == Accept(data, old(lastUpdate)).watermark
    {
      extended := histStates;
      for i := 0 to |data|
        invariant extended == histStates + Accept(data[..i], old(lastUpdate)).states
        invariant lastUpdate == Accept(data[..i], old(lastUpdate)).watermark
      {
        var histTime := data[i].time;
        if lastUpdate.None? || histTime > lastUpdate.value {
          var hist := HistoricalState(data[i].value, histTime);
          extended := extended + [hist];
          if lastUpdate.None? || hist.dt > lastUpdate.value {
            lastUpdate := Some(hist.dt);
          }
        }
        assert data[..i + 1][..i] == data[..i];
      }
      assert data[..|data|] == data;
    }

    /**
     * The statistic points of `histStates`, in the same order: point `i` starts at
     * state `i`'s hour, has its value as state and mean, and as sum the seed plus
     * states 0 to `i`. `None` is the `KeyError` of a non-empty `latest` without "sum".
     */
    method CalculateStatisticData(histStates: seq<HistoricalState>, latest: Option<map<string, real>>)
      returns (ret: Option<seq<StatisticData>>)
      ensures ret.None? <==> (latest.Some? && latest.value != map[] && "sum" !in latest.value)
      ensures ret.Some? ==> |ret.value| == |histStates|
      ensures ret.Some? ==> forall i :: 0 <= i < |histStates| ==>
        ret.value[i] == PointAt(histStates, Seed(latest).value, i)
    {
      var accumulated: real;
      if latest.Some? && latest.value != map[] {
        if "sum" !in latest.value {
          return None;
        }
        accumulated := latest.value["sum"];
      } else {
        accumulated := 0.0;
      }
      ghost var seed := accumulated;
      var points: seq<StatisticData> := [];
      for i := 0 to |histStates|
        invariant |points| == i
        invariant forall j :: 0 <= j < i ==> points[j] == PointAt(histStates, seed, j)
        invariant accumulated == seed + Total(histStates[..i])
      {
        var hist := histStates[i];
        var mean := hist.state;
        var partialSum := hist.state;
        accumulated := accumulated + partialSum;
        assert histStates[..i + 1][..i] == histStates[..i];
        points := points + [StatisticData(hist.dt, partialSum, mean, accumulated)];
      }
      return Some(points);
    }
  }

  /**
   * Two hourly states accumulated on top of a stored sum of 100: the points are
   * (hour 1, 10, 10, 110) and (hour 2, 15, 15, 125).
   */
  method StatisticsExample(sensor: HistorySensor)
  {
    var a, b := HistoricalState(10.0, 1), HistoricalState(15.0, 2);
    var states := [a, b];
    var latest := map["sum" := 100.0];
    assert "sum" in latest && latest != map[];
    assert states[..1] == [a] && [a][..0] == [] && states[..2] == states;
    assert Total([a]) == 10.0 && Total(states) == 25.0;
    var points := sensor.CalculateStatisticData(states, Some(latest));
    assert |points.value| == 2 && points.value[0] == PointAt(states, 100.0, 0) && points.value[1] == PointAt(states, 100.0, 1);
    assert points.value[0] == StatisticData(1, 10.0, 10.0, 110.0);
    assert points.value[1] == StatisticData(2, 15.0, 15.0, 125.0);
    assert points.value == [StatisticData(1, 10.0, 10.0, 110.0), StatisticData(2, 15.0, 15.0, 125.0)];
  }

  /**
   * Two days whose replies overlap by one hour: the repeated hour is skipped,
   * so hours 5, 6 and 7 are published once each and the watermark ends at 7.
   */
  method OverlapExample()
  {
    var first := [Record(5, 1.0), Record(6, 2.0)];
    var second := [Record(6, 2.0), Record(7, 3.0)];
    var client := new Client((logins: nat, r: Request) =>
      Reply(Some(if r.period == 98 then first else second), "OK", ""));
    var sensor := new HistorySensor(client, "meter", "home", "secret", "user", 2);
    var now := 24 * 100 + 10;
    assert Planned(now, 2) == [98, 99];
    var replies := Replies(client.answer, 0, sensor.DayRequests(now));
    assert replies == [Reply(Some(first), "OK", ""), Reply(Some(second), "OK", "")];
    OverlapRun(first, second);
    sensor.UpdateHistorical(now);
    assert sensor.historicalStates == [HistoricalState(1.0, 5), HistoricalState(2.0, 6), HistoricalState(3.0, 7)];
    assert sensor.lastUpdate == Some(7);
  }

  /** The run behind the overlap example: hour 6, delivered twice, is kept once. */
  lemma {:induction false} OverlapRun(first: seq<Record>, second: seq<Record>)
    requires first == [Record(5, 1.0), Record(6, 2.0)] && second == [Record(6, 2.0), Record(7, 3.0)]
    ensures Sync([Reply(Some(first), "OK", ""), Reply(Some(second), "OK", "")], None)
      == Progress([HistoricalState(1.0, 5), HistoricalState(2.0, 6), HistoricalState(3.0, 7)], Some(7), 2, None)
  {
    var replies := [Reply(Some(first), "OK", ""), Reply(Some(second), "OK", "")];
    assert replies[..0] == [] && replies[..1] == [replies[0]] && replies[..2] == replies;
    assert first[..1] == [Record(5, 1.0)] && second[..1] == [Record(6, 2.0)];
    assert first[..1][..0] == [] && second[..1][..0] == [];
    assert Accept(first[..1], None) == Filtered([HistoricalState(1.0, 5)], Some(5));
    assert Accept(second[..1], Some(6)) == Filtered([], Some(6));
    assert Accept(first, None) == Filtered([HistoricalState(1.0, 5), HistoricalState(2.0, 6)], Some(6));
    assert Accept(second, Some(6)) == Filtered([HistoricalState(3.0, 7)], Some(7));
    SyncDay(replies, None, 0);
    SyncDay(replies, None, 1);
  }

  /**
   * The second day is refused with "Access denied": the client logs in again
   * once, nothing is published, and the watermark keeps hour 5 from the first day.
   */
  method AccessDeniedExample()
  {
    var first := [Record(5, 1.0)];
    var client := new Client((logins: nat, r: Request) =>
      if r.period == 98 then Reply(Some(first), "OK", "") else Reply(None, "ERR", AccessDenied));
    var sensor := new HistorySensor(client, "meter", "home", "secret", "user", 2);
    var now := 24 * 100 + 10;
    var replies := Replies(client.answer, 0, sensor.DayRequests(now));
    assert replies == [Reply(Some(first), "OK", ""), Reply(None, "ERR", AccessDenied)];
    assert replies[..0] == [] && replies[..1] == [replies[0]];
    SyncDay(replies, None, 0);
    SyncFailsAt(replies, None, 1);
    sensor.UpdateHistorical(now);
    assert sensor.historicalStates == [];
    assert sensor.lastUpdate == Some(5);
    assert client.logins == [Login("user", "secret", "temporary")];
    assert |client.requests| == 2;
  }
}
