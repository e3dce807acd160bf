# Energiinfo historical sensor — Dafny model

This project models the historical-sync engine of the Energiinfo integration for
Home Assistant: the sensor `EnergiinfoHistorySensor` in
`custom_components/energiinfo/sensor.py`. It has two parts.

- **The fetch** (`async_update_historical`) walks the days from `days_back`
  days before now up to yesterday. It asks the metering service for each day's
  hourly values. It keeps only records strictly later than the in-memory
  watermark `_last_update`, and moves the watermark to each kept record. It
  publishes the kept states. When a day's request returns `None` (a failed
  request), it reads the client's error message and logs in again if that
  message is "Access denied". It then publishes nothing and stops.
- **The statistics accumulator** (`async_calculate_statistic_data`) turns the
  states into statistic points `(start, state, mean, sum)`. The running sum
  starts from `latest["sum"]`, or from 0 when there is no `latest`.

Files and modules:

- `wrappers.dfy` (`Wrappers`): `Option`, used for Python's `None`.
- `api.dfy` (`Api`): the client boundary. `energiinfo.api.EnergiinfoClient` is
  not part of this model. `Client` gets the service's answers as a function of
  (number of logins so far, request). It records every `get_period_values` and
  `authenticate` call in order, and the last reply, which `getStatus` and
  `getErrorMessage` report.
- `history.dfy` (`History`): the fetch as pure specification.
  - `Accept` is the watermark filter over one day's records.
  - `Planned` gives the days requested.
  - `Sync` gives what one run over the days' replies leaves behind.
  - The lemmas state the properties.
- `statistics.dfy` (`Statistics`): `Total` (prefix sums), `Seed`, `PointAt`, and
  the lemmas about the running sum.
- `sensor.dfy` (`Sensor`): the class `HistorySensor`. Its fields are the
  watermark `lastUpdate` and the published `historicalStates`. Its methods have
  the source's loops and are proved against `History` and `Statistics`. Three
  small example methods check the contracts on:
  - overlapping days;
  - "Access denied" on the second day;
  - a sum of 100 carried into two points.

Modelling choices:

- Time is whole hours (`int`). A day is 24 hours. `Period(t) = t / 24` is the
  calendar day of hour `t`; it stands for `strftime("%Y%m%d")`.
- `now` (`datetime.now()`) is a parameter of the fetch.
- A record is already parsed as `(time, value)`.
- Values are `real`.
- `latest` is `Option<map<string, real>>`. `None` and the empty dictionary both
  read as false in Python and give the seed 0. A non-empty dictionary without
  "sum" raises `KeyError`, which the method returns as `None`.
- `async_update_historical` is one Python function. In the model it is four
  methods, each with its own contract:
  - `UpdateHistorical`: publish, or clear on failure;
  - `FetchDays`: the `while` loop over days;
  - `FetchDay`: one day's request and the failure branch;
  - `AppendNew`: the `for` loop over records.
  They make the same calls in the same order as the source, with the same
  effects. `_attr_historical_states = []` still happens after the
  re-authentication and before anything else.

The model follows the code as written:

- after "Access denied" the day is not retried;
- no maximum look-back is applied (`CONF_MAX_DAYS_BACK` is never used);
- a failing day keeps the watermark advances that earlier days of the same
  fetch made;
- a record repeated within or across days is skipped at its second
  occurrence, so the first occurrence wins;
- only a reply of `None` stops the fetch; an empty list is a successful day
  that keeps nothing, and the loop goes on to the next day;
- the watermark is not persisted, and there is no adaptive poll interval.

## Model

| member | source | states |
|---|---|---|
| Sensor.HistorySensor.constructor | custom_components/energiinfo/sensor.py:88-105 | The configuration is kept. The watermark starts absent and no states are published. |
| Sensor.HistorySensor.UpdateHistorical | custom_components/energiinfo/sensor.py:173-242 | The watermark becomes the run's watermark. The published states are the run's states, or empty on failure. Exactly the planned requests up to and including a failing day are issued. One login with the stored credentials happens exactly when the failure's message is "Access denied". The watermark never moves back. Every published state is later than the old watermark, and later than every previously published state. The published states stay strictly ascending and end at the watermark. |
| Sensor.HistorySensor.FetchDays | custom_components/energiinfo/sensor.py:179-239 | The day loop ends with `ok` exactly when no day failed. Its states and watermark are those of `Sync` over the replies to the planned requests. It issues the requests up to the failing day, logs in again only on "Access denied", and leaves the client's last reply as the last one requested. |
| Sensor.HistorySensor.FetchDay | custom_components/energiinfo/sensor.py:186-236 | One request for the day with "ActiveEnergy" and "hour". When a list comes back, its new records are appended and the watermark becomes the filter's. When `None` comes back, nothing is appended, the watermark is unchanged, and one login happens exactly on "Access denied". |
| Sensor.HistorySensor.AppendNew | custom_components/energiinfo/sensor.py:221-236 | The inner loop appends exactly the states `Accept` keeps and leaves `Accept`'s watermark. |
| Sensor.HistorySensor.CalculateStatisticData | custom_components/energiinfo/sensor.py:244-270 | The result is `None` exactly for a non-empty `latest` without "sum". Otherwise it has one point per state, in order. Point `i` has `start = dt_i` and `state = mean = state_i`. Its `sum` is the seed plus states 0..i. |
| History.Accept | custom_components/energiinfo/sensor.py:221-236 | The record filter: records in order, each kept, with the watermark moved to it, exactly when it is later than the watermark. It keeps at most as many states as there are records. |
| History.LatestTime | custom_components/energiinfo/sensor.py:234-236 | The latest of the watermark and every record's hour. It is never below the watermark, and it is present once there is a record. |
| History.Period | custom_components/energiinfo/sensor.py:186 | The calendar day that an hour falls in, standing for `strftime("%Y%m%d")`: the day whose 24 hours contain it. |
| History.Planned | custom_components/energiinfo/sensor.py:179-186 | The days the loop walks, from `daysBack` days before `now` up to yesterday, one each. There are `daysBack` of them, or none when `daysBack` is not positive. |
| History.Sync | custom_components/energiinfo/sensor.py:184-239 | A run issues at most one request per planned day. Without a failure it issues all of them. |
| History.AcceptShape | custom_components/energiinfo/sensor.py:221-236 | The kept states are strictly ascending, all later than the starting watermark, and at most as many as the records. The new watermark is the last kept hour, or unchanged when nothing was kept. |
| History.AcceptWatermark | custom_components/energiinfo/sensor.py:225-236 | The new watermark is the latest hour among the old watermark and all records, and never below the old one. |
| History.AcceptWatermarkGrows | custom_components/energiinfo/sensor.py:234-236 | Record by record, the watermark never decreases. |
| History.AcceptSelects | custom_components/energiinfo/sensor.py:225-233 | A record is kept exactly when it is later than the watermark and every earlier record. Records at or before the watermark are skipped, whether seen before or repeated. Both directions are stated. |
| History.AcceptAppend | custom_components/energiinfo/sensor.py:184-239 | Filtering one day after another, with the watermark carried over, equals filtering the days' concatenation once. |
| History.NothingRepeated | custom_components/energiinfo/sensor.py:225-236 | States later than the watermark of consistent published states are later than every one of them. A later fetch never republishes an hour. |
| History.PlannedDays | custom_components/energiinfo/sensor.py:179-186 | With `d >= 1` there are exactly `d` consecutive ascending days, from `now - d` days to `now - 1` day. With `d <= 0` there are none. |
| History.SyncDelivered | custom_components/energiinfo/sensor.py:198-218 | Each day before the failing one returned a list. A run fails on the first reply of `None` (a failed request) and records that reply's error message. |
| History.SyncIsOneFilter | custom_components/energiinfo/sensor.py:184-242 | A run's states and watermark are one watermark filter over all records the successful days delivered. |
| History.SyncStopsAtFailure | custom_components/energiinfo/sensor.py:198-218 | After a failure, later replies change nothing, so no later day is requested. |
| History.SyncDay | custom_components/energiinfo/sensor.py:221-239 | A day whose reply is a list (possibly empty) extends a run that has not failed by filtering the list from the current watermark. |
| History.SyncFailsAt | custom_components/energiinfo/sensor.py:198-218 | A reply of `None` (a failed request) ends the run. Its states and watermark stay, its error message is recorded, and exactly one more request counts. |
| History.SyncWatermarkGrows | custom_components/energiinfo/sensor.py:185-239 | Day by day, the watermark of a run never decreases. |
| History.SyncShape | custom_components/energiinfo/sensor.py:221-242 | A run's states are strictly ascending, later than the starting watermark, and end at its watermark, which is unchanged when nothing was kept. The watermark never moves back. It is the latest hour of everything the successful days delivered, also when a later day failed. |
| Statistics.Seed | custom_components/energiinfo/sensor.py:252 | The seed is absent (the `KeyError`) exactly for a non-empty `latest` without "sum". It is `latest["sum"]` when present, and 0 for `None` or an empty dictionary. |
| Statistics.Total | custom_components/energiinfo/sensor.py:254-258 | The sum of the states in order. It is not negative when no state is. |
| Statistics.PointAt | custom_components/energiinfo/sensor.py:255-267 | Point `i` starts at hour `dt_i`, has `state = mean = state_i`, and its sum is the previous point's sum (or the seed) plus `state_i`. |
| Statistics.TotalAppend | custom_components/energiinfo/sensor.py:252-258 | The total of a concatenation is the sum of the totals. |
| Statistics.TotalGrows | custom_components/energiinfo/sensor.py:255-258 | With no negative states, a longer prefix has no smaller total. |
| Statistics.SumsNonDecreasing | custom_components/energiinfo/sensor.py:252-265 | With no negative states, the points' sums never decrease. |
| Statistics.Chained | custom_components/energiinfo/sensor.py:252-258 | Accumulating `b` from the last sum of `a` gives the same points as accumulating `a + b` at once. |
| Sensor.OverlapRun | custom_components/energiinfo/sensor.py:221-239 | Two days delivering hours 5, 6 and 6, 7 publish 5, 6, 7 with watermark 7: hour 6 is kept once. |
| Api.Client.GetPeriodValues | custom_components/energiinfo/sensor.py:190-196 | The request is recorded. The reply is the service's answer for the current login count. |
| Api.Client.GetStatus | custom_components/energiinfo/sensor.py:200-202 | Reports the status of the last reply. |
| Api.Client.GetErrorMessage | custom_components/energiinfo/sensor.py:203-205 | Reports the error message of the last reply. |
| Api.Client.Authenticate | custom_components/energiinfo/sensor.py:208-213 | The login is recorded with its arguments. Nothing else changes. |

## Left out

- Parsing: `datetime.strptime`, `dtutil.as_local` and `float()` are abstract, and records arrive already parsed. In the source, a malformed record raises an exception in the middle of the day loop; that abort is not modelled.
- Time zones: the naive `datetime.now()` and the local-time conversion are abstract. All times are whole hours on one scale.
- `latest["sum"]` being `None` (a statistic row without a sum): the source raises `TypeError` only at the first addition (sensor.py:258), so with no states it still returns `[]`. The model's `latest` holds only real sums, so this case is not modelled.
- Floating point: values are exact reals, with no rounding.
- The client's internals (HTTP, token handling): a login affects later replies only through the login count passed to the answer function. The value `authenticate` returns is not used by the sensor and is not modelled.
- Logging, and the executor offloading (`async_add_executor_job`): each awaited call is a plain sequential call.
- Host behaviour: `HistoricalSensor`/`PollUpdateMixin` scheduling, `UPDATE_INTERVAL`, `get_statistic_metadata`, and the entity properties (`available`, `name`, `unit_of_measurement`, `statistic_id`, `extra_state_attributes`). This is platform glue with no logic of the core.
- The root `sensor.py`, both `config_flow.py` files, `__init__.py` and both `const.py` files: setup forms, platform plumbing and constants outside the historical-sync core.
