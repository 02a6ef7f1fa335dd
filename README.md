# Weather measurement store — a Dafny model

This project models the timestamped measurement store of the weather
analytics dashboard: the file `data/weather_data.csv`, the collector that
normalises API payloads into rows and appends them
(`WeatherDataCollector` in `src/data_collector.py`), and the auto-updater's
run counters and age-based pruning (`WeatherAutoUpdater` in
`auto_update.py`).

Modules, one per concern:

- `Wrappers` (`wrappers.dfy`): `Option` for Python's `None`, `Outcome` for a
  call that returns or raises.
- `Timestamps` (`timestamps.dfy`): Python's string order on timestamps
  (`Le`), proved a total order, and the hour key `s[:13]`.
- `Records` (`records.dfy`): the row (`Record`), the raw payload, and
  `extract_weather_data` as the function `Extract`.
- `Table` (`table.dfy`): the table operations on rows: hour-key
  membership, the exact-timestamp batch filter, sorting by timestamp and
  pruning by cutoff, with their lemmas.
- `DataCollector` (`data_collector.dfy`): class `Collector`, whose fields
  `present` and `rows` are the CSV file (whether it exists, its rows in file
  order), with `save_to_csv`, `save_multiple_to_csv` and `collect_and_save`.
- `AutoUpdate` (`auto_update.dfy`): the stats record, `load_stats`, the
  counter update of `update_weather_data` as a function, and class
  `Updater` with `update_weather_data` and `cleanup_old_data`.

The wall clock and time conversions are inputs: `DateTimeText` is one
instant rendered by strftime, `local` renders epoch seconds in local time,
`nowIso` is `datetime.now().isoformat()`, and pruning takes its cutoff
timestamp directly. Timestamps are compared as strings, as Python compares
them; `Timestamps.StampOrderIsChronological` proves that for the fixed-width
'%Y-%m-%d %H:%M:%S' format this is the chronological order of the date-times
they spell, which is what `cleanup_old_data` compares after `pd.to_datetime`.

Behaviour of the code that a reader might not expect, which the model keeps:

- The single-record path (`save_to_csv`) keys duplicates on the hour of the
  wall clock, not of the record (`WallClockKeyScenario` shows two rows of one
  hour being stored).
- `save_multiple_to_csv` returns a boolean, not a count of inserted rows,
  and does not remove duplicates inside one batch. Its duplicate check is on
  exact timestamps, not hours: `SameHourBatchScenario` shows two forecast
  points with distinct timestamps in one hour both being stored, and a
  repeated batch changing nothing.
- `collect_and_save` only ever uses the batch path, and returns True when
  anything was extracted, even when nothing was new.
- A single append can leave the file out of timestamp order (a current
  reading appended after forecast rows for later days, for instance); only
  batch writes sort it.
- For forecast points, a visibility of 0 is recorded as 10 km, as is a
  missing one (the value is tested for truthiness); current readings with
  no visibility get 0.

## Model

| member | source | states |
|---|---|---|
| `Timestamps.HourKey` | src/data_collector.py:107-108 | the hour key is the first 13 characters of a timestamp (the whole string if shorter), a prefix of it |
| `Timestamps.LeTotal` | src/data_collector.py:181 | any two timestamps are comparable, so sorting by timestamp is well defined |
| `Timestamps.LeTransitive` | src/data_collector.py:181 | timestamp order is transitive |
| `Timestamps.LeAntisymmetric` | auto_update.py:145 | two timestamps each at or after the other are equal, so "not at or after the cutoff" means strictly before it |
| `Timestamps.StampOrderIsChronological` | auto_update.py:139-145 | on well-formed timestamps, string order coincides with chronological (year, month, day, hour, minute, second) order |
| `Records.Extract` | src/data_collector.py:41-91 | None for an empty payload or a data_type other than 'current'/'forecast'; raises exactly when a required key is missing; wind speed, direction and cloudiness default to 0; current rows carry the wall-clock timestamp, the API's city and data_type current; forecast rows carry their own time, the collector's city, sunrise 06:00:00, sunset 20:00:00, visibility 10 when absent or 0, and data_type forecast |
| `Table.AppendTakesHour` | src/data_collector.py:107-118 | appending a row stamped in a given hour makes that hour taken |
| `Table.HourTakenGrows` | src/data_collector.py:107-110 | a taken hour stays taken whenever every stored row is kept (later single appends, batch writes) |
| `Table.NewRecords` | src/data_collector.py:173-176 | the batch filter keeps exactly the batch records whose timestamp is not stored, each as many times as it occurs in the batch |
| `Table.SortByTimestamp` | src/data_collector.py:181 | sorting yields a permutation of the rows in non-decreasing timestamp order |
| `Table.Recent` | auto_update.py:145 | pruning keeps exactly the rows at or after the cutoff and never adds rows |
| `Table.PruneIsChronological` | auto_update.py:139-145 | with well-formed timestamps, pruning keeps exactly the rows whose date-time is not before the cutoff's |
| `Table.RecentCounts` | auto_update.py:145 | each kept row is kept as many times as it occurs; rows before the cutoff are gone |
| `Table.RecentAppend` | auto_update.py:145 | pruning preserves relative order (it distributes over concatenation) |
| `Table.CutoffRowKept` | auto_update.py:145 | a row stamped exactly at the cutoff is retained |
| `Table.RecentAll` | auto_update.py:147-152 | nothing is removed iff every row is at or after the cutoff, and then the rows are unchanged |
| `Table.RecentIdempotent` | auto_update.py:145 | pruning twice with one cutoff equals pruning once |
| `Table.RecentOfSortedIsSuffix` | auto_update.py:145 | on a sorted file pruning removes a prefix |
| `Table.RecentKeepsSorted` | auto_update.py:145-148 | pruning a sorted file leaves it sorted |
| `Table.Older` | auto_update.py:145 | the removed rows are exactly those strictly before the cutoff |
| `Table.PruneSplits` | auto_update.py:142-149 | kept and removed rows together are the original rows; the removed count is the number of rows before the cutoff |
| `Table.BatchStampsCovered` | src/data_collector.py:173-182 | after a batch write every batch timestamp is stored |
| `Table.NothingNewWhenCovered` | src/data_collector.py:176-187 | a batch whose timestamps are all stored yields nothing new |
| `DataCollector.BatchContents` | src/data_collector.py:173-182 | a batch write never loses or alters a row: new contents are the old rows plus exactly the new-timestamp batch records |
| `DataCollector.BatchSorted` | src/data_collector.py:178-193 | whenever a batch write reports True (first file or existing file) the file is sorted by timestamp |
| `DataCollector.BatchIdempotent` | src/data_collector.py:176-187 | writing the same batch again adds nothing, changes nothing and returns False |
| `DataCollector.Present` | src/data_collector.py:132-148 | the non-empty payloads of a list, in order: exactly those the list holds |
| `DataCollector.CurrentPart` | src/data_collector.py:132-137 | no payload gives no record; a payload gives exactly its `extract_weather_data` record, of kind current and stamped with the wall clock; it raises iff a required key is missing |
| `DataCollector.ForecastPart` | src/data_collector.py:140-148 | the forecast loop yields, one for one and in list order, the `extract_weather_data` records of the non-empty points, all for the collector's city; it raises iff some point lacks a required key |
| `DataCollector.RaisedPrefixRaises` | src/data_collector.py:145-148 | the first forecast point that raises ends the loop with that exception |
| `DataCollector.Gather` | src/data_collector.py:129-150 | `all_data` is the current payload's record (if there is a payload) followed by the records of the non-empty forecast points in order; it is non-empty iff there is a current payload or a non-empty forecast point |
| `DataCollector.GatherRaises` | src/data_collector.py:129-148 | gathering raises iff the current payload or some looped-over forecast point lacks a required key |
| `DataCollector.Collector.constructor` | src/data_collector.py:11-15 | the city is CITY_NAME, or 'Hamburg' when unset |
| `DataCollector.Collector.SaveToCsv` | src/data_collector.py:93-123 | empty record: False, file untouched; no file: the file becomes exactly that record, True; otherwise False and untouched iff some stored row has the wall clock's hour key, else the record is appended and True |
| `DataCollector.Collector.SaveMultipleToCsv` | src/data_collector.py:159-193 | False and untouched for an empty batch or when no batch timestamp is new; otherwise True and the file is a sorted permutation of the old rows plus the new-timestamp records (of the whole batch when there was no file) |
| `DataCollector.BatchKeepsHours` | src/data_collector.py:173-182 | a batch write keeps every hour that was taken |
| `DataCollector.SaveTwiceInOneHour` | src/data_collector.py:93-123 | from any file state, when the first record is stamped in the clock's hour, the first save is stored unless that hour is taken, and a second save in the same clock hour is always suppressed and changes nothing |
| `DataCollector.Collector.GatherForecast` | src/data_collector.py:145-148 | the loop over the forecast list normalises each point in order and collects the records it yields, stopping at the first point that raises (exactly `ForecastPart`) |
| `DataCollector.Collector.CollectAndSave` | src/data_collector.py:125-157 | returns True iff at least one record was gathered (there was a current payload or a non-empty forecast point), whether or not any was new; everything gathered goes through the batch write; an exception leaves the file untouched |
| `AutoUpdate.LoadStats` | auto_update.py:33-47 | without a stats file the counters are 0, last_update and last_error are None and uptime_start is now; otherwise the stored stats |
| `AutoUpdate.RecordRun` | auto_update.py:61-91 | total rises by 1; exactly one of successful/failed rises by 1 (successful iff collect_and_save returned True), so total − (successful + failed) is preserved; only a success overwrites last_update, only a failure or exception overwrites last_error, with the source's messages |
| `AutoUpdate.ReplayCounts` | auto_update.py:61-91 | over any sequence of runs total rises by the number of runs, successful by the number of successes, failed by the rest |
| `AutoUpdate.ReplayLastUpdate` | auto_update.py:72-74 | last_update is the time of the most recent successful run, or unchanged if there was none |
| `AutoUpdate.FreshStatsBalance` | auto_update.py:39-88 | starting without a stats file, total always equals successful + failed and equals the number of runs |
| `AutoUpdate.Updater.UpdateWeatherData` | auto_update.py:61-91 | stats are loaded, counted as RecordRun says for the current-only collection, and written in every case; the run counts as a success iff there was a current payload with every required key; the data file changes as the batch write says |
| `AutoUpdate.Updater.CleanupOldData` | auto_update.py:130-155 | no file: nothing happens; otherwise the rows become those at or after the cutoff, the reported count is initial − remaining (the rows before the cutoff), and when nothing qualifies the file is unchanged |

## Left out

- HTTP calls (`get_current_weather`, `get_forecast_data`): network I/O; their JSON replies are inputs of `CollectAndSave` and `UpdateWeatherData`.
- Dashboard, charts and the test script (streamlit_app.py, src/visualizer.py, src/weather_test.py): presentation only.
- Scheduling, retry and command-line handling (`setup_schedule`, `run_continuously`, `run_once`, `weekly_forecast_update`, `main`): time-driven orchestration on a third-party scheduler; `weekly_forecast_update` is `collect_and_save(True)` plus logging.
- Logging, printing and status display (`log_database_status`, `print_status`, `show_data_summary`).
- `load_stats` on a corrupt stats file: the source calls itself again and would recurse without end; the model only covers an absent or well-formed file.
- Stats files lacking a counter key (which would raise before the `try` in `update_weather_data`), and failures of `save_stats`, which the source swallows.
- Clock and time conversion: `datetime.now`, `datetime.fromtimestamp`, `strftime` and `timedelta` are inputs. The current branch of `extract_weather_data` reads the clock three times; the model reads it once. `cleanup_old_data` compares parsed datetimes with a cutoff that has microseconds; the model compares with a cutoff given to the second, which agrees except for a row stamped in the cutoff's own second.
- Floating point: temperatures, wind speed and visibility are `real`, so `visibility / 1000` is exact in the model.
- Records.Extract: payload sub-objects (`main`, the `weather` entries, `sys`) are taken as complete; a missing key inside them, or a `wind`/`clouds` value that is not an object, is not modelled.
- CSV serialisation and pandas specifics: dtype inference, `read_csv`/`to_csv` round-tripping, unreadable files and write failures; the file is `present` plus a sequence of rows.
- SaveMultipleToCsv: pandas' default sort is not stable, so the contract fixes the file only up to the order of rows with equal timestamps; the model's insertion sort is one admissible order.
