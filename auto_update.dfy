/** `WeatherAutoUpdater` (auto_update.py): the run-statistics counters kept in
    data/update_stats.json, and age-based pruning of data/weather_data.csv.
    The clock is an input: `nowIso` is `datetime.now().isoformat()`. */
module AutoUpdate {
  import opened Wrappers
  import opened Records
  import opened Table
  import opened DataCollector

  /** The JSON object in data/update_stats.json. */
  datatype Stats = Stats(
    total: int,
    successful: int,
    failed: int,
    lastUpdate: Option<string>,
    lastError: Option<string>,
    uptimeStart: string)

  /** `load_stats()`, given the stats file (if it exists). */
  function LoadStats(file: Option<Stats>, nowIso: string): (s: Stats)
    ensures file.None? ==>
      && s.total == 0 && s.successful == 0 && s.failed == 0
      && s.lastUpdate.None? && s.lastError.None?
      && s.uptimeStart == nowIso
    ensures file.Some? ==> s == file.value
  {
    match file
    case Some(stored) => stored
    case None => Stats(0, 0, 0, None, None, nowIso)
  }

  /** The counters after one `update_weather_data` run whose call to
      `collect_and_save` had `outcome`. */
  function RecordRun(s: Stats, outcome: Outcome<bool>, nowIso: string): (t: Stats)
    ensures t.total == s.total + 1
    ensures t.successful + t.failed == s.successful + s.failed + 1
    ensures t.total - (t.successful + t.failed) == s.total - (s.successful + s.failed)
    ensures t.successful == s.successful + 1 <==> outcome == Returned(true)
    ensures t.failed == s.failed + 1 <==> outcome != Returned(true)
    // Only a success overwrites last_update; only a failure overwrites last_error.
    ensures outcome == Returned(true) ==> t.lastUpdate == Some(nowIso) && t.lastError == s.lastError
    ensures outcome == Returned(false) ==>
      t.lastUpdate == s.lastUpdate && t.lastError == Some("Update fehlgeschlagen: " + nowIso)
    ensures outcome.Raised? ==>
      t.lastUpdate == s.lastUpdate && t.lastError == Some("Exception: " + outcome.message + " - " + nowIso)
    ensures t.uptimeStart == s.uptimeStart
  {
    var counted := s.(total := s.total + 1);
    match outcome
    case Returned(true) =>
      counted.(successful := counted.successful + 1, lastUpdate := Some(nowIso))
    case Returned(false) =>
      counted.(failed := counted.failed + 1, lastError := Some("Update fehlgeschlagen: " + nowIso))
    case Raised(m) =>
      counted.(failed := counted.failed + 1, lastError := Some("Exception: " + m + " - " + nowIso))
  }

  /** One run of `update_weather_data`: what `collect_and_save` did, and the
      clock reading at the time. */
  datatype Run = Run(outcome: Outcome<bool>, at: string)

  /** The counters after a sequence of runs, oldest first. */
  function Replay(s: Stats, runs: seq<Run>): Stats
  {
    if runs == [] then s
    else
      var last := runs[|runs| - 1];
      RecordRun(Replay(s, runs[..|runs| - 1]), last.outcome, last.at)
  }

  /** How many of `runs` succeeded. */
  function Successes(runs: seq<Run>): (n: nat)
    ensures n <= |runs|
  {
    if runs == [] then 0
    else Successes(runs[..|runs| - 1]) + if runs[|runs| - 1].outcome == Returned(true) then 1 else 0
  }

  /** The clock reading of the last successful run, if any. */
  function LastSuccess(runs: seq<Run>): Option<string>
  {
    if runs == [] then None
    else if runs[|runs| - 1].outcome == Returned(true) then Some(runs[|runs| - 1].at)
    else LastSuccess(runs[..|runs| - 1])
  }

  /** Over any sequence of runs, total rises by the number of runs, and every
      run is counted once, as a success or as a failure. */
  lemma {:induction false} ReplayCounts(s: Stats, runs: seq<Run>)
    ensures Replay(s, runs).total == s.total + |runs|
    ensures Replay(s, runs).successful == s.successful + Successes(runs)
    ensures Replay(s, runs).failed == s.failed + (|runs| - Successes(runs))
    ensures Replay(s, runs).uptimeStart == s.uptimeStart
  {
    if runs != [] {
      ReplayCounts(s, runs[..|runs| - 1]);
    }
  }

  /** last_update is the time of the most recent success. */
  lemma {:induction false} ReplayLastUpdate(s: Stats, runs: seq<Run>)
    ensures Replay(s, runs).lastUpdate == if LastSuccess(runs).Some? then LastSuccess(runs) else s.lastUpdate
  {
    if runs != [] {
      ReplayLastUpdate(s, runs[..|runs| - 1]);
    }
  }

  /** Starting without a stats file, the counters always balance. */
  lemma FreshStatsBalance(nowIso: string, runs: seq<Run>)
    ensures var t := Replay(LoadStats(None, nowIso), runs);
      t.total == t.successful + t.failed == |runs| && t.successful == Successes(runs)
  {
    ReplayCounts(LoadStats(None, nowIso), runs);
  }

  class Updater {
    const collector: Collector
    /** data/update_stats.json, if it exists. */
    var statsFile: Option<Stats>

    constructor (c: Collector, stored: Option<Stats>)
      ensures collector == c && statsFile == stored
    {
      collector := c;
      statsFile := stored;
    }

    /** `update_weather_data()`: one current-only collection, counted.
        The stats are written whatever happened. */
    method UpdateWeatherData(rawCurrent: Option<Payload>, now: DateTimeText, nowIso: string,
                             local: int -> DateTimeText)
      requires collector.Valid()
      modifies this, collector
      ensures collector.Valid()
      ensures statsFile == Some(RecordRun(LoadStats(old(statsFile), nowIso),
                                          Reported(Gather(false, rawCurrent, None, collector.city, now, local)),
                                          nowIso))
      // The run counts as a success exactly when there was a current payload
      // with every key the current branch subscripts.
      ensures statsFile.value.successful == LoadStats(old(statsFile), nowIso).successful + 1 <==>
        rawCurrent.Some? && HasRequiredKeys(rawCurrent.value, Current)
      ensures Gather(false, rawCurrent, None, collector.city, now, local).Raised? ==>
        collector.present == old(collector.present) && collector.rows == old(collector.rows)
      ensures Gather(false, rawCurrent, None, collector.city, now, local).Returned? ==>
        BatchWritten(old(collector.present), old(collector.rows),
                     Gather(false, rawCurrent, None, collector.city, now, local).value,
                     collector.present, collector.rows)
    {
      var stats := LoadStats(statsFile, nowIso);
      stats := stats.(total := stats.total + 1);
      var success := collector.CollectAndSave(false, rawCurrent, None, now, local);
      GatherRaises(false, rawCurrent, None, collector.city, now, local);
      assert ForecastItems(false, None) == [];
      match success {
        case Returned(true) =>
          stats := stats.(successful := stats.successful + 1, lastUpdate := Some(nowIso));
        case Returned(false) =>
          stats := stats.(failed := stats.failed + 1, lastError := Some("Update fehlgeschlagen: " + nowIso));
        case Raised(e) =>
          stats := stats.(failed := stats.failed + 1, lastError := Some("Exception: " + e + " - " + nowIso));
      }
      statsFile := Some(stats);
    }

    /** `cleanup_old_data(days_to_keep)`, with `cutoff` the timestamp
        `days_to_keep` days before now. Returns the count it logs: the rows
        removed, 0 when the file is absent or nothing is old enough. */
    method CleanupOldData(cutoff: string) returns (removed: nat)
      requires collector.Valid()
      modifies collector
      ensures collector.Valid()
      ensures collector.present == old(collector.present)
      ensures !old(collector.present) ==> removed == 0 && collector.rows == old(collector.rows)
      ensures old(collector.present) ==>
        && collector.rows == Recent(old(collector.rows), cutoff)
        && removed == |old(collector.rows)| - |collector.rows|
      ensures old(collector.present) ==> removed == |Older(old(collector.rows), cutoff)|
      ensures removed == 0 ==> collector.rows == old(collector.rows)
    {
      if !collector.present {
        return 0;
      }
      var initialCount := |collector.rows|;
      PruneSplits(collector.rows, cutoff);
      var cleaned := Recent(collector.rows, cutoff);
      if |cleaned| < initialCount {
        collector.rows := cleaned;
        removed := initialCount - |cleaned|;
      } else {
        RecentAll(collector.rows, cutoff);
        removed := 0;
      }
    }
  }
}
