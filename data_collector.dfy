/** `WeatherDataCollector` (src/data_collector.py): the owner of
    data/weather_data.csv. The file is modelled as whether it exists and the
    sequence of its rows; the API fetches are inputs. */
module DataCollector {
  import opened Wrappers
  import opened Timestamps
  import opened Records
  import opened Table

  /** What `save_multiple_to_csv(batch)` returns, given the file before. */
  predicate BatchSaves(present: bool, rows: seq<Record>, batch: seq<Record>)
  {
    batch != [] && (!present || NewRecords(batch, Stamps(rows)) != [])
  }

  /** The file after `save_multiple_to_csv(batch)` (`present1`, `rows1`),
      given the file before (`present0`, `rows0`). A written file is sorted
      by timestamp; which of two rows with one timestamp comes first is not
      determined. */
  ghost predicate BatchWritten(present0: bool, rows0: seq<Record>, batch: seq<Record>,
                               present1: bool, rows1: seq<Record>)
  {
    if batch == [] then
      present1 == present0 && rows1 == rows0
    else if !present0 then
      present1 && Sorted(rows1) && multiset(rows1) == multiset(batch)
    else
      var added := NewRecords(batch, Stamps(rows0));
      present1 &&
      if added == [] then rows1 == rows0
      else Sorted(rows1) && multiset(rows1) == multiset(rows0 + added)
  }

  lemma {:induction false} NoStampsKeepsAll(batch: seq<Record>)
    ensures NewRecords(batch, {}) == batch
  {
    if batch != [] {
      NoStampsKeepsAll(batch[1..]);
      assert batch == [batch[0]] + batch[1..];
    }
  }

  /** A batch write never loses or alters a row: the new contents are the
      old rows plus exactly the batch records whose timestamp was not
      already stored, duplicates inside the batch included. */
  lemma BatchContents(present0: bool, rows0: seq<Record>, batch: seq<Record>,
                      present1: bool, rows1: seq<Record>)
    requires present0 || rows0 == []
    requires BatchWritten(present0, rows0, batch, present1, rows1)
    ensures multiset(rows1) == multiset(rows0) + multiset(NewRecords(batch, Stamps(rows0)))
    ensures multiset(rows0) <= multiset(rows1)
  {
    if batch == [] {
      assert NewRecords(batch, Stamps(rows0)) == [];
    } else if !present0 {
      assert Stamps(rows0) == {};
      NoStampsKeepsAll(batch);
    }
  }

  /** Whenever a batch write changes the file, the file is in timestamp order. */
  lemma BatchSorted(present0: bool, rows0: seq<Record>, batch: seq<Record>,
                    present1: bool, rows1: seq<Record>)
    requires BatchWritten(present0, rows0, batch, present1, rows1)
    requires BatchSaves(present0, rows0, batch)
    ensures present1 && Sorted(rows1)
  {
  }

  /** Writing the same batch a second time adds nothing and returns False. */
  lemma BatchIdempotent(present0: bool, rows0: seq<Record>, batch: seq<Record>,
                        present1: bool, rows1: seq<Record>)
    requires present0 || rows0 == []
    requires BatchWritten(present0, rows0, batch, present1, rows1)
    ensures !BatchSaves(present1, rows1, batch)
    ensures BatchWritten(present1, rows1, batch, present1, rows1)
  {
    if batch != [] {
      BatchContents(present0, rows0, batch, present1, rows1);
      BatchStampsCovered(rows0, batch, rows1);
      NothingNewWhenCovered(batch, Stamps(rows1));
    }
  }

  /** The payloads among `items`, in list order: the ones the loop of
      `collect_and_save` does not skip as empty. */
  function Present(items: seq<Option<Payload>>): (ps: seq<Payload>)
    ensures |ps| <= |items|
    ensures forall p :: p in ps <==> Some(p) in items
  {
    if items == [] then []
    else
      var prefix, last := items[..|items| - 1], items[|items| - 1];
      assert items == prefix + [last];
      Present(prefix) + if last.Some? then [last.value] else []
  }

  /** `records` are, one for one and in order, what `extract_weather_data`
      makes of `payloads` under `dataType`. */
  predicate Normalised(records: seq<Record>, payloads: seq<Payload>, dataType: string,
                       city: string, now: DateTimeText, local: int -> DateTimeText)
  {
    && |records| == |payloads|
    && forall j :: 0 <= j < |records| ==>
         Extract(Some(payloads[j]), dataType, city, now, local) == Returned(Some(records[j]))
  }

  /** Some point of `items` lacks a key the forecast branch subscripts. */
  predicate SomePointRaises(items: seq<Option<Payload>>)
  {
    exists i :: 0 <= i < |items| && items[i].Some? && !HasRequiredKeys(items[i].value, Forecast)
  }

  /** The forecast points `collect_and_save` loops over: the reply's `list`
      when forecasts are included and the reply has one, else none. */
  function ForecastItems(includeForecast: bool, rawForecast: Option<ForecastReply>): seq<Option<Payload>>
  {
    if includeForecast && rawForecast.Some? && rawForecast.value.list.Some? then rawForecast.value.list.value
    else []
  }

  /** A record normalised from one more payload extends a normalised sequence. */
  lemma NormalisedSnoc(records: seq<Record>, payloads: seq<Payload>, r: Record, p: Payload, dataType: string,
                       city: string, now: DateTimeText, local: int -> DateTimeText)
    requires Normalised(records, payloads, dataType, city, now, local)
    requires Extract(Some(p), dataType, city, now, local) == Returned(Some(r))
    ensures Normalised(records + [r], payloads + [p], dataType, city, now, local)
  {
    assert forall j :: 0 <= j < |records| ==> (records + [r])[j] == records[j] && (payloads + [p])[j] == payloads[j];
  }

  /** Some point of a list raises iff some point before the last does, or the last does. */
  lemma SomePointRaisesSnoc(prefix: seq<Option<Payload>>, last: Option<Payload>)
    ensures SomePointRaises(prefix + [last]) <==>
      SomePointRaises(prefix) || (last.Some? && !HasRequiredKeys(last.value, Forecast))
  {
    var items := prefix + [last];
    assert forall i :: 0 <= i < |prefix| ==> items[i] == prefix[i];
    assert items[|prefix|] == last;
  }

  /** The records that `collect_and_save` gathers from the current payload:
      its record when there is a payload, none otherwise. */
  function CurrentPart(rawCurrent: Option<Payload>, city: string, now: DateTimeText,
                       local: int -> DateTimeText): (out: Outcome<seq<Record>>)
    ensures out.Raised? <==> rawCurrent.Some? && !HasRequiredKeys(rawCurrent.value, Current)
    ensures out.Returned? ==> Normalised(out.value, Present([rawCurrent]), "current", city, now, local)
    ensures out.Returned? ==> forall r :: r in out.value ==> r.kind == Current && r.timestamp == now.stamp
  {
    assert Present([rawCurrent]) == Present([]) + if rawCurrent.Some? then [rawCurrent.value] else [];
    if rawCurrent.None? then Returned([])
    else
      match Extract(rawCurrent, "current", city, now, local)
      case Raised(m) => Raised(m)
      case Returned(None) => Returned([])
      case Returned(Some(r)) => Returned([r])
  }

  /** The records that the loop over the forecast `list` gathers from its
      first `|items|` points: one per non-empty point, in list order; the
      first point that raises ends it. */
  function ForecastPart(items: seq<Option<Payload>>, city: string, now: DateTimeText,
                        local: int -> DateTimeText): (out: Outcome<seq<Record>>)
    ensures out.Raised? <==> SomePointRaises(items)
    ensures out.Returned? ==> Normalised(out.value, Present(items), "forecast", city, now, local)
    ensures out.Returned? ==> |out.value| <= |items|
    ensures out.Returned? ==> forall r :: r in out.value ==> r.kind == Forecast && r.city == city
  {
    if items == [] then Returned([])
    else
      var last := items[|items| - 1];
      var prefix := items[..|items| - 1];
      assert items == prefix + [last];
      SomePointRaisesSnoc(prefix, last);
      assert Present(items) == Present(prefix) + if last.Some? then [last.value] else [];
      match ForecastPart(prefix, city, now, local)
      case Raised(m) => Raised(m)
      case Returned(done) =>
        match Extract(last, "forecast", city, now, local)
        case Raised(m) => Raised(m)
        case Returned(None) => Returned(done)
        case Returned(Some(r)) =>
          NormalisedSnoc(done, Present(prefix), r, last.value, "forecast", city, now, local);
          Returned(done + [r])
  }

  /** Once a prefix of the forecast list raises, the whole loop raises the same. */
  lemma {:induction false} RaisedPrefixRaises(items: seq<Option<Payload>>, n: nat, city: string,
                                              now: DateTimeText, local: int -> DateTimeText)
    requires n <= |items|
    requires ForecastPart(items[..n], city, now, local).Raised?
    ensures ForecastPart(items, city, now, local) == ForecastPart(items[..n], city, now, local)
    decreases |items| - n
  {
    if n < |items| {
      var prefix := items[..|items| - 1];
      assert prefix[..n] == items[..n];
      RaisedPrefixRaises(prefix, n, city, now, local);
    } else {
      assert items[..n] == items;
    }
  }

  /** Everything `collect_and_save(include_forecast)` gathers into
      `all_data`: the current record, then the forecast records in order. */
  function Gather(includeForecast: bool, rawCurrent: Option<Payload>, rawForecast: Option<ForecastReply>,
                  city: string, now: DateTimeText, local: int -> DateTimeText): (out: Outcome<seq<Record>>)
    ensures out.Returned? ==>
      var n := |Present([rawCurrent])|;
      && n <= |out.value|
      && Normalised(out.value[..n], Present([rawCurrent]), "current", city, now, local)
      && Normalised(out.value[n..], Present(ForecastItems(includeForecast, rawForecast)), "forecast", city, now, local)
    ensures out.Returned? ==>
      (|out.value| > 0 <==> rawCurrent.Some? || Present(ForecastItems(includeForecast, rawForecast)) != [])
  {
    match CurrentPart(rawCurrent, city, now, local)
    case Raised(m) => Raised(m)
    case Returned(cur) =>
      if includeForecast && rawForecast.Some? && rawForecast.value.list.Some? then
        assert ForecastItems(includeForecast, rawForecast) == rawForecast.value.list.value;
        match ForecastPart(rawForecast.value.list.value, city, now, local)
        case Raised(m) => Raised(m)
        case Returned(points) =>
          assert (cur + points)[..|cur|] == cur && (cur + points)[|cur|..] == points;
          assert forall i :: |cur| <= i < |cur + points| ==> (cur + points)[i] == points[i - |cur|];
          Returned(cur + points)
      else
        assert ForecastItems(includeForecast, rawForecast) == [];
        assert !SomePointRaises([]);
        assert cur[..|cur|] == cur;
        Returned(cur)
  }

  /** Gathering raises exactly when the current payload or some forecast
      point that is looped over lacks a required key. */
  lemma GatherRaises(includeForecast: bool, rawCurrent: Option<Payload>, rawForecast: Option<ForecastReply>,
                     city: string, now: DateTimeText, local: int -> DateTimeText)
    ensures Gather(includeForecast, rawCurrent, rawForecast, city, now, local).Raised? <==>
      || (rawCurrent.Some? && !HasRequiredKeys(rawCurrent.value, Current))
      || SomePointRaises(ForecastItems(includeForecast, rawForecast))
  {
    var cur := CurrentPart(rawCurrent, city, now, local);
    var items := ForecastItems(includeForecast, rawForecast);
    if cur.Returned? && items == [] {
      assert !SomePointRaises(items);
    }
  }

  /** What `collect_and_save` returns: True iff anything was gathered. */
  function Reported(gathered: Outcome<seq<Record>>): Outcome<bool>
  {
    match gathered
    case Raised(m) => Raised(m)
    case Returned(data) => Returned(|data| > 0)
  }

  class Collector {
    /** `CITY_NAME` from the environment, 'Hamburg' if unset. */
    const city: string
    /** Whether data/weather_data.csv exists. */
    var present: bool
    /** Its rows, in file order. */
    var rows: seq<Record>

    ghost predicate Valid()
      reads this
    {
      present || rows == []
    }

    constructor (cityName: Option<string>, filePresent: bool, fileRows: seq<Record>)
      requires filePresent || fileRows == []
      ensures Valid()
      ensures city == cityName.GetOr("Hamburg") && present == filePresent && rows == fileRows
    {
      city := cityName.GetOr("Hamburg");
      present := filePresent;
      rows := fileRows;
    }

    /** `save_to_csv(weather_data)`, with the wall clock reading `clock`.
        The duplicate check compares the hour of the clock, not the hour of
        the record, with the hour of every stored row. */
    method SaveToCsv(data: Option<Record>, clock: DateTimeText) returns (saved: bool)
      requires Valid()
      modifies this
      ensures Valid()
      ensures data.None? ==> !saved && present == old(present) && rows == old(rows)
      ensures data.Some? && !old(present) ==> saved && present && rows == [data.value]
      ensures data.Some? && old(present) ==>
        && present
        && saved == !HourTaken(old(rows), HourKey(clock.stamp))
        && rows == if saved then old(rows) + [data.value] else old(rows)
    {
      if data.None? {
        return false;
      }
      if present {
        var todayHour := HourKey(clock.stamp);
        if !HourTaken(rows, todayHour) {
          rows := rows + [data.value];
          return true;
        } else {
          return false;
        }
      } else {
        present, rows := true, [data.value];
        return true;
      }
    }

    /** `save_multiple_to_csv(weather_data_list)` */
    method SaveMultipleToCsv(batch: seq<Record>) returns (saved: bool)
      requires Valid()
      modifies this
      ensures Valid()
      ensures saved == BatchSaves(old(present), old(rows), batch)
      ensures BatchWritten(old(present), old(rows), batch, present, rows)
    {
      if batch == [] {
        return false;
      }
      if present {
        var existing := Stamps(rows);
        var added := NewRecords(batch, existing);
        if |added| > 0 {
          rows := SortByTimestamp(rows + added);
          return true;
        } else {
          return false;
        }
      } else {
        present, rows := true, SortByTimestamp(batch);
        return true;
      }
    }

    /** The `for` loop of `collect_and_save` over the forecast `list`: each
        point is normalised, and each record it yields is collected in order. */
    method GatherForecast(items: seq<Option<Payload>>, now: DateTimeText,
                          local: int -> DateTimeText) returns (out: Outcome<seq<Record>>)
      ensures out == ForecastPart(items, city, now, local)
    {
      var collected: seq<Record> := [];
      for i := 0 to |items|
        invariant ForecastPart(items[..i], city, now, local) == Returned(collected)
      {
        var point := Extract(items[i], "forecast", city, now, local);
        assert items[..i + 1][..i] == items[..i];
        if point.Raised? {
          RaisedPrefixRaises(items, i + 1, city, now, local);
          return Raised(point.message);
        }
        if point.value.Some? {
          collected := collected + [point.value.value];
        }
      }
      assert items[..|items|] == items;
      return Returned(collected);
    }

    /** `collect_and_save(include_forecast)` on the payloads the two API
        calls returned. Everything gathered goes to the batch path, and the
        result says whether anything was gathered, not whether anything was
        new. An exception while gathering leaves the file untouched. */
    method CollectAndSave(includeForecast: bool, rawCurrent: Option<Payload>,
                          rawForecast: Option<ForecastReply>, now: DateTimeText,
                          local: int -> DateTimeText) returns (out: Outcome<bool>)
      requires Valid()
      modifies this
      ensures Valid()
      ensures out == Reported(Gather(includeForecast, rawCurrent, rawForecast, city, now, local))
      ensures out.Returned? ==>
        (out.value <==> rawCurrent.Some? || Present(ForecastItems(includeForecast, rawForecast)) != [])
      ensures out.Raised? ==> present == old(present) && rows == old(rows)
      ensures out.Returned? ==>
        BatchWritten(old(present), old(rows),
                     Gather(includeForecast, rawCurrent, rawForecast, city, now, local).value,
                     present, rows)
    {
      var allData: seq<Record> := [];
      if rawCurrent.Some? {
        var current := Extract(rawCurrent, "current", city, now, local);
        if current.Raised? {
          return Raised(current.message);
        }
        if current.value.Some? {
          allData := allData + [current.value.value];
          assert allData == [current.value.value];
        }
      }
      assert CurrentPart(rawCurrent, city, now, local) == Returned(allData);
      if includeForecast && rawForecast.Some? && rawForecast.value.list.Some? {
        var points := GatherForecast(rawForecast.value.list.value, now, local);
        if points.Raised? {
          return Raised(points.message);
        }
        allData := allData + points.value;
      }
      if |allData| > 0 {
        var written := SaveMultipleToCsv(allData);
      }
      return Returned(|allData| > 0);
    }
  }

  /** A batch write keeps every hour that was taken. */
  lemma BatchKeepsHours(present0: bool, rows0: seq<Record>, batch: seq<Record>,
                        present1: bool, rows1: seq<Record>, hour: string)
    requires present0 || rows0 == []
    requires BatchWritten(present0, rows0, batch, present1, rows1)
    requires HourTaken(rows0, hour)
    ensures HourTaken(rows1, hour)
  {
    BatchContents(present0, rows0, batch, present1, rows1);
    HourTakenGrows(rows0, rows1, hour);
  }

  /** From any state of the file, two current readings saved in one clock
      hour: the first is stored unless its hour is already taken, and the
      second is always suppressed and leaves the file as the first left it. */
  method SaveTwiceInOneHour(store: Collector, a: Record, b: Record, clock: DateTimeText, later: DateTimeText)
    returns (first: bool, second: bool)
    requires store.Valid()
    requires HourKey(a.timestamp) == HourKey(clock.stamp) && HourKey(later.stamp) == HourKey(clock.stamp)
    modifies store
    ensures store.Valid() && store.present
    ensures first == (!old(store.present) || !HourTaken(old(store.rows), HourKey(clock.stamp)))
    ensures store.rows == if first then old(store.rows) + [a] else old(store.rows)
    ensures !second
  {
    first := store.SaveToCsv(Some(a), clock);
    if first {
      AppendTakesHour(old(store.rows), a, HourKey(clock.stamp));
    }
    second := store.SaveToCsv(Some(b), later);
  }

  /** The hourly key is the clock's hour, not the record's: a record whose
      own hour is already stored is still appended in another clock hour. */
  method WallClockKeyScenario(a: Record, b: Record, clock: DateTimeText)
    requires HourKey(a.timestamp) == HourKey(b.timestamp)
    requires HourKey(a.timestamp) != HourKey(clock.stamp)
  {
    var store := new Collector(None, true, [a]);
    var saved := store.SaveToCsv(Some(b), clock);
    assert !HourTaken([a], HourKey(clock.stamp));
    assert saved && store.rows == [a, b];
  }

  /** Two forecast points with distinct timestamps in one hour both persist,
      and a second identical batch changes nothing. */
  method SameHourBatchScenario(a: Record, b: Record)
    requires a.timestamp != b.timestamp
  {
    var store := new Collector(None, false, []);
    var first := store.SaveMultipleToCsv([a, b]);
    assert multiset(store.rows) == multiset([a, b]);
    assert a in multiset(store.rows) && b in multiset(store.rows);
    assert first && a in store.rows && b in store.rows;
    ghost var p1, rows1 := store.present, store.rows;
    BatchIdempotent(false, [], [a, b], p1, rows1);
    var second := store.SaveMultipleToCsv([a, b]);
    assert !second && store.rows == rows1;
  }
}
