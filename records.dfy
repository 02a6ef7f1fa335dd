/** The measurement record (one row of data/weather_data.csv) and the
    normaliser `extract_weather_data`, which builds one record from one raw
    API payload. */
module Records {
  import opened Wrappers

  /** The `data_type` column. */
  datatype Kind = Current | Forecast

  /** One row of the store, columns in file order. Floating-point columns are
      `real`; the model never rounds. */
  datatype Record = Record(
    timestamp: string,
    date: string,
    time: string,
    city: string,
    temperature: real,
    feelsLike: real,
    tempMin: real,
    tempMax: real,
    humidity: int,
    pressure: int,
    weatherMain: string,
    weatherDescription: string,
    windSpeed: real,
    windDirection: int,
    cloudiness: int,
    visibility: real,
    sunrise: string,
    sunset: string,
    kind: Kind)

  /** One instant rendered by strftime as '%Y-%m-%d %H:%M:%S', '%Y-%m-%d'
      and '%H:%M:%S'. The wall clock and `datetime.fromtimestamp` are inputs
      of the model, given in this form. */
  datatype DateTimeText = DateTimeText(stamp: string, date: string, time: string)

  /** The `main` object of a payload. */
  datatype MainBlock = MainBlock(
    temp: real, feelsLike: real, tempMin: real, tempMax: real, humidity: int, pressure: int)

  /** One element of the payload's `weather` list. */
  datatype Condition = Condition(main: string, description: string)

  datatype Wind = Wind(speed: Option<real>, deg: Option<int>)

  datatype Clouds = Clouds(all: Option<int>)

  /** The `sys` object: sunrise and sunset as epoch seconds. */
  datatype SunTimes = SunTimes(sunrise: int, sunset: int)

  /** A non-empty JSON object from the API; a key it lacks is `None`. The
      falsy payloads (`None` and `{}`) are `Option<Payload>.None`. */
  datatype Payload = Payload(
    name: Option<string>,
    main: Option<MainBlock>,
    weather: Option<seq<Condition>>,
    wind: Option<Wind>,
    clouds: Option<Clouds>,
    visibility: Option<real>,
    sys: Option<SunTimes>,
    dt: Option<int>)

  /** The forecast response: the `list` of forecast points, if the key is
      there; each point is a payload of its own. */
  datatype ForecastReply = ForecastReply(list: Option<seq<Option<Payload>>>)

  /** Whether every key that the `kind` branch subscripts without a default
      is there (and `weather[0]` exists). */
  predicate HasRequiredKeys(p: Payload, kind: Kind)
  {
    && p.main.Some?
    && p.weather.Some? && |p.weather.value| > 0
    && (kind == Current ==> p.name.Some? && p.sys.Some?)
    && (kind == Forecast ==> p.dt.Some?)
  }

  /** `raw.get('wind', {}).get('speed', 0)` */
  function WindSpeed(p: Payload): real
  {
    p.wind.GetOr(Wind(None, None)).speed.GetOr(0.0)
  }

  /** `raw.get('wind', {}).get('deg', 0)` */
  function WindDirection(p: Payload): int
  {
    p.wind.GetOr(Wind(None, None)).deg.GetOr(0)
  }

  /** `raw.get('clouds', {}).get('all', 0)` */
  function Cloudiness(p: Payload): int
  {
    p.clouds.GetOr(Clouds(None)).all.GetOr(0)
  }

  /** `str()` of the KeyError raised by subscripting a missing key. */
  function KeyError(key: string): string
  {
    "'" + key + "'"
  }

  const IndexError: string := "list index out of range"

  /** `extract_weather_data(raw_data, data_type)` for the collector of
      `city`, at wall-clock instant `now`; `local` renders epoch seconds in
      local time. A missing key raises at the first subscript that needs it,
      in the order the dict literal evaluates them. */
  function Extract(raw: Option<Payload>, dataType: string, city: string,
                   now: DateTimeText, local: int -> DateTimeText): (out: Outcome<Option<Record>>)
    // Nothing to normalise: an empty payload, or a data_type with no branch.
    ensures raw.None? ==> out == Returned(None)
    ensures dataType != "current" && dataType != "forecast" ==> out == Returned(None)
    // A usable payload is never silently dropped.
    ensures out == Returned(None) ==> raw.None? || (dataType != "current" && dataType != "forecast")
    // It raises exactly when a required key is missing.
    ensures raw.Some? && dataType == "current" ==> (out.Raised? <==> !HasRequiredKeys(raw.value, Current))
    ensures raw.Some? && dataType == "forecast" ==> (out.Raised? <==> !HasRequiredKeys(raw.value, Forecast))
    ensures out.Raised? ==> out.message == IndexError || exists k :: k in ["name", "main", "weather", "sys", "dt"] && out.message == KeyError(k)
    // What a record holds.
    ensures out.Returned? && out.value.Some? ==>
      var p, r := raw.value, out.value.value;
      && (r.kind == Current <==> dataType == "current")
      && (r.kind == Forecast <==> dataType == "forecast")
      && r.temperature == p.main.value.temp && r.feelsLike == p.main.value.feelsLike
      && r.tempMin == p.main.value.tempMin && r.tempMax == p.main.value.tempMax
      && r.humidity == p.main.value.humidity && r.pressure == p.main.value.pressure
      && r.weatherMain == p.weather.value[0].main
      && r.weatherDescription == p.weather.value[0].description
      // Missing wind and cloud fields read as 0 in both branches.
      && (p.wind.None? ==> r.windSpeed == 0.0 && r.windDirection == 0)
      && (p.wind.Some? ==> r.windSpeed == p.wind.value.speed.GetOr(0.0)
                           && r.windDirection == p.wind.value.deg.GetOr(0))
      && (p.clouds.None? ==> r.cloudiness == 0)
      && (p.clouds.Some? ==> r.cloudiness == p.clouds.value.all.GetOr(0))
      // A current reading is stamped with the wall clock, under the API's city name.
      && (r.kind == Current ==>
            && r.timestamp == now.stamp && r.date == now.date && r.time == now.time
            && r.city == p.name.value
            && r.visibility == p.visibility.GetOr(0.0) / 1000.0
            && r.sunrise == local(p.sys.value.sunrise).time
            && r.sunset == local(p.sys.value.sunset).time)
      // A forecast point is stamped with its own time, under the collector's
      // city, with fixed sun times; a missing or zero visibility reads as 10.
      && (r.kind == Forecast ==>
            && r.timestamp == local(p.dt.value).stamp
            && r.date == local(p.dt.value).date && r.time == local(p.dt.value).time
            && r.city == city
            && r.visibility == (if p.visibility.Some? && p.visibility.value != 0.0
                                then p.visibility.value / 1000.0 else 10.0)
            && r.sunrise == "06:00:00" && r.sunset == "20:00:00")
  {
    if raw.None? then Returned(None)
    else
      var p := raw.value;
      if dataType == "current" then
        if p.name.None? then Raised(KeyError("name"))
        else if p.main.None? then Raised(KeyError("main"))
        else if p.weather.None? then Raised(KeyError("weather"))
        else if |p.weather.value| == 0 then Raised(IndexError)
        else if p.sys.None? then Raised(KeyError("sys"))
        else
          var m, w := p.main.value, p.weather.value[0];
          Returned(Some(Record(
            now.stamp, now.date, now.time, p.name.value,
            m.temp, m.feelsLike, m.tempMin, m.tempMax, m.humidity, m.pressure,
            w.main, w.description,
            WindSpeed(p), WindDirection(p), Cloudiness(p),
            p.visibility.GetOr(0.0) / 1000.0,
            local(p.sys.value.sunrise).time, local(p.sys.value.sunset).time,
            Current)))
      else if dataType == "forecast" then
        if p.dt.None? then Raised(KeyError("dt"))
        else
          var t := local(p.dt.value);
          if p.main.None? then Raised(KeyError("main"))
          else if p.weather.None? then Raised(KeyError("weather"))
          else if |p.weather.value| == 0 then Raised(IndexError)
          else
            var m, w := p.main.value, p.weather.value[0];
            Returned(Some(Record(
              t.stamp, t.date, t.time, city,
              m.temp, m.feelsLike, m.tempMin, m.tempMax, m.humidity, m.pressure,
              w.main, w.description,
              WindSpeed(p), WindDirection(p), Cloudiness(p),
              if p.visibility.Some? && p.visibility.value != 0.0 then p.visibility.value / 1000.0 else 10.0,
              "06:00:00", "20:00:00",
              Forecast)))
      else Returned(None)
  }
}
