/** The home page's logic with React, the network and `alert` abstracted away:
    the city-search decision and the view derived from the store. */
module Home {
  import opened Wrappers
  import opened Payload
  import opened WeatherSlice
  import JsString

  // ---------------------------------------------------------------------------
  // City search

  /** One element of the geocoder's JSON array; only `lat` and `lon` are read. */
  datatype Place = Place(lat: string, lon: string)

  /** What the geocoding request produced: a thrown network or JSON error, or
      the parsed array of matches. */
  datatype GeoOutcome = GeoFailed | GeoResults(places: seq<Place>)

  /** Coordinates handed to the weather fetch. They are the first match's
      `lat` / `lon` texts; the `parseFloat` applied to them is not modelled. */
  datatype Coordinates = Coordinates(latitude: string, longitude: string)

  /** The visible effect of one search. */
  datatype Decision =
    | Skip            // returned before doing anything
    | Dispatch(coords: Coordinates)
    | AlertNotFound
    | AlertError

  /** One search attempt: the query sent to the geocoder (`None` when no
      request is made), the decision, and the writes to the page's local busy
      flag, in order. */
  datatype Attempt = Attempt(geocodeQuery: Option<string>, decision: Decision, busyWrites: seq<bool>)

  const NotFoundAlert: string := "City not found. Please try again."
  const LookupErrorAlert: string := "Error fetching city location. Please try again later."

  /** The value of a flag after a sequence of writes to it. */
  function LastWrite(initial: bool, writes: seq<bool>): bool
  {
    if writes == [] then initial else writes[|writes| - 1]
  }

  /** `fetchWeatherForCity(cityName)` while the local busy flag is `busy` and
      the geocoding request, if made, would end in `geo`. */
  function FetchWeatherForCity(busy: bool, cityName: string, geo: GeoOutcome): (r: Attempt)
    // A search already in progress, or a blank city text, does nothing at all.
    ensures busy || JsString.AllWhiteSpace(cityName) ==> r == Attempt(None, Skip, [])
    // Otherwise exactly one request is made, with the raw (untrimmed) text.
    ensures r.geocodeQuery.Some? <==> !busy && !JsString.AllWhiteSpace(cityName)
    ensures r.geocodeQuery.Some? ==> r.geocodeQuery.value == cityName
    // The busy flag is raised before the request and lowered at the end.
    ensures r.geocodeQuery.Some? ==> r.busyWrites == [true, false]
    ensures r.decision.Skip? <==> r.geocodeQuery.None?
    // The branch taken on the geocoder's outcome.
    ensures r.decision.Dispatch? <==> r.geocodeQuery.Some? && geo.GeoResults? && |geo.places| > 0
    ensures r.decision.Dispatch? ==>
              r.decision.coords == Coordinates(geo.places[0].lat, geo.places[0].lon)
    ensures r.decision.AlertNotFound? <==> r.geocodeQuery.Some? && geo == GeoResults([])
    ensures r.decision.AlertError? <==> r.geocodeQuery.Some? && geo.GeoFailed?
  {
    JsString.TrimEmptyIffBlank(cityName);
    if busy then Attempt(None, Skip, [])
    else if JsString.Trim(cityName) == [] then Attempt(None, Skip, [])
    else
      var decision :=
        match geo
        case GeoFailed => AlertError
        case GeoResults(places) =>
          if |places| > 0 then Dispatch(Coordinates(places[0].lat, places[0].lon))
          else AlertNotFound;
      Attempt(Some(cityName), decision, [true, false])
  }

  /** The text of the blocking notification a decision shows, if any. */
  function AlertText(d: Decision): (r: Option<string>)
    ensures r.Some? <==> d.AlertNotFound? || d.AlertError?
    ensures d.AlertNotFound? ==> r == Some("City not found. Please try again.")
    ensures d.AlertError? ==> r == Some("Error fetching city location. Please try again later.")
  {
    match d
    case AlertNotFound => Some(NotFoundAlert)
    case AlertError => Some(LookupErrorAlert)
    case _ => None
  }

  /** Whatever the branch, an attempt leaves the busy flag lowered unless it
      found the flag already raised; a skipped attempt leaves it as it was. */
  lemma BusyFlagAfterAttempt(busy: bool, cityName: string, geo: GeoOutcome)
    ensures var r := FetchWeatherForCity(busy, cityName, geo);
            LastWrite(busy, r.busyWrites) == (busy && r.decision.Skip?)
    ensures var r := FetchWeatherForCity(busy, cityName, geo);
            r.decision.Skip? ==> LastWrite(busy, r.busyWrites) == busy
  {
  }

  /** At most one weather fetch per attempt: a dispatch happens exactly when
      both guards pass and the geocoder returned a non-empty list. */
  lemma DispatchExactlyWhenFound(busy: bool, cityName: string, geo: GeoOutcome)
    ensures FetchWeatherForCity(busy, cityName, geo).decision.Dispatch? <==>
              !busy && !JsString.AllWhiteSpace(cityName) && geo.GeoResults? && geo.places != []
  {
  }

  // ---------------------------------------------------------------------------
  // Derived view

  /** How many hourly entries the page shows at most (`slice(0, 24)`). */
  const HourlyLimit: nat := 24

  /** `arr.slice(0, n)` for `n >= 0`: the first `n` elements, or all of them when fewer. */
  function SliceTo<T>(arr: seq<T>, n: nat): (r: seq<T>)
    ensures |r| == if |arr| < n then |arr| else n
    ensures r == arr[..|r|]
  {
    if |arr| < n then arr else arr[..n]
  }

  /** One hourly card: the time text (absent when `time[index]` is
      `undefined`, which the page renders as an invalid date) and the reading. */
  datatype HourlyEntry = HourlyEntry(time: Option<string>, temperature: Reading)

  /** Rendering threw: a property was read from `undefined`. */
  datatype RenderFault = ReadOfUndefined

  /** `times[index]`, or `undefined` past the end of the array. */
  function TimeAt(times: seq<string>, index: nat): (r: Option<string>)
    ensures r.Some? <==> index < |times|
    ensures r.Some? ==> r.value == times[index]
  {
    if index < |times| then Some(times[index]) else None
  }

  /** `temps.map((temp, index) => ...)` with indices counted from `from`:
      the card at position `k` pairs `temps[k]` with `times[from + k]`. */
  function PairWithTimes(temps: seq<Reading>, times: seq<string>, from: nat): (r: seq<HourlyEntry>)
    ensures |r| == |temps|
    ensures forall k :: 0 <= k < |r| ==>
              r[k].temperature == temps[k] && r[k].time == TimeAt(times, from + k)
    decreases |temps|
  {
    if temps == [] then []
    else [HourlyEntry(TimeAt(times, from), temps[0])] + PairWithTimes(temps[1..], times, from + 1)
  }

  /** The hourly cards for a present `hourly` object. Reading `temperature_2m`
      or `time` when they are missing throws; `time` is only read when there
      is at least one card to draw. */
  function HourlyView(h: Hourly): (r: Result<seq<HourlyEntry>, RenderFault>)
    ensures r.Failure? <==>
              h.temperature2m.None? || (h.time.None? && h.temperature2m.value != [])
    ensures r.Success? ==>
              |r.value| == (if |h.temperature2m.value| < HourlyLimit then |h.temperature2m.value| else HourlyLimit)
    ensures r.Success? ==> forall i :: 0 <= i < |r.value| ==>
              && r.value[i].temperature == h.temperature2m.value[i]
              && (h.time.Some? ==> r.value[i].time == TimeAt(h.time.value, i))
  {
    match h.temperature2m
    case None => Failure(ReadOfUndefined)
    case Some(temps) =>
      var shown := SliceTo(temps, HourlyLimit);
      match h.time
      case None => if shown == [] then Success([]) else Failure(ReadOfUndefined)
      case Some(times) => Success(PairWithTimes(shown, times, 0))
  }

  /** Everything the page shows from the store (the input and button aside). */
  datatype Screen = Screen(
    loadingNotice: bool,
    errorNotice: Option<string>,
    current: Option<CurrentWeather>,
    hourly: Option<seq<HourlyEntry>>)

  /** The page's output for a store state; `Failure` when rendering throws. */
  function Render(s: State): (r: Result<Screen, RenderFault>)
    ensures r.Failure? <==>
              s.data.Some? && s.data.value.hourly.Some? && HourlyView(s.data.value.hourly.value).Failure?
    ensures r.Success? ==> (r.value.loadingNotice <==> s.loading)
    // The error paragraph needs a truthy message: null, undefined and "" all hide it.
    ensures r.Success? ==> (r.value.errorNotice.Some? <==> s.error.Some? && s.error.value != [])
    ensures r.Success? && r.value.errorNotice.Some? ==> r.value.errorNotice == s.error
    // The current block shows the stored object as it is.
    ensures r.Success? ==>
              (r.value.current.Some? <==> s.data.Some? && s.data.value.currentWeather.Some?)
    ensures r.Success? && r.value.current.Some? ==> r.value.current == s.data.value.currentWeather
    ensures r.Success? ==> (r.value.hourly.Some? <==> s.data.Some? && s.data.value.hourly.Some?)
    ensures r.Success? && r.value.hourly.Some? ==>
              HourlyView(s.data.value.hourly.value) == Success(r.value.hourly.value)
  {
    var current := if s.data.Some? then s.data.value.currentWeather else None;
    var hourly := if s.data.Some? then s.data.value.hourly else None;
    var errorNotice := if s.error.Some? && s.error.value != [] then s.error else None;
    match hourly
    case None => Success(Screen(s.loading, errorNotice, current, None))
    case Some(h) =>
      match HourlyView(h)
      case Failure(e) => Failure(e)
      case Success(cards) => Success(Screen(s.loading, errorNotice, current, Some(cards)))
  }

  /** Fewer than 24 hourly readings are shown as they are, without padding. */
  lemma ShortHourlyNotPadded(h: Hourly)
    requires h.temperature2m.Some? && h.time.Some? && |h.temperature2m.value| < HourlyLimit
    ensures HourlyView(h).Success? && |HourlyView(h).value| == |h.temperature2m.value|
  {
  }

  /** A payload without `hourly` still renders its current block and omits the hourly one. */
  lemma PartialPayloadRenders(s: State, c: CurrentWeather)
    requires s.data == Some(WeatherPayload(Some(c), None))
    ensures Render(s).Success?
    ensures Render(s).value.current == Some(c) && Render(s).value.hourly.None?
  {
  }
}
