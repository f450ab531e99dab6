/** The whole search as one sequential step: the page's decision, then, when
    it dispatches, the weather fetch's pending action followed by its
    settlement, applied to the store. */
module Flow {
  import opened Wrappers
  import opened Payload
  import opened WeatherSlice
  import opened Home

  /** How the forecast request for given coordinates settles: the parsed
      body, or the message of the thrown network or JSON error. */
  datatype FetchOutcome = Loaded(payload: WeatherPayload) | Failed(message: Option<string>)

  /** The actions one `fetchWeather` dispatch feeds the reducer. */
  function Lifecycle(f: FetchOutcome): (trace: seq<Action>)
    ensures |trace| == 2 && trace[0] == Pending
    ensures f.Loaded? <==> trace[1].Fulfilled?
    ensures f.Loaded? ==> trace[1].payload == f.payload
    ensures f.Failed? ==> trace[1] == Rejected(f.message)
  {
    match f
    case Loaded(p) => [Pending, Fulfilled(p)]
    case Failed(m) => [Pending, Rejected(m)]
  }

  /** One search from store state `s`: the attempt the page makes and the
      store state once any weather fetch it started has settled. The
      forecast service is a parameter, so the fetch is seen to use the
      coordinates the page chose. */
  function Search(s: State, busy: bool, cityName: string, geo: GeoOutcome,
                  forecast: Coordinates -> FetchOutcome): (r: (Attempt, State))
    ensures r.0 == FetchWeatherForCity(busy, cityName, geo)
    // No dispatch, no change to the store: skips and both alerts.
    ensures !r.0.decision.Dispatch? ==> r.1 == s
    ensures r.0.decision.Dispatch? ==>
              match forecast(r.0.decision.coords)
              case Loaded(p) => r.1 == State(Some(p), false, None)
              case Failed(m) => r.1 == State(s.data, false, m)
  {
    var attempt := FetchWeatherForCity(busy, cityName, geo);
    match attempt.decision
    case Dispatch(coords) =>
      var trace := Lifecycle(forecast(coords));
      RunTwo(s, trace[0], trace[1]);
      assert trace == [trace[0], trace[1]];
      (attempt, Run(s, trace))
    case _ => (attempt, s)
  }

  /** London resolves to its first match and the fetched payload is stored. */
  lemma ScenarioFound(p: WeatherPayload, forecast: Coordinates -> FetchOutcome)
    requires forecast(Coordinates("51.5", "-0.1")) == Loaded(p)
    ensures var r := Search(Initial, false, "London", GeoResults([Place("51.5", "-0.1")]), forecast);
            r.0.decision == Dispatch(Coordinates("51.5", "-0.1"))
            && r.1 == State(Some(p), false, None)
  {
    assert !JsString.IsWhiteSpace("London"[0]);
    var a := FetchWeatherForCity(false, "London", GeoResults([Place("51.5", "-0.1")]));
    assert a.decision == Dispatch(Coordinates("51.5", "-0.1"));
  }

  /** An unknown city raises the not-found alert and leaves the store empty. */
  lemma ScenarioNotFound(forecast: Coordinates -> FetchOutcome)
    ensures var r := Search(Initial, false, "Nowhere123", GeoResults([]), forecast);
            r.0.decision == AlertNotFound
            && AlertText(r.0.decision) == Some("City not found. Please try again.")
            && r.1 == Initial
  {
    assert !JsString.IsWhiteSpace("Nowhere123"[0]);
    var a := FetchWeatherForCity(false, "Nowhere123", GeoResults([]));
    assert a.decision == AlertNotFound;
  }

  /** A failing forecast request records its message and keeps the data shown before. */
  lemma ScenarioForecastFails(s: State, busy: bool, cityName: string, geo: GeoOutcome,
                              forecast: Coordinates -> FetchOutcome)
    requires FetchWeatherForCity(busy, cityName, geo).decision.Dispatch?
    requires forecast(FetchWeatherForCity(busy, cityName, geo).decision.coords).Failed?
    ensures var r := Search(s, busy, cityName, geo, forecast);
            r.1.data == s.data && !r.1.loading
            && r.1.error == forecast(r.0.decision.coords).message
  {
  }

  /** A blank city text or a search already under way changes nothing. */
  lemma BlankOrBusyChangesNothing(s: State, busy: bool, cityName: string, geo: GeoOutcome,
                                  forecast: Coordinates -> FetchOutcome)
    requires busy || JsString.AllWhiteSpace(cityName)
    ensures Search(s, busy, cityName, geo, forecast) == (Attempt(None, Skip, []), s)
  {
  }

  /** Repeating a successful search for the same city gives the same store. */
  lemma RepeatedSearchSameData(s: State, cityName: string, geo: GeoOutcome,
                               forecast: Coordinates -> FetchOutcome)
    requires FetchWeatherForCity(false, cityName, geo).decision.Dispatch?
    requires forecast(FetchWeatherForCity(false, cityName, geo).decision.coords).Loaded?
    ensures var once := Search(s, false, cityName, geo, forecast).1;
            Search(once, false, cityName, geo, forecast).1 == once
  {
  }
}
