/** The forecast service's response, as the app keeps it: a loosely structured
    record in which every field may be absent, because nothing validates it. */
module Payload {
  import opened Wrappers

  /** A JSON number from the forecast service. No decision of the app looks at
      the value of a reading, so an integer stands in for the floating-point
      number; readings are only ever passed through. */
  type Reading = int

  /** The `current_weather` object. */
  datatype CurrentWeather = CurrentWeather(
    temperature: Option<Reading>,
    windspeed: Option<Reading>,
    winddirection: Option<Reading>,
    time: Option<string>)

  /** The `hourly` object: two parallel arrays that nothing forces to have the same length. */
  datatype Hourly = Hourly(
    temperature2m: Option<seq<Reading>>,
    time: Option<seq<string>>)

  /** The whole response body, e.g. `{ current_weather: {...}, hourly: {...} }`. */
  datatype WeatherPayload = WeatherPayload(
    currentWeather: Option<CurrentWeather>,
    hourly: Option<Hourly>)
}
