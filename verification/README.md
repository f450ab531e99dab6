# Weather app core in Dafny

A model of the two pieces of logic in a small browser weather app (a React
page backed by a Redux Toolkit store):

- **the `weather` slice** (`src/features/weather/weatherSlice.js`): the state
  `{ data, loading, error }`, its initial value, and the four transitions that
  change it — the `pending`, `fulfilled` and `rejected` cases of the
  `fetchWeather` thunk and the `clearWeather` reducer. `WeatherSlice.Step` is
  the reducer; `WeatherSlice.Run` folds it over any sequence of actions, which
  also covers arbitrary interleavings of overlapping fetches.
- **the home page** (`src/pages/Home.jsx`): the decision made by
  `fetchWeatherForCity` (busy guard, blank-text guard, then the branch on the
  geocoder's answer), and the view derived from the store (loading notice,
  error notice, current-weather block, first 24 hourly cards).

Files:

| file | contents |
|---|---|
| `wrappers.dfy` | `Option` (`null`/`undefined` as `None`) and `Result` (a value or a thrown error) |
| `payload.dfy` | the forecast response as a loosely structured record in which every field may be absent |
| `weather_slice.dfy` | state, actions, reducer, trace semantics, last-writer reference definition and lemmas |
| `js_string.dfy` | JavaScript's `trim`, with the ECMAScript white-space set |
| `home.dfy` | city-search decision, hourly pairing, page view |
| `flow.dfy` | one search end to end: decision, fetch lifecycle, resulting store |

The network, `alert`, and React are parameters or outputs: the geocoder's
answer is a `GeoOutcome` argument, the forecast service is a function
`Coordinates -> FetchOutcome`, an alert is a `Decision` value, and the page's
local busy flag is an input together with the list of writes made to it.

Behaviour of the code worth knowing:

- `pending` only sets `loading` (`src/features/weather/weatherSlice.js:34-36`),
  so an earlier error stays until the fetch settles (`WeatherSlice.PendingEffect`).
- With two overlapping fetches, the first to settle lowers `loading` while the
  other is still outstanding (`WeatherSlice.OverlappingFetchesSettleEarly`,
  `WeatherSlice.LoadingIffLastWriterPending`). The last *fulfilled* fetch
  decides the data; a later rejection only sets the error
  (`WeatherSlice.LastFulfilledWins`).
- The error paragraph is drawn only for a truthy message
  (`src/pages/Home.jsx:65`), so an empty message is stored but not shown.

## Model

| member | source | states |
|---|---|---|
| WeatherSlice.Step | src/features/weather/weatherSlice.js:26-47 | each action writes only its own fields: `pending` sets `loading` alone; `fulfilled` stores the payload verbatim, lowers `loading`, clears the error; `rejected` sets error and lowers `loading` but keeps data; `clearWeather` empties data and error but keeps `loading` |
| WeatherSlice.Run | src/features/weather/weatherSlice.js:26-47 | a sequence of dispatches: the empty sequence changes nothing, and whatever came before, the fields the final action writes hold that action's values |
| WeatherSlice.InitialIsEmpty | src/features/weather/weatherSlice.js:19-23 | the store starts with no data, not loading and no error |
| WeatherSlice.PendingEffect | src/features/weather/weatherSlice.js:34-36 | `pending` raises `loading` and keeps the previous data and the previous error |
| WeatherSlice.FulfilledEffect | src/features/weather/weatherSlice.js:38-42 | `fulfilled(p)` yields exactly `{data: p, loading: false, error: null}` from any state, the payload stored verbatim |
| WeatherSlice.RejectedEffect | src/features/weather/weatherSlice.js:44-47 | `rejected(m)` stores `m` as the error, lowers `loading`, and leaves stale data in place |
| WeatherSlice.ClearEffect | src/features/weather/weatherSlice.js:26-29 | `clearWeather` empties data and error and does not touch `loading` |
| WeatherSlice.SettledNotLoading | src/features/weather/weatherSlice.js:38-47 | after any `fulfilled` or `rejected`, `loading` is false whatever the prior state |
| WeatherSlice.FulfilledIdempotent | src/features/weather/weatherSlice.js:38-42 | applying the same `fulfilled(p)` twice equals applying it once |
| WeatherSlice.RunTwo | src/features/weather/weatherSlice.js:31-48 | a two-action trace is the reducer applied twice |
| WeatherSlice.PendingThenFulfilled | src/features/weather/weatherSlice.test.js:139-168 | `pending` then `fulfilled(p)` from any state ends in `{p, false, null}`, the hourly readings of `p` kept with their exact length and contents |
| WeatherSlice.RunSnoc | src/features/weather/weatherSlice.js:31-48 | running a trace extended by one action is one more reducer step |
| WeatherSlice.RunIsLastWriter | src/features/weather/weatherSlice.js:26-47 | after any trace, each field holds what the last action writing it wrote (or its start value), as given by an independent backwards definition |
| WeatherSlice.LastFulfilledWins | src/features/weather/weatherSlice.js:38-47 | a `fulfilled(p)` followed only by `pending`/`rejected` actions leaves `p` as the data: the last fulfilled fetch wins and a later rejection does not remove it |
| WeatherSlice.DataAfterLastFulfilled | src/features/weather/weatherSlice.js:38-47 | the reference data value after a trace is the payload of its last `fulfilled` when only `pending`/`rejected` follow it |
| WeatherSlice.LoadingIffLastWriterPending | src/features/weather/weatherSlice.js:34-47 | `loading` after a trace is true iff the last action other than `clearWeather` is `pending` |
| WeatherSlice.LoadingAfterLastWriter | src/features/weather/weatherSlice.js:34-47 | the reference loading value is decided by the last non-clear action of the trace |
| WeatherSlice.OverlappingFetchesSettleEarly | src/features/weather/weatherSlice.js:34-42 | two `pending`s then one `fulfilled` leave `loading` false although one request is outstanding |
| JsString.WhiteSpaceByCodePoint | src/pages/Home.jsx:18 | the characters `trim` removes are exactly the ECMAScript WhiteSpace and LineTerminator code points: U+0009-000D, U+0020, U+00A0, U+1680, U+2000-200A, U+2028, U+2029, U+202F, U+205F, U+3000, U+FEFF |
| JsString.TrimStart | src/pages/Home.jsx:18 | the result is the suffix of the text starting at its first non-white-space character; everything dropped is white space |
| JsString.TrimEnd | src/pages/Home.jsx:18 | the result is the prefix of the text ending at its last non-white-space character; everything dropped is white space |
| JsString.Trim | src/pages/Home.jsx:18 | `trim` returns a contiguous slice of the text with no white space at either end, and only white space outside it |
| JsString.TrimEmptyIffBlank | src/pages/Home.jsx:18 | `cityName.trim()` is empty exactly when the text is empty or all white space |
| Home.FetchWeatherForCity | src/pages/Home.jsx:16-42 | busy or blank text: skip with no request and no busy write; otherwise one geocode request with the raw text, busy raised then lowered, and exactly one of dispatch with element 0's coordinates (non-empty list), not-found alert (empty list), error alert (failed request) |
| Home.AlertText | src/pages/Home.jsx:31-38 | a notification is shown exactly for the not-found and error decisions, with the texts "City not found. Please try again." and "Error fetching city location. Please try again later." respectively |
| Home.BusyFlagAfterAttempt | src/pages/Home.jsx:17-41 | after an attempt the busy flag is lowered unless the attempt found it raised; skipped attempts leave it unchanged |
| Home.DispatchExactlyWhenFound | src/pages/Home.jsx:17-30 | a weather fetch is dispatched iff not busy, the text is not blank and the geocoder returned a non-empty list |
| Home.SliceTo | src/pages/Home.jsx:81 | `slice(0, n)` has `min(length, n)` elements and is a prefix of the array |
| Home.TimeAt | src/pages/Home.jsx:83 | `time[index]` is defined iff the index is inside the array, and is then that element |
| Home.PairWithTimes | src/pages/Home.jsx:81-86 | the map keeps one card per reading, card `k` holding reading `k` and `time[from + k]` |
| Home.HourlyView | src/pages/Home.jsx:76-86 | rendering throws iff `temperature_2m` is missing or `time` is missing with at least one card; otherwise exactly `min(len, 24)` cards, card `i` pairing `time[i]` with `temperature_2m[i]` |
| Home.Render | src/pages/Home.jsx:44-89 | current block shown iff data is non-null and has `current_weather` (shown unchanged); hourly block iff data has `hourly`; loading notice iff loading; error notice iff the error is a non-empty string; rendering throws only through the hourly block |
| Home.ShortHourlyNotPadded | src/pages/Home.jsx:81 | fewer than 24 hourly readings give that many cards, without padding |
| Home.PartialPayloadRenders | src/features/weather/weatherSlice.test.js:45-57 | a payload without `hourly` renders its current block and no hourly block |
| Flow.Lifecycle | src/features/weather/weatherSlice.js:6-14 | one `fetchWeather` dispatch feeds `pending` and then `fulfilled` with the body or `rejected` with the error message |
| Flow.Search | src/pages/Home.jsx:16-42 | without a dispatch the store is unchanged; with one, the forecast for the chosen coordinates decides the store: `{p, false, null}` or `{old data, false, message}` |
| Flow.ScenarioFound | src/pages/Home.jsx:25-30 | "London" with one match dispatches that match's coordinates and stores the fetched payload |
| Flow.ScenarioNotFound | src/pages/Home.test.jsx:63-89 | an empty geocoder answer raises "City not found. Please try again." and leaves the empty store unchanged |
| Flow.ScenarioForecastFails | src/features/weather/weatherSlice.test.js:32-43 | a failing forecast request lowers `loading`, records the message and keeps the earlier data |
| Flow.BlankOrBusyChangesNothing | src/pages/Home.jsx:17-18 | a busy page or a blank city text makes no request and leaves the store as it was |
| Flow.RepeatedSearchSameData | src/features/weather/weatherSlice.js:38-42 | repeating a successful search with the same answers gives the same store |

## Left out

- Network requests (the geocoding and forecast `fetch` calls, their URLs and query strings) and JSON parsing: modelled only as their outcomes, `GeoOutcome` and `FetchOutcome`.
- `parseFloat` of `lat` / `lon` and every numeric value: floating point. Coordinates are kept as the first match's `lat` / `lon` texts, readings as integers that are only passed through.
- `alert`, `console.error`, and the `Date` / `toLocaleString` / `toLocaleTimeString` formatting: side effects and locale-dependent output. An alert is a `Decision`; an hourly card keeps the raw time text.
- React: rendering markup and styling, `useState` / `useSelector` hooks, the blur and click call sites, and the inputs disabled while the store is loading.
- `src/App.jsx`, `src/main.jsx` and `src/store.js`: routing, DOM mount and store wiring, with no logic.
- Redux Toolkit internals: action-type generation, the request ids and `meta` attached to lifecycle actions, the thunk's `condition` and abort handling, and the reducer's answer to unrelated actions. The pending-then-settled sequence itself is modelled by `Flow.Lifecycle`.
- Asynchronous timing: `setLoading(false)` runs before the dispatched weather fetch settles, and overlapping searches interleave; `Flow.Search` runs one search to completion, while `WeatherSlice.Run` covers any interleaving of the reducer's actions.
- Home.FetchWeatherForCity: the busy flag is a plain input; React's stale-closure reading of it between renders is not modelled.
