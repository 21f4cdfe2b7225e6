# Weather forecast service — a Dafny model

This project models the logic of a small weather application. It has two
halves.

The backend (node.api) takes a city name from `GET /api/weather?city=...`
and checks it. It then asks the OpenWeather provider for the current
conditions and the 5-day/3-hour forecast. From the forecast it builds up to
six daily summaries:

- the samples are grouped by calendar day;
- each day's extreme temperatures are rounded;
- humidity and wind speed are averaged;
- a dominant weather category is chosen by majority vote, the first-seen
  category winning ties;
- the category is classified as sun, cloud or rain.

The frontend (vite-fe) has its own validation schema for the search box,
three small display helpers, and the page state that a search updates.

Modules, one per file:

| file | module | models |
|---|---|---|
| `wrappers.dfy` | `Wrappers` | `Option` and `Result` |
| `jstext.dfy` | `JsText` | the JavaScript string operations the code uses: `toLowerCase`, `includes`, `trim`, `split(sep)[0]`, the global `replace` of a character class, `substring(0, n)` |
| `jsmath.dfy` | `JsMath` | `Math.round` and rounding to one decimal |
| `jsmap.dfy` | `JsMap` | a JavaScript `Map`, which keeps insertion order |
| `sequences.dfy` | `Sequences` | first-seen distinct elements, occurrence counts, min/max/sum/mean |
| `weather_types.dfy` | `WeatherTypes` | the provider and response record shapes |
| `openweather_client.dfy` | `OpenWeatherClient` | `OpenWeatherApiError`, `getApiKey`, `handleApiError` |
| `weather_service.dfy` | `WeatherService` | `getCondition`, `groupForecastByDay`, `processDailyForecast`, the six-day loop and the current-conditions record of `getWeatherByCity` |
| `weather_controller.dfy` | `WeatherController` | `sanitizeCity`, `validateCity`, `getClientIp`, `getWeather` |
| `search_form.dfy` | `SearchForm` | the form's `searchSchema` |
| `forecast_card.dfy` | `ForecastCard` | `normalize` and `getTemperatureBarWidth` |
| `current_weather_card.dfy` | `CurrentWeatherCard` | `getTemperatureColor` |
| `app.dfy` | `App` | `getBackgroundClass`, the view conditions, and `handleSearch`/`handleRetry` as a class over the four state cells |

How the code's shape carries over:

- Loops that update variables are methods with loop invariants. Each is
  proved against a specification function, and the properties are proved
  about that function. This covers `groupForecastByDay`, the three loops of
  `processDailyForecast` and the six-day loop.
- Expression-only code is a function.
- The page component's state is a class.

Numbers are reals. `Math.round(x)` is `floor(x + 0.5)`, which rounds halves
toward +∞ as JavaScript does.

Inputs the model cannot see are parameters:

- the provider's answers;
- the `OPENWEATHER_API_KEY` environment variable;
- the Unicode letter/mark class;
- the outcome of the frontend's HTTP request.

Two facts about the code that are easy to miss:

- **The 100-character limit in `validateCity` never fires.** `sanitizeCity`
  cuts the city to 100 characters before the length is checked, so no
  input is ever answered with the too-long message
  (`WeatherController.MaxLengthNeverReported`). An over-long city of
  allowed characters with no markup character is accepted in its shortened
  form (`WeatherController.MaxLengthUnreachable`).
- **`Math.round` rounds halves up**, toward +∞, not away from zero
  (`JsMath.Round`).

## Model

| member | source | states |
|---|---|---|
| JsText.ToLower | node.api/src/services/weather.service.ts:11 | keeps the length; each character is its lower-case form (ASCII letters) |
| JsText.IncludesIff | node.api/src/services/weather.service.ts:12 | `JsText.Includes`, the model of `includes`, holds exactly when the word occurs at some position |
| JsText.Trim | node.api/src/controllers/weather.controller.ts:14 | the result is a contiguous piece of the input that starts where the leading whitespace ends, and neither of its ends is whitespace |
| JsText.TrimStartDropsWhitespace | node.api/src/controllers/weather.controller.ts:14 | every character `TrimStart`, the first half of `trim`, cuts from the front is whitespace |
| JsText.TrimEndDropsWhitespace | node.api/src/controllers/weather.controller.ts:14 | every character `TrimEnd`, the second half of `trim`, cuts from the back is whitespace |
| JsText.TrimCutsOnlyWhitespace | node.api/src/controllers/weather.controller.ts:14 | what `trim` removes is exactly the leading and the trailing whitespace: every character before the result and every character after it is whitespace |
| JsText.Strip | node.api/src/controllers/weather.controller.ts:15 | a character is in the result exactly when it is in the input and not banned; the result is no longer than the input |
| JsText.StripChar | node.api/src/controllers/weather.controller.ts:15 | a single character is dropped exactly when it is banned |
| JsText.StripAppend | node.api/src/controllers/weather.controller.ts:15 | the global replace keeps the order: the strip of a concatenation is the concatenation of the strips |
| JsText.StripNothing | node.api/src/controllers/weather.controller.ts:15 | stripping a string that has no banned character returns it unchanged |
| JsText.Prefix | node.api/src/controllers/weather.controller.ts:16 | `substring(0, n)` is the first `min(n, length)` characters |
| JsText.FirstField | node.api/src/services/weather.service.ts:25 | `split(sep)[0]` is the prefix before the first separator, and it holds no separator |
| JsMath.Round | node.api/src/services/weather.service.ts:54 | `Math.round(x)` is within half a unit of `x`, halves rounding up |
| JsMath.RoundMonotone | node.api/src/services/weather.service.ts:73-74 | rounding preserves `<=` |
| JsMath.RoundTenth | node.api/src/services/weather.service.ts:55 | `Math.round(x * 10) / 10` is within 0.05 of `x` |
| JsMap.Empty | node.api/src/services/weather.service.ts:22 | `new Map()` has no keys and no entries |
| JsMap.OrderedMap.Get | node.api/src/services/weather.service.ts:27 | `Map.get` finds a value exactly for a key that is present, and that value is the key's entry |
| JsMap.OrderedMap.Set | node.api/src/services/weather.service.ts:29 | `Map.set` keeps existing keys in place, appends a new key last, and updates only that key's value |
| WeatherService.GetConditionByOccurrence | node.api/src/services/weather.service.ts:10-19 | `WeatherService.GetCondition`, the model of `getCondition`, gives rain exactly when a rain word occurs in the lower-cased category; cloud exactly when no rain word but a cloud word occurs; sun otherwise |
| WeatherService.GetConditionIgnoresCase | node.api/src/services/weather.service.ts:11 | upper- or lower-casing the category does not change the result |
| WeatherService.GetConditionExamples | node.api/src/services/weather.service.ts:12-18 | "Thunderstorm" is rain; "" is sun |
| WeatherService.DrizzleExample | node.api/src/services/weather.service.ts:12-13 | "Drizzle" is rain |
| WeatherService.CloudsExample | node.api/src/services/weather.service.ts:15-16 | "Clouds" is cloud |
| WeatherService.MistExample | node.api/src/services/weather.service.ts:15-16 | "Mist" is cloud |
| WeatherService.ClearExample | node.api/src/services/weather.service.ts:18 | "Clear" is sun |
| WeatherService.DayKeys | node.api/src/services/weather.service.ts:25-26 | no date key taken into the grouping is empty; each key is `WeatherService.DateKey`, which is `dt_txt.split(' ')[0]` through `JsText.FirstField` |
| WeatherService.GroupForecastByDay | node.api/src/services/weather.service.ts:21-34 | the map built by the loop is the grouping of the samples (one entry per distinct non-empty date key, in first-seen order, holding that day's samples in input order) |
| WeatherService.GroupingExtends | node.api/src/services/weather.service.ts:24-30 | one more sample appends to its day's group (`WeatherService.Existing` is `grouped.get(date) ?? []`), or creates the day at the end of the order; a sample with an empty date changes nothing |
| WeatherService.GroupingProperties | node.api/src/services/weather.service.ts:21-34 | keys are distinct, non-empty and in first-seen order; every group is non-empty and holds exactly the samples of its date; every sample with a non-empty date is in some group |
| WeatherService.GroupOfMembers | node.api/src/services/weather.service.ts:25-29 | a sample is in a date's group exactly when it is a sample whose date key is that date |
| WeatherService.DayKeysMembers | node.api/src/services/weather.service.ts:25-26 | a date is a key exactly when it is non-empty and some sample has it |
| WeatherService.ScanSamples | node.api/src/services/weather.service.ts:43-52 | the loop's running min/max are the minimum of `temp_min` and the maximum of `temp_max`; its totals are the sums of humidity and wind speed; the tags are each sample's first tag, in order |
| WeatherService.CountConditions | node.api/src/services/weather.service.ts:57-60 | the counting map holds one entry per distinct tag, in first-seen order, with its number of occurrences |
| WeatherService.TallyExtends | node.api/src/services/weather.service.ts:58-59 | counting one more occurrence keeps the tally exact |
| WeatherService.PickDominant | node.api/src/services/weather.service.ts:62-69 | the strict-`>` walk over the map from ("Clear", 0) ends on the dominant category |
| WeatherService.ScanFindsFirstMaximum | node.api/src/services/weather.service.ts:62-69 | the walk ends on the first category with the greatest count, and holds that count |
| WeatherService.DominantIsDominant | node.api/src/services/weather.service.ts:57-69 | the chosen category has the greatest count, is the earliest-seen among those tied at that count, and is "Clear" when there are no tags |
| WeatherService.DominantUnique | node.api/src/services/weather.service.ts:57-69 | at most one category is dominant |
| WeatherService.MajorityExample | node.api/src/services/weather.service.ts:62-69 | in ["Clouds","Rain","Clouds"] and ["Rain","Clouds","Clouds"] the dominant category is "Clouds" |
| WeatherService.TieBreakExample | node.api/src/services/weather.service.ts:62-69 | in ["Clouds","Rain"] the first-seen "Clouds" wins the tie; with no tags the dominant category is "Clear" |
| WeatherService.ProcessDailyForecast | node.api/src/services/weather.service.ts:36-80 | the day's record is the daily summary: rounded extremes, rounded mean humidity, mean wind rounded to 0.1, the dominant category and its sky condition |
| WeatherService.DailyTemperaturesOrdered | node.api/src/services/weather.service.ts:44-45 | if no sample's minimum exceeds its maximum, the day's `tempMin <= tempMax` |
| WeatherService.DailyExtremesAttained | node.api/src/services/weather.service.ts:44-45 | the day's `tempMin` is the rounded `temp_min` of one of its samples and no sample's rounded `temp_min` is lower; the day's `tempMax` is the rounded `temp_max` of one of its samples and no sample's rounded `temp_max` is higher |
| WeatherService.DailyAveragesBounded | node.api/src/services/weather.service.ts:46-47 | the day's humidity and wind speed lie between the rounded smallest and the rounded largest sample value |
| WeatherService.DailyDescriptionFromTags | node.api/src/services/weather.service.ts:48-51 | the description is one of the samples' first tags, or "Clear" with sky condition sun when no sample has a tag |
| WeatherService.BuildForecast | node.api/src/services/weather.service.ts:113-123 | the daily list is the summaries of the first six groups, in map order |
| WeatherService.EntriesOfGrouping | node.api/src/services/weather.service.ts:113-118 | the entries the loop walks over are the days of the samples, in first-seen order, and none of their groups is empty |
| WeatherService.SummarizeFirstDays | node.api/src/services/weather.service.ts:116-123 | the `daysAdded < 6` loop over the map's entries summarises exactly the first `min(6, entries)` of them, in iteration order |
| WeatherService.AddDay | node.api/src/services/weather.service.ts:120 | pushing the summary of the next entry extends a forecast of the first `n` entries to one of the first `n + 1` |
| WeatherService.ForecastDays | node.api/src/services/weather.service.ts:116-123 | exactly `min(6, number of dates)` days; the i-th day summarises the i-th date's non-empty group and carries that date; no date repeats |
| WeatherService.NormalizeCurrent | node.api/src/services/weather.service.ts:125-138 | temperatures rounded to the nearest integer, humidity copied, wind the nearest tenth (within 0.05 and a whole number of tenths); without a first tag the condition is sun and the description "Céu limpo"; otherwise both come from the first tag |
| WeatherService.GetWeatherByCity | node.api/src/services/weather.service.ts:106-150 | fails exactly when a fetch fails, passing that failure on unchanged; on success the city and country come from the current record and the forecast is the six-day list |
| OpenWeatherClient.GetApiKey | node.api/src/clients/openweather.client.ts:20-26 | an absent or empty key is a 500 error that is not a not-found error; otherwise the key |
| OpenWeatherClient.HandleApiError | node.api/src/clients/openweather.client.ts:28-39 | not-found exactly for an HTTP 404 from the provider, with status 404 and a message naming the city; everything else is 500; a 401 gives the authentication message; any other axios failure, with another status or no response at all, gives the message about failing to reach the weather service; a non-axios failure gives the internal-error message |
| OpenWeatherClient.NotFoundNamesCity | node.api/src/clients/openweather.client.ts:31 | the not-found message quotes the city verbatim |
| OpenWeatherClient.Fetch | node.api/src/clients/openweather.client.ts:41-77 | a request is made only when the key is set; a missing key fails with the key error; a request's failure becomes `handleApiError`'s error |
| WeatherController.SanitizeCity | node.api/src/controllers/weather.controller.ts:12-17 | the result has at most 100 characters and none of `< > " ' & ;` |
| WeatherController.SanitizeKeeps | node.api/src/controllers/weather.controller.ts:12-17 | every character of the result comes from the input; a clean input of at most 100 characters after trimming comes out as its trimmed self |
| WeatherController.StripAfterTrimExposesSpace | node.api/src/controllers/weather.controller.ts:13-15 | stripping after trimming turns "<", space, letter into space, letter |
| WeatherController.SanitizeExposesWhitespace | node.api/src/controllers/weather.controller.ts:13-16 | the sanitised "< a" is " a", which starts with whitespace |
| WeatherController.ValidateCity | node.api/src/controllers/weather.controller.ts:19-39 | valid exactly for a non-empty string whose sanitised form has at least 2 characters, all of them letters, marks, whitespace, `-`, `'` or `.` (the regular expression at line 34, modelled as `WeatherController.MatchesCityPattern` over `WeatherController.Allowed`); then the sanitised form is returned with 2 to 100 characters; otherwise the first failing check's message |
| WeatherController.LongCitySanitizes | node.api/src/controllers/weather.controller.ts:12-17 | a clean city that is longer than 100 characters after trimming sanitises to its first 100 trimmed characters |
| WeatherController.MaxLengthNeverReported | node.api/src/controllers/weather.controller.ts:30-32 | for every query value, `validateCity` never returns the too-long message |
| WeatherController.MaxLengthUnreachable | node.api/src/controllers/weather.controller.ts:30-32 | an over-long city of allowed characters (letters, marks, whitespace, `-`, `.`) with no markup character is accepted, cut to its first 100 trimmed characters, not rejected |
| WeatherController.GetClientIp | node.api/src/controllers/weather.controller.ts:41-48 | a single forwarded header gives a comma-free address with no whitespace at its ends; otherwise the socket address |
| WeatherController.ClientIpFromHeader | node.api/src/controllers/weather.controller.ts:43-45 | the address is the piece of the header at `i`, inside the part before the first comma, and every other character of that part is whitespace: it is that part with its leading and trailing whitespace removed |
| WeatherController.TrimmedPrefixOccurs | node.api/src/controllers/weather.controller.ts:44-45 | the trimmed first field occurs inside that field of the header |
| WeatherController.EmptyForwardedHeader | node.api/src/controllers/weather.controller.ts:43-45 | an empty single header gives an empty address, not the socket address |
| WeatherController.GetWeather | node.api/src/controllers/weather.controller.ts:50-86 | invalid input is 400 "Bad Request" with the validation message; a success is 200 with the weather; a provider error is 404 "Not Found" if it is a not-found error, else 500, with its message; any other failure is 500 with the fixed message |
| WeatherController.StatusCodes | node.api/src/controllers/weather.controller.ts:54-85 | the status is 200, 400, 404 or 500; 400 exactly for invalid input; 200 exactly for a successful lookup; 404 exactly for a not-found provider error |
| WeatherController.UnknownCityIsNotFound | node.api/src/controllers/weather.controller.ts:71-77 | a valid city the provider reports unknown is answered 404 with a message quoting the sanitised city |
| SearchForm.Clean | vite-fe/src/components/SearchForm.tsx:15 | the transform never lengthens the input and leaves none of `< > " ' & ;` |
| SearchForm.ParseSearch | vite-fe/src/components/SearchForm.tsx:10-24 | accepted exactly when the raw length is 2 to 100 and the transformed value has at least 2 characters, all allowed (`WeatherController.MatchesCityPattern`, the same regular expression as line 21); the accepted value is the transformed one; each rejection (too short, too long, too few valid characters, invalid characters) carries the first failing check's message |
| SearchForm.AcceptedBounds | vite-fe/src/components/SearchForm.tsx:13-23 | an accepted city has 2 to 100 characters, no markup character, and only allowed characters |
| SearchForm.LongInputRejectedHereTruncatedThere | vite-fe/src/components/SearchForm.tsx:14 | an over-long city of allowed characters with no markup character is rejected by the form, while the backend accepts its first 100 trimmed characters |
| SearchForm.CleanCitySanitizes | node.api/src/controllers/weather.controller.ts:12-17 | the backend sanitises a short clean city to its trimmed self, which still has only allowed characters |
| SearchForm.BackendOnAccepted | vite-fe/src/components/SearchForm.tsx:15-23 | the backend accepts the value the form sends exactly when at least 2 characters remain after trimming, and then looks up the trimmed value; otherwise it says "too short" |
| SearchForm.SpaceLetterMatches | vite-fe/src/components/SearchForm.tsx:21 | a space followed by a letter matches the city pattern |
| SearchForm.ExposedSpaceAccepted | vite-fe/src/components/SearchForm.tsx:15-23 | the form accepts "< a" and sends " a" |
| SearchForm.SanitizeLeadingSpace | node.api/src/controllers/weather.controller.ts:13-16 | the backend sanitises a space followed by a character to at most one character |
| SearchForm.ExposedSpaceRejectedThere | node.api/src/controllers/weather.controller.ts:26-28 | the backend rejects " a" as too short |
| ForecastCard.Normalize | vite-fe/src/components/ForecastCard.tsx:21 | the position is in [0, 100]; 0 at or below -10 degrees; 100 at or above 45 degrees; linear in between |
| ForecastCard.NormalizeMonotone | vite-fe/src/components/ForecastCard.tsx:21 | a warmer temperature is never placed further left |
| ForecastCard.GetTemperatureBarWidth | vite-fe/src/components/ForecastCard.tsx:19-26 | both positions are the normalised temperatures, within [0, 100] |
| ForecastCard.BarOrdered | vite-fe/src/components/ForecastCard.tsx:84-91 | for a day with `tempMin <= tempMax` the bar's left end does not pass its right end |
| CurrentWeatherCard.GetTemperatureColor | vite-fe/src/components/CurrentWeatherCard.tsx:12-18 | blue below 10, cyan below 18, emerald below 24, amber below 30, orange from 30 |
| CurrentWeatherCard.ColorMonotone | vite-fe/src/components/CurrentWeatherCard.tsx:12-18 | every temperature gets one of the five colours, and a warmer one never gets a colder band |
| App.GetBackgroundClass | vite-fe/src/App.tsx:14-25 | sun, cloud and rain get their `weather-bg-*` class; no condition gets the default gradient |
| App.BackgroundsDistinct | vite-fe/src/App.tsx:14-25 | different inputs give different backgrounds |
| App.Background | vite-fe/src/App.tsx:59-60 | the background follows the displayed weather's current condition, or is the default without weather |
| App.ExactlyOneView | vite-fe/src/App.tsx:89-130 | exactly one view is shown: the skeleton while loading, else the error if it is non-empty, else the data if any, else the empty state |
| App.SettledViews | vite-fe/src/App.tsx:89-130 | after a completed search the data view shows exactly on success; the error view exactly on a failure with a non-empty message; the empty state exactly on a failure with an empty message |
| App.Page.constructor | vite-fe/src/App.tsx:28-31 | no weather, not loading, no error, no last search |
| App.Page.BeginSearch | vite-fe/src/App.tsx:33-36 | loading, error cleared, city remembered, weather unchanged, only the skeleton shown |
| App.Page.FinishSearch | vite-fe/src/App.tsx:38-50 | success stores the data; failure clears the weather and stores the server message or the fallback text; loading stops either way |
| App.Page.HandleSearch | vite-fe/src/App.tsx:33-51 | after a search the city is remembered, nothing is loading, and exactly one of weather and error is set, according to how the request ended |
| App.Page.HandleRetry | vite-fe/src/App.tsx:53-57 | with no last search nothing changes; otherwise the last city is searched again, with `HandleSearch`'s outcome |

## Left out

- Network I/O is not modelled:
  - the axios requests, their query parameters and timeouts (node.api/src/clients/openweather.client.ts:44-54 and 63-73);
  - the frontend's `getWeather` request and the `isWeatherError` type guard.

  The provider's answer is an input (`Result` of a response or a `RequestFailure`). The frontend's answer is an `App.Outcome` whose `ServerError` case stands for "the error response carries a message".
- Search logging (`logSearch`), the `SearchLog` entity and the SQLite data source are left out. They are database writes whose failures are swallowed, and they do not affect any response.
- Server wiring is left out: the Fastify bootstrap, CORS, `/health` and route registration.
- `Promise.all` over the two fetches is not modelled as concurrency. `WeatherService.GetWeatherByCity` takes a flag saying which rejection comes first when both fetches fail.
- Overlapping `handleSearch` calls in the frontend are not modelled. A search runs from its start to its end in one `HandleSearch` call, and its outcome is given by a function from city to outcome.
- IEEE floating point is not modelled: numbers are reals. `Math.round(x * 10) / 10` is taken as an exact division. Infinity and NaN do not arise.
- WeatherService.ProcessDailyForecast: requires a non-empty group. Its only caller passes a day's group, which is never empty. The source on an empty list would return Infinity, -Infinity and NaN.
- WeatherService.ScanSamples: starts its running extremes at the first sample instead of ±Infinity. This is the same after the first step.
- `formatDate` in the forecast card is left out; it depends on `Date` and locale formatting.
- Unicode details are simplified:
  - `\p{L}\p{M}` is a parameter `isLetterOrMark`;
  - the whitespace set of `trim` and `\s` is listed explicitly;
  - `toLowerCase` lower-cases the ASCII letters only;
  - strings are sequences of characters, not UTF-16 code units, so a character outside the Basic Multilingual Plane counts as 1 where JavaScript counts 2 in the length checks.
- Presentation components and markup are left out: `WeatherIcon`, `LoadingSkeleton`, `EmptyState`, `ErrorMessage`, `StatCard`, and the JSX and CSS classes other than the background and temperature colour.
- ForecastCard.GetTemperatureBarWidth: returns the two positions as numbers, not as the `"<n>%"` strings the component builds.
- `process.env['OPENWEATHER_API_KEY']` is an `Option<string>` input.
- `getWeather` re-checks the validated value with `!validation.sanitized`. That is not a separate branch in `WeatherController.GetWeather`, because a valid result always has at least 2 characters (the `ValidateCity` contract).
- The frontend's response types are the backend's `WeatherTypes` records; both files declare the same shapes.
