/** The page: its background, the view it shows, and the four state cells
    that a search updates. One search is modelled at a time, from its start
    to its completion. */
module App {
  import opened Wrappers
  import opened WeatherTypes

  const SunBackground := "weather-bg-sun"
  const CloudBackground := "weather-bg-cloud"
  const RainBackground := "weather-bg-rain"
  const DefaultBackground := "bg-gradient-to-b from-sky-500 via-sky-400 to-sky-300"
  const FallbackError := "Erro ao buscar dados do clima. Verifique se o servidor esta rodando."

  /** `getBackgroundClass(condition)`. */
  function GetBackgroundClass(condition: Option<SkyCondition>): (r: string)
    ensures condition == Some(Sun) ==> r == SunBackground
    ensures condition == Some(Cloud) ==> r == CloudBackground
    ensures condition == Some(Rain) ==> r == RainBackground
    ensures condition.None? ==> r == DefaultBackground
  {
    match condition
    case Some(Sun) => SunBackground
    case Some(Cloud) => CloudBackground
    case Some(Rain) => RainBackground
    case None => DefaultBackground
  }

  /** Each condition, and the absence of one, has its own background. */
  lemma BackgroundsDistinct(a: Option<SkyCondition>, b: Option<SkyCondition>)
    requires a != b
    ensures GetBackgroundClass(a) != GetBackgroundClass(b)
  {
  }

  /** The page's state cells that decide what is shown. */
  datatype PageState = PageState(weather: Option<WeatherResponse>, isLoading: bool, error: Option<string>)

  /** `error` as a condition: set and not the empty string. */
  predicate ErrorShown(error: Option<string>) {
    error.Some? && error.value != ""
  }

  /** The four conditional views of the page. */
  predicate ShowsSkeleton(s: PageState) {
    s.isLoading
  }

  predicate ShowsError(s: PageState) {
    ErrorShown(s.error) && !s.isLoading
  }

  predicate ShowsData(s: PageState) {
    s.weather.Some? && !s.isLoading && !ErrorShown(s.error)
  }

  predicate ShowsEmpty(s: PageState) {
    s.weather.None? && !ErrorShown(s.error) && !s.isLoading
  }

  /** How many of the four views are shown. */
  function ViewCount(s: PageState): (n: nat)
    ensures n <= 4
  {
    (if ShowsSkeleton(s) then 1 else 0) + (if ShowsError(s) then 1 else 0)
    + (if ShowsData(s) then 1 else 0) + (if ShowsEmpty(s) then 1 else 0)
  }

  /** Exactly one view is shown in every state: the skeleton while loading,
      else the error if there is one, else the data if there is some, else
      the empty state. */
  lemma ExactlyOneView(s: PageState)
    ensures ViewCount(s) == 1
    ensures ShowsSkeleton(s) <==> s.isLoading
    ensures ShowsError(s) <==> !s.isLoading && ErrorShown(s.error)
    ensures ShowsData(s) <==> !s.isLoading && !ErrorShown(s.error) && s.weather.Some?
  {
  }

  /** The background: the current condition of the weather on display, or
      the default when there is none. */
  function Background(weather: Option<WeatherResponse>): (r: string)
    ensures weather.Some? ==> r == GetBackgroundClass(Some(weather.value.current.condition))
    ensures weather.None? ==> r == DefaultBackground
  {
    GetBackgroundClass(if weather.Some? then Some(weather.value.current.condition) else None)
  }

  /** How the request for a city ends: the data, an error response whose
      body carries a message, or any other failure. */
  datatype Outcome = Data(response: WeatherResponse) | ServerError(message: string) | OtherError

  /** The page component's state cells. */
  class Page {
    var weather: Option<WeatherResponse>
    var isLoading: bool
    var error: Option<string>
    var lastSearch: string

    /** The initial `useState` values. */
    constructor ()
      ensures weather.None? && !isLoading && error.None? && lastSearch == ""
    {
      weather := None;
      isLoading := false;
      error := None;
      lastSearch := "";
    }

    function State(): PageState
      reads this
    {
      PageState(weather, isLoading, error)
    }

    /** A completed search left exactly one of `weather` and `error` set,
        and nothing is loading. */
    predicate Settled()
      reads this
    {
      !isLoading && (weather.Some? <==> error.None?)
    }

    /** The start of `handleSearch(city)`: loading, no error, and the city
        remembered; the weather on display stays until the request ends. */
    method BeginSearch(city: string)
      modifies this
      ensures isLoading && error.None? && lastSearch == city
      ensures weather == old(weather)
      ensures ShowsSkeleton(State()) && ViewCount(State()) == 1
    {
      isLoading := true;
      error := None;
      lastSearch := city;
    }

    /** The end of `handleSearch`: the data on success; otherwise no
        weather and the server's message, or the fallback text. Loading
        stops either way. */
    method FinishSearch(outcome: Outcome)
      modifies this
      ensures outcome.Data? ==> weather == Some(outcome.response) && error == old(error)
      ensures outcome.ServerError? ==> weather.None? && error == Some(outcome.message)
      ensures outcome.OtherError? ==> weather.None? && error == Some(FallbackError)
      ensures !isLoading && lastSearch == old(lastSearch)
    {
      match outcome {
        case Data(response) =>
          weather := Some(response);
        case ServerError(message) =>
          weather := None;
          error := Some(message);
        case OtherError =>
          weather := None;
          error := Some(FallbackError);
      }
      isLoading := false;
    }

    /** `handleSearch(city)` run to completion; `fetch` gives how the
        request for each city ends. */
    method HandleSearch(city: string, fetch: string -> Outcome)
      modifies this
      ensures lastSearch == city && Settled()
      ensures fetch(city).Data? ==> weather == Some(fetch(city).response) && error.None?
      ensures fetch(city).ServerError? ==> weather.None? && error == Some(fetch(city).message)
      ensures fetch(city).OtherError? ==> weather.None? && error == Some(FallbackError)
    {
      BeginSearch(city);
      FinishSearch(fetch(city));
    }

    /** `handleRetry()`: search again for the last city if there is one,
        otherwise change nothing. */
    method HandleRetry(fetch: string -> Outcome)
      modifies this
      ensures old(lastSearch) == "" ==> unchanged(this)
      ensures old(lastSearch) != "" ==>
        && lastSearch == old(lastSearch) && Settled()
        && (fetch(lastSearch).Data? ==> weather == Some(fetch(lastSearch).response) && error.None?)
        && (fetch(lastSearch).ServerError? ==> weather.None? && error == Some(fetch(lastSearch).message))
        && (fetch(lastSearch).OtherError? ==> weather.None? && error == Some(FallbackError))
    {
      if lastSearch != "" {
        HandleSearch(lastSearch, fetch);
      }
    }
  }

  /** After a completed search the page shows the data exactly when the
      request succeeded, and the error view exactly when it failed with a
      non-empty message; a failure with an empty server message falls back
      to the empty state. */
  lemma SettledViews(s: PageState)
    requires !s.isLoading && (s.weather.Some? <==> s.error.None?)
    ensures ShowsData(s) <==> s.weather.Some?
    ensures ShowsError(s) <==> s.weather.None? && s.error.value != ""
    ensures ShowsEmpty(s) <==> s.weather.None? && s.error.value == ""
  {
  }
}
