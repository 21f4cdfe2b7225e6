/** The provider client's error taxonomy: the API-key lookup and the mapping
    of a failed request to an `OpenWeatherApiError`. The HTTP requests
    themselves are not modelled; their outcome is an input. */
module OpenWeatherClient {
  import opened Wrappers
  import JsText

  /** `OpenWeatherApiError(message, statusCode, isNotFound = false)`. */
  datatype ApiError = ApiError(message: string, statusCode: int, isNotFound: bool := false)

  /** What a failed request can throw: an axios error, with the HTTP status
      of the response when there was one, or anything else. */
  datatype RequestFailure = AxiosFailure(responseStatus: Option<int>) | OtherRequestFailure

  const ApiKeyMissingMessage := "OPENWEATHER_API_KEY not configured"
  const AuthMessage := "Erro de autentica\U{00E7}\U{00E3}o com o servi\U{00E7}o de clima"
  const TransportMessage := "Erro ao comunicar com o servi\U{00E7}o de clima"
  const InternalMessage := "Erro interno ao buscar dados de clima"
  const NotFoundPrefix := "Cidade \""
  const NotFoundSuffix := "\" n\U{00E3}o encontrada"

  /** `getApiKey()`, given the value of the OPENWEATHER_API_KEY environment
      variable: an absent or empty key is a 500 error that is not a not-found
      error; otherwise the key itself. */
  function GetApiKey(env: Option<string>): (r: Result<string, ApiError>)
    ensures r.Success? <==> env.Some? && env.value != ""
    ensures r.Success? ==> r.value == env.value
    ensures r.Failure? ==> r.error == ApiError(ApiKeyMissingMessage, 500, false)
  {
    if env.None? || env.value == "" then Failure(ApiError(ApiKeyMissingMessage, 500))
    else Success(env.value)
  }

  /** `handleApiError(error, city)`: the error it throws. */
  function HandleApiError(error: RequestFailure, city: string): (e: ApiError)
    ensures e.isNotFound <==> error == AxiosFailure(Some(404))
    ensures e.statusCode == (if e.isNotFound then 404 else 500)
    ensures e.isNotFound ==> e.message == NotFoundPrefix + city + NotFoundSuffix
    ensures error == AxiosFailure(Some(401)) ==> e.message == AuthMessage
    ensures error.AxiosFailure? && error.responseStatus != Some(404) && error.responseStatus != Some(401) ==>
              e.message == TransportMessage
    ensures error.OtherRequestFailure? ==> e.message == InternalMessage
  {
    match error
    case AxiosFailure(status) =>
      if status == Some(404) then ApiError(NotFoundPrefix + city + NotFoundSuffix, 404, true)
      else if status == Some(401) then ApiError(AuthMessage, 500)
      else ApiError(TransportMessage, 500)
    case OtherRequestFailure => ApiError(InternalMessage, 500)
  }

  /** The not-found message quotes the city it was given, verbatim. */
  lemma NotFoundNamesCity(city: string)
    ensures JsText.OccursAt(HandleApiError(AxiosFailure(Some(404)), city).message, city, |NotFoundPrefix|)
  {
    var m := HandleApiError(AxiosFailure(Some(404)), city).message;
    assert m[|NotFoundPrefix|..|NotFoundPrefix| + |city|] == city;
  }

  /** The outcome of `fetchCurrentWeather` / `fetchForecast`: whether a
      request was sent at all, and what the call returns or throws. */
  datatype Fetched<T> = Fetched(requested: bool, result: Result<T, ApiError>)

  /** One fetch, given the environment's API key and what the request would
      return or throw. The key is looked up before the request, so a missing
      key fails without any request being made. */
  function Fetch<T>(env: Option<string>, city: string, response: Result<T, RequestFailure>): (f: Fetched<T>)
    ensures f.requested <==> env.Some? && env.value != ""
    ensures !f.requested ==> f.result == Failure(ApiError(ApiKeyMissingMessage, 500))
    ensures f.requested && response.Success? ==> f.result == Success(response.value)
    ensures f.requested && response.Failure? ==> f.result == Failure(HandleApiError(response.error, city))
  {
    match GetApiKey(env)
    case Failure(e) => Fetched(false, Failure(e))
    case Success(_) =>
      match response
      case Success(data) => Fetched(true, Success(data))
      case Failure(err) => Fetched(true, Failure(HandleApiError(err, city)))
  }
}
