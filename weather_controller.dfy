/** The HTTP handler of `GET /weather?city=...`: the city parameter is
    trimmed, stripped of markup characters and cut to 100 characters, then
    validated; the lookup's outcome is mapped to an HTTP status. */
module WeatherController {
  import opened Wrappers
  import opened JsText
  import opened WeatherTypes
  import OpenWeatherClient
  import WeatherService

  const MaxCityLength := 100
  const MinCityLength := 2

  /** The characters the sanitiser removes: `/[<>"'&;]/g`. */
  const Banned: set<char> := {'<', '>', '"', '\'', '&', ';'}

  const RequiredMessage := "O par\U{00E2}metro \"city\" \U{00E9} obrigat\U{00F3}rio"
  const MinLengthMessage := "O nome da cidade deve ter pelo menos 2 caracteres"
  const MaxLengthMessage := "O nome da cidade n\U{00E3}o pode exceder 100 caracteres"
  const InvalidCharsMessage := "O nome da cidade cont\U{00E9}m caracteres inv\U{00E1}lidos"
  const LookupFailedMessage := "Erro ao buscar dados de clima"

  /** `sanitizeCity(city)`: trim, remove the banned characters, keep at most
      the first 100 characters. */
  function SanitizeCity(city: string): (r: string)
    ensures |r| <= MaxCityLength
    ensures forall c :: c in r ==> c !in Banned
  {
    Prefix(Strip(Trim(city), Banned), MaxCityLength)
  }

  /** Every character of the sanitised city comes from the input; a city of
      at most 100 characters after trimming that holds no banned character
      comes out as its trimmed self. */
  lemma SanitizeKeeps(city: string)
    ensures forall c :: c in SanitizeCity(city) ==> c in city
    ensures (forall c :: c in Trim(city) ==> c !in Banned) && |Trim(city)| <= MaxCityLength ==>
      SanitizeCity(city) == Trim(city)
  {
    var trimmed := Trim(city);
    var stripped := Strip(trimmed, Banned);
    var r := Prefix(stripped, MaxCityLength);
    assert SanitizeCity(city) == r;
    TrimChars(city);
    forall c | c in r ensures c in city {
      var k :| 0 <= k < |r| && r[k] == c;
      assert c == stripped[k] && c in stripped;
    }
    if forall c :: c in trimmed ==> c !in Banned {
      StripNothing(trimmed, Banned);
    }
  }

  /** Trimming happens before stripping, so removing a banned character can
      leave whitespace at an end: "<" followed by a space and a letter
      loses only the "<". */
  lemma StripAfterTrimExposesSpace(c: char)
    requires c !in Banned && !IsJsWhitespace(c)
    ensures Strip(Trim(['<', ' ', c]), Banned) == [' ', c]
  {
    var raw := ['<', ' ', c];
    assert TrimStart(raw) == raw;
    assert TrimEnd(raw) == raw;
    assert raw[1..][1..] == [c];
    assert Strip([c], Banned) == [c];
    assert Strip(raw[1..], Banned) == [' ', c];
  }

  /** The sanitised "< a" is " a", which starts with whitespace. */
  lemma SanitizeExposesWhitespace(c: char)
    requires c !in Banned && !IsJsWhitespace(c)
    ensures SanitizeCity(['<', ' ', c]) == [' ', c]
  {
    StripAfterTrimExposesSpace(c);
  }

  /** The value of the `city` query parameter as the handler receives it:
      absent, a non-string value (a repeated parameter), or a string. */
  datatype QueryValue = Missing | NonString | Str(s: string)

  /** The result of `validateCity`. */
  datatype Validation = Valid(sanitized: string) | Invalid(error: string)

  /** The character class `[\p{L}\p{M}\s\-'.]`; whether a character is a
      Unicode letter or mark is a parameter. */
  predicate Allowed(c: char, isLetterOrMark: char -> bool) {
    isLetterOrMark(c) || IsJsWhitespace(c) || c == '-' || c == '\'' || c == '.'
  }

  /** `/^[\p{L}\p{M}\s\-'.]+$/u.test(s)`. */
  predicate MatchesCityPattern(s: string, isLetterOrMark: char -> bool) {
    |s| > 0 && forall i :: 0 <= i < |s| ==> Allowed(s[i], isLetterOrMark)
  }

  /** `validateCity(city)`: the first failing check decides the error. */
  function ValidateCity(city: QueryValue, isLetterOrMark: char -> bool): (r: Validation)
    ensures r.Valid? <==>
      && city.Str? && city.s != ""
      && |SanitizeCity(city.s)| >= MinCityLength
      && MatchesCityPattern(SanitizeCity(city.s), isLetterOrMark)
    ensures r.Valid? ==> r.sanitized == SanitizeCity(city.s) && MinCityLength <= |r.sanitized| <= MaxCityLength
    ensures r.Invalid? && (!city.Str? || city.s == "") ==> r.error == RequiredMessage
    ensures r.Invalid? && city.Str? && city.s != "" ==>
      r.error == if |SanitizeCity(city.s)| < MinCityLength then MinLengthMessage else InvalidCharsMessage
  {
    if !city.Str? || city.s == "" then Invalid(RequiredMessage)
    else
      var sanitized := SanitizeCity(city.s);
      if |sanitized| < MinCityLength then Invalid(MinLengthMessage)
      else if |sanitized| > MaxCityLength then Invalid(MaxLengthMessage)
      else if !MatchesCityPattern(sanitized, isLetterOrMark) then Invalid(InvalidCharsMessage)
      else Valid(sanitized)
  }

  /** A city free of banned characters that is longer than 100 after
      trimming sanitises to the first 100 characters of its trimmed self. */
  lemma LongCitySanitizes(city: string)
    requires |Trim(city)| > MaxCityLength
    requires forall c :: c in city ==> c !in Banned
    ensures SanitizeCity(city) == Trim(city)[..MaxCityLength]
  {
    var t := Trim(city);
    assert forall c :: c in t ==> c !in Banned by {
      TrimChars(city);
    }
    StripNothing(t, Banned);
  }

  /** The over-length branch is dead: the sanitiser has already cut the city
      to 100 characters, so no input is ever answered with the too-long
      message. */
  lemma MaxLengthNeverReported(city: QueryValue, isLetterOrMark: char -> bool)
    ensures ValidateCity(city, isLetterOrMark) != Invalid(MaxLengthMessage)
  {
  }

  /** In particular a long city of allowed characters is truncated, not
      rejected. */
  lemma MaxLengthUnreachable(city: string, isLetterOrMark: char -> bool)
    requires |Trim(city)| > MaxCityLength
    requires forall c :: c in city ==> c !in Banned && Allowed(c, isLetterOrMark)
    ensures ValidateCity(Str(city), isLetterOrMark) == Valid(Trim(city)[..MaxCityLength])
  {
    LongCitySanitizes(city);
    TruncatedCityMatches(city, isLetterOrMark);
  }

  /** The first 100 trimmed characters of a city of allowed characters match
      the city pattern. */
  lemma TruncatedCityMatches(city: string, isLetterOrMark: char -> bool)
    requires |Trim(city)| > MaxCityLength
    requires forall c :: c in city ==> Allowed(c, isLetterOrMark)
    ensures MatchesCityPattern(Trim(city)[..MaxCityLength], isLetterOrMark)
  {
    var t := Trim(city);
    TrimChars(city);
    forall i | 0 <= i < MaxCityLength
      ensures Allowed(t[..MaxCityLength][i], isLetterOrMark)
    {
      assert t[..MaxCityLength][i] == t[i] && t[i] in t;
    }
  }

  /** The `x-forwarded-for` header: absent, one value, or several. */
  datatype Header = Absent | One(value: string) | Many(values: seq<string>)

  /** `getClientIp(request)`: the trimmed first comma-separated field of a
      single forwarded header, otherwise the socket address `ip`. Since
      `split` always yields a first field, the fallback after `?.` never
      applies to a single header. */
  function GetClientIp(forwarded: Header, ip: string): (r: string)
    ensures !forwarded.One? ==> r == ip
    ensures forwarded.One? ==> ',' !in r
    ensures forwarded.One? ==> r == [] || (!IsJsWhitespace(r[0]) && !IsJsWhitespace(r[|r| - 1]))
  {
    match forwarded
    case One(s) =>
      TrimChars(FirstField(s, ','));
      Trim(FirstField(s, ','))
    case _ => ip
  }

  /** The trimmed form of a prefix of `s` is a piece of `s` inside that
      prefix. */
  lemma TrimmedPrefixOccurs(s: string, first: string) returns (i: nat)
    requires |first| <= |s| && first == s[..|first|]
    ensures i == |first| - |TrimStart(first)|
    ensures i + |Trim(first)| <= |first| && OccursAt(s, Trim(first), i)
  {
    i := |first| - |TrimStart(first)|;
    var r := Trim(first);
    assert first[i..i + |r|] == r;
    SliceOfPrefix(s, first, i, |r|);
  }

  /** The address taken from a single header is the piece of the header
      at `i`, which lies before its first comma, and everything else before
      that comma is whitespace. */
  lemma ClientIpFromHeader(header: string, ip: string) returns (i: nat)
    ensures var r := GetClientIp(One(header), ip);
      i + |r| <= |FirstField(header, ',')| && OccursAt(header, r, i)
    ensures var r := GetClientIp(One(header), ip);
      forall j :: 0 <= j < i ==> IsJsWhitespace(header[j])
    ensures var r := GetClientIp(One(header), ip);
      forall j :: i + |r| <= j < |FirstField(header, ',')| ==> IsJsWhitespace(header[j])
  {
    var first := FirstField(header, ',');
    assert GetClientIp(One(header), ip) == Trim(first);
    i := TrimmedPrefixOccurs(header, first);
    TrimCutsOnlyWhitespace(first);
    WhitespaceInPrefix(header, first, 0, i);
    WhitespaceInPrefix(header, first, i + |Trim(first)|, |first|);
  }

  /** An empty forwarded header yields an empty address, not the socket's. */
  lemma EmptyForwardedHeader(ip: string)
    ensures GetClientIp(One(""), ip) == ""
  {
  }

  /** The error body `{ error, message }` or the weather of a success. */
  datatype Body = WeatherBody(weather: WeatherResponse) | ErrorBody(error: string, message: string)

  datatype Reply = Reply(status: int, body: Body)

  /** `getWeather(request, reply)`. `lookup` stands for `getWeatherByCity`
      (city, client address); it is consulted only for a valid city. */
  function GetWeather(
    city: QueryValue, isLetterOrMark: char -> bool, forwarded: Header, ip: string,
    lookup: (string, string) -> Result<WeatherResponse, WeatherService.Failure>): (r: Reply)
    ensures ValidateCity(city, isLetterOrMark).Invalid? ==>
      r == Reply(400, ErrorBody("Bad Request", ValidateCity(city, isLetterOrMark).error))
    ensures ValidateCity(city, isLetterOrMark).Valid? ==>
      var outcome := lookup(ValidateCity(city, isLetterOrMark).sanitized, GetClientIp(forwarded, ip));
      && (outcome.Success? ==> r == Reply(200, WeatherBody(outcome.value)))
      && (outcome.Failure? && outcome.error.ApiFailure? ==>
            r.status == (if outcome.error.apiError.isNotFound then 404 else 500)
            && r.body == ErrorBody(if r.status == 404 then "Not Found" else "Internal Server Error",
                                   outcome.error.apiError.message))
      && (outcome.Failure? && outcome.error.OtherFailure? ==>
            r == Reply(500, ErrorBody("Internal Server Error", LookupFailedMessage)))
  {
    match ValidateCity(city, isLetterOrMark)
    case Invalid(error) => Reply(400, ErrorBody("Bad Request", error))
    case Valid(sanitized) =>
      match lookup(sanitized, GetClientIp(forwarded, ip))
      case Success(weather) => Reply(200, WeatherBody(weather))
      case Failure(ApiFailure(e)) =>
        var status := if e.isNotFound then 404 else 500;
        Reply(status, ErrorBody(if status == 404 then "Not Found" else "Internal Server Error", e.message))
      case Failure(OtherFailure(_)) => Reply(500, ErrorBody("Internal Server Error", LookupFailedMessage))
  }

  /** The handler answers 200, 400, 404 or 500 only; 400 exactly for a city
      that fails validation, 200 exactly for a successful lookup, and 404
      only for a provider not-found error. */
  lemma StatusCodes(
    city: QueryValue, isLetterOrMark: char -> bool, forwarded: Header, ip: string,
    lookup: (string, string) -> Result<WeatherResponse, WeatherService.Failure>)
    ensures var r := GetWeather(city, isLetterOrMark, forwarded, ip, lookup);
      r.status in {200, 400, 404, 500}
    ensures var r := GetWeather(city, isLetterOrMark, forwarded, ip, lookup);
      r.status == 400 <==> ValidateCity(city, isLetterOrMark).Invalid?
    ensures var r := GetWeather(city, isLetterOrMark, forwarded, ip, lookup);
      var v := ValidateCity(city, isLetterOrMark);
      r.status == 200 <==> v.Valid? && lookup(v.sanitized, GetClientIp(forwarded, ip)).Success?
    ensures var r := GetWeather(city, isLetterOrMark, forwarded, ip, lookup);
      var v := ValidateCity(city, isLetterOrMark);
      r.status == 404 <==>
        && v.Valid?
        && var outcome := lookup(v.sanitized, GetClientIp(forwarded, ip));
        outcome.Failure? && outcome.error.ApiFailure? && outcome.error.apiError.isNotFound
  {
  }

  /** A valid city that the provider does not know: the client's 404
      error for the city it was asked about, passed on unchanged by the
      lookup, is answered 404 with a message that quotes the sanitised
      city. */
  lemma UnknownCityIsNotFound(city: string, isLetterOrMark: char -> bool, forwarded: Header, ip: string)
    requires ValidateCity(Str(city), isLetterOrMark).Valid?
    ensures
      var lookup := (c: string, a: string) =>
        Failure(WeatherService.ApiFailure(OpenWeatherClient.HandleApiError(OpenWeatherClient.AxiosFailure(Some(404)), c)));
      var r := GetWeather(Str(city), isLetterOrMark, forwarded, ip, lookup);
      && r.status == 404
      && r.body.ErrorBody?
      && OccursAt(r.body.message, SanitizeCity(city), |OpenWeatherClient.NotFoundPrefix|)
  {
    OpenWeatherClient.NotFoundNamesCity(SanitizeCity(city));
  }
}
