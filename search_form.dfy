/** The search form's validation schema: the raw input's length is checked
    first, then it is trimmed and stripped of markup characters, and the
    result is refined. The value handed to the search is the transformed
    one, not the raw input. */
module SearchForm {
  import opened JsText
  import WeatherController

  const MinCityLength := 2
  const MaxCityLength := 100

  const TooShortMessage := "O nome da cidade deve ter pelo menos 2 caracteres"
  const TooLongMessage := "O nome da cidade nao pode exceder 100 caracteres"
  const TooFewValidMessage := "O nome da cidade deve ter pelo menos 2 caracteres validos"
  const InvalidCharsMessage := "O nome da cidade contem caracteres invalidos"

  /** The schema's outcome: the transformed city, or the message of the
      first check that failed. */
  datatype Parsed = Accepted(city: string) | Rejected(message: string)

  /** The transform `val.trim().replace(/[<>"'&;]/g, '')`. */
  function Clean(raw: string): (r: string)
    ensures |r| <= |raw|
    ensures forall c :: c in r ==> c !in WeatherController.Banned
  {
    Strip(Trim(raw), WeatherController.Banned)
  }

  /** `searchSchema.parse({ city: raw })`. The raw length checks come first
      and a failed one skips the transform; the refinements run on the
      transformed value. The character class is the same as the backend's. */
  function ParseSearch(raw: string, isLetterOrMark: char -> bool): (r: Parsed)
    ensures r.Accepted? <==>
      && MinCityLength <= |raw| <= MaxCityLength
      && |Clean(raw)| >= MinCityLength
      && WeatherController.MatchesCityPattern(Clean(raw), isLetterOrMark)
    ensures r.Accepted? ==> r.city == Clean(raw)
    ensures |raw| < MinCityLength ==> r == Rejected(TooShortMessage)
    ensures |raw| > MaxCityLength ==> r == Rejected(TooLongMessage)
    ensures MinCityLength <= |raw| <= MaxCityLength && |Clean(raw)| < MinCityLength ==>
      r == Rejected(TooFewValidMessage)
    ensures && MinCityLength <= |raw| <= MaxCityLength && |Clean(raw)| >= MinCityLength
            && !WeatherController.MatchesCityPattern(Clean(raw), isLetterOrMark) ==>
      r == Rejected(InvalidCharsMessage)
  {
    if |raw| < MinCityLength then Rejected(TooShortMessage)
    else if |raw| > MaxCityLength then Rejected(TooLongMessage)
    else
      var city := Clean(raw);
      if |city| < MinCityLength then Rejected(TooFewValidMessage)
      else if !WeatherController.MatchesCityPattern(city, isLetterOrMark) then Rejected(InvalidCharsMessage)
      else Accepted(city)
  }

  /** An accepted city has between 2 and 100 characters, none of them a
      markup character, all of them in the allowed class. */
  lemma AcceptedBounds(raw: string, isLetterOrMark: char -> bool)
    requires ParseSearch(raw, isLetterOrMark).Accepted?
    ensures var city := ParseSearch(raw, isLetterOrMark).city;
      && MinCityLength <= |city| <= MaxCityLength
      && (forall c :: c in city ==> c !in WeatherController.Banned)
      && WeatherController.MatchesCityPattern(city, isLetterOrMark)
  {
  }

  /** Over-long input is where the two validations part: the form rejects
      it, while the backend, given the same raw text, cuts it to its first
      100 characters and accepts those. */
  lemma LongInputRejectedHereTruncatedThere(raw: string, isLetterOrMark: char -> bool)
    requires |Trim(raw)| > MaxCityLength
    requires forall c :: c in raw ==> c !in WeatherController.Banned && WeatherController.Allowed(c, isLetterOrMark)
    ensures ParseSearch(raw, isLetterOrMark) == Rejected(TooLongMessage)
    ensures WeatherController.ValidateCity(WeatherController.Str(raw), isLetterOrMark)
      == WeatherController.Valid(Trim(raw)[..MaxCityLength])
  {
    WeatherController.MaxLengthUnreachable(raw, isLetterOrMark);
  }

  /** A city made only of allowed, non-markup characters and at most 100
      long is sanitised by the backend to its trimmed self, and what is left
      after trimming is still made of allowed characters. */
  lemma CleanCitySanitizes(city: string, isLetterOrMark: char -> bool)
    requires |city| <= MaxCityLength
    requires forall c :: c in city ==> c !in WeatherController.Banned
    requires forall i :: 0 <= i < |city| ==> WeatherController.Allowed(city[i], isLetterOrMark)
    ensures WeatherController.SanitizeCity(city) == Trim(city)
    ensures |Trim(city)| > 0 ==> WeatherController.MatchesCityPattern(Trim(city), isLetterOrMark)
  {
    var t := Trim(city);
    var lo := |city| - |TrimStart(city)|;
    assert forall k :: 0 <= k < |t| ==> t[k] == city[lo + k];
    StripNothing(t, WeatherController.Banned);
  }

  /** What the backend makes of the city the form sends: it trims again, so
      it accepts exactly when at least 2 characters remain, and then looks
      up the trimmed city. */
  lemma BackendOnAccepted(raw: string, isLetterOrMark: char -> bool)
    requires ParseSearch(raw, isLetterOrMark).Accepted?
    ensures var city := ParseSearch(raw, isLetterOrMark).city;
      var v := WeatherController.ValidateCity(WeatherController.Str(city), isLetterOrMark);
      && (v.Valid? <==> |Trim(city)| >= MinCityLength)
      && (v.Valid? ==> v.sanitized == Trim(city))
      && (v.Invalid? ==> v.error == WeatherController.MinLengthMessage)
  {
    var city := Clean(raw);
    assert |city| <= MaxCityLength && WeatherController.MatchesCityPattern(city, isLetterOrMark);
    CleanCitySanitizes(city, isLetterOrMark);
  }

  /** A space followed by a letter is in the allowed class. */
  lemma SpaceLetterMatches(c: char, isLetterOrMark: char -> bool)
    requires isLetterOrMark(c)
    ensures WeatherController.MatchesCityPattern([' ', c], isLetterOrMark)
  {
    assert WeatherController.Allowed([' ', c][0], isLetterOrMark);
  }

  /** "< a" passes the form as " a": the space survives because trimming
      comes before stripping. */
  lemma ExposedSpaceAccepted(c: char, isLetterOrMark: char -> bool)
    requires c !in WeatherController.Banned && !IsJsWhitespace(c) && isLetterOrMark(c)
    ensures ParseSearch(['<', ' ', c], isLetterOrMark) == Accepted([' ', c])
  {
    WeatherController.StripAfterTrimExposesSpace(c);
    SpaceLetterMatches(c, isLetterOrMark);
  }

  /** The backend's sanitiser trims a space and a character down to at
      most that character. */
  lemma SanitizeLeadingSpace(c: char)
    requires !IsJsWhitespace(c)
    ensures |WeatherController.SanitizeCity([' ', c])| <= 1
  {
    var s := [' ', c];
    assert s[1..] == [c];
    assert TrimStart(s) == [c];
    var trimmed := Trim(s);
    assert |trimmed| <= 1;
    assert |Strip(trimmed, WeatherController.Banned)| <= 1;
  }

  /** The backend rejects " a" as too short, since it trims it to "a". */
  lemma ExposedSpaceRejectedThere(c: char, isLetterOrMark: char -> bool)
    requires !IsJsWhitespace(c)
    ensures WeatherController.ValidateCity(WeatherController.Str([' ', c]), isLetterOrMark)
      == WeatherController.Invalid(WeatherController.MinLengthMessage)
  {
    SanitizeLeadingSpace(c);
  }
}
