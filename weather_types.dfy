/** Record shapes exchanged with the weather provider and returned to the
    frontend (the backend's weather type declarations). Provider numbers are
    reals; the summaries' rounded fields are integers. */
module WeatherTypes {

  /** One condition tag: a short category (`main`, e.g. "Rain") and a
      human-readable description. */
  datatype WeatherCondition = WeatherCondition(id: int, main: string, description: string, icon: string)

  datatype MainReadings = MainReadings(
    temp: real, feelsLike: real, tempMin: real, tempMax: real, pressure: real, humidity: real)

  datatype Wind = Wind(speed: real, deg: real)

  datatype Coord = Coord(lon: real, lat: real)

  datatype Sys = Sys(country: string, sunrise: int, sunset: int)

  /** The provider's current-conditions record. */
  datatype CurrentResponse = CurrentResponse(
    coord: Coord, weather: seq<WeatherCondition>, main: MainReadings, wind: Wind,
    clouds: real, dt: int, sys: Sys, timezone: int, name: string)

  /** One 3-hour forecast sample; `dtTxt` reads "YYYY-MM-DD HH:MM:SS". */
  datatype ForecastItem = ForecastItem(
    dt: int, main: MainReadings, weather: seq<WeatherCondition>, clouds: real, wind: Wind, dtTxt: string)

  datatype CityInfo = CityInfo(
    id: int, name: string, coord: Coord, country: string, timezone: int, sunrise: int, sunset: int)

  /** The provider's forecast response; only `list` is aggregated. */
  datatype ForecastResponse = ForecastResponse(
    cod: string, message: real, cnt: int, list: seq<ForecastItem>, city: CityInfo)

  /** The coarse sky category: 'sun' | 'cloud' | 'rain'. */
  datatype SkyCondition = Sun | Cloud | Rain

  /** One day of the normalised forecast. */
  datatype DailyForecast = DailyForecast(
    date: string, tempMin: int, tempMax: int, humidity: int, windSpeed: real,
    condition: SkyCondition, description: string)

  /** The normalised current conditions; humidity is passed through as given. */
  datatype CurrentWeather = CurrentWeather(
    temp: int, tempMin: int, tempMax: int, humidity: real, windSpeed: real,
    condition: SkyCondition, description: string)

  /** The body of a successful lookup. */
  datatype WeatherResponse = WeatherResponse(
    city: string, country: string, current: CurrentWeather, forecast: seq<DailyForecast>)
}
