/** The forecast card's temperature bar: each end is placed on a 0-100
    scale that maps -10 degrees to 0 and 45 degrees to 100, clamped. */
module ForecastCard {
  import opened WeatherTypes

  const ScaleLow: real := -10.0
  const ScaleHigh: real := 45.0

  /** `normalize(temp) = Math.max(0, Math.min(100, ((temp + 10) / 55) * 100))`. */
  function Normalize(temp: real): (r: real)
    ensures 0.0 <= r <= 100.0
    ensures temp <= ScaleLow ==> r == 0.0
    ensures temp >= ScaleHigh ==> r == 100.0
    ensures ScaleLow <= temp <= ScaleHigh ==> r == (temp - ScaleLow) / (ScaleHigh - ScaleLow) * 100.0
  {
    var scaled := ((temp + 10.0) / 55.0) * 100.0;
    var capped := if scaled < 100.0 then scaled else 100.0;
    if capped > 0.0 then capped else 0.0
  }

  /** A warmer temperature is never placed further left. */
  lemma NormalizeMonotone(a: real, b: real)
    requires a <= b
    ensures Normalize(a) <= Normalize(b)
  {
    assert (a + 10.0) / 55.0 * 100.0 <= (b + 10.0) / 55.0 * 100.0;
  }

  /** The bar's two positions, as percentages (`minPos`, `maxPos`). */
  datatype Bar = Bar(minPos: real, maxPos: real)

  /** `getTemperatureBarWidth(tempMin, tempMax)`; the percentage strings are
      represented by their numbers. */
  function GetTemperatureBarWidth(tempMin: int, tempMax: int): (r: Bar)
    ensures 0.0 <= r.minPos <= 100.0 && 0.0 <= r.maxPos <= 100.0
    ensures r.minPos == Normalize(tempMin as real) && r.maxPos == Normalize(tempMax as real)
  {
    Bar(Normalize(tempMin as real), Normalize(tempMax as real))
  }

  /** For a day whose minimum does not exceed its maximum, the bar's left
      end never passes its right end: `left: minPos` and
      `right: calc(100% - maxPos)` leave a non-negative width. */
  lemma BarOrdered(day: DailyForecast)
    requires day.tempMin <= day.tempMax
    ensures var bar := GetTemperatureBarWidth(day.tempMin, day.tempMax);
      bar.minPos <= bar.maxPos && bar.minPos + (100.0 - bar.maxPos) <= 100.0
  {
    NormalizeMonotone(day.tempMin as real, day.tempMax as real);
  }
}
