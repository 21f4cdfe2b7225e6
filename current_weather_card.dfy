/** The current-weather card's colour for the temperature figure: five
    bands with thresholds at 10, 18, 24 and 30 degrees. */
module CurrentWeatherCard {

  const Blue := "text-blue-300"
  const Cyan := "text-cyan-300"
  const Emerald := "text-emerald-300"
  const Amber := "text-amber-300"
  const Orange := "text-orange-300"

  /** The colours from coldest to warmest. */
  const Bands := [Blue, Cyan, Emerald, Amber, Orange]

  /** `getTemperatureColor(temp)`. */
  function GetTemperatureColor(temp: real): (r: string)
    ensures temp < 10.0 ==> r == Blue
    ensures 10.0 <= temp < 18.0 ==> r == Cyan
    ensures 18.0 <= temp < 24.0 ==> r == Emerald
    ensures 24.0 <= temp < 30.0 ==> r == Amber
    ensures temp >= 30.0 ==> r == Orange
  {
    if temp < 10.0 then Blue
    else if temp < 18.0 then Cyan
    else if temp < 24.0 then Emerald
    else if temp < 30.0 then Amber
    else Orange
  }

  /** The position of a colour among the bands. */
  function BandIndex(color: string): (i: nat)
    requires color in Bands
    ensures i < |Bands| && Bands[i] == color
  {
    if color == Blue then 0
    else if color == Cyan then 1
    else if color == Emerald then 2
    else if color == Amber then 3
    else 4
  }

  /** Every temperature gets one of the five colours, and a warmer
      temperature never gets a colder band. */
  lemma ColorMonotone(a: real, b: real)
    requires a <= b
    ensures GetTemperatureColor(a) in Bands && GetTemperatureColor(b) in Bands
    ensures BandIndex(GetTemperatureColor(a)) <= BandIndex(GetTemperatureColor(b))
  {
  }
}
