/** JavaScript's `Math.round` on real numbers, and rounding to one decimal
    place as the backend writes it: `Math.round(x * 10) / 10`. */
module JsMath {

  /** `Math.round(x)`: the nearest integer, halves rounded towards +infinity. */
  function Round(x: real): (r: int)
    ensures x - 0.5 < r as real <= x + 0.5
  {
    (x + 0.5).Floor
  }

  /** `Math.round(x * 10) / 10`: the nearest multiple of 0.1, halves rounded up. */
  function RoundTenth(x: real): (r: real)
    ensures x - 0.05 < r <= x + 0.05
  {
    (Round(x * 10.0) as real) / 10.0
  }

  /** The result of `RoundTenth` is a whole number of tenths. */
  lemma RoundTenthIsTenths(x: real)
    ensures (RoundTenth(x) * 10.0).Floor as real == RoundTenth(x) * 10.0
  {
  }

  lemma RoundMonotone(x: real, y: real)
    requires x <= y
    ensures Round(x) <= Round(y)
  {
  }

  lemma RoundTenthMonotone(x: real, y: real)
    requires x <= y
    ensures RoundTenth(x) <= RoundTenth(y)
  {
    RoundMonotone(x * 10.0, y * 10.0);
  }
}
