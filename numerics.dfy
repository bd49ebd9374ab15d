/** Constants of the engine and the floating point functions it calls. */
module Numerics {

  /** `math.log`, `math.pow` and `math.exp` (and numpy's `log`). Their values are
      not modelled: every property of this model holds whatever they return. */
  datatype Math = Math(ln: real -> real, pow: (real, real) -> real, exp: real -> real)

  const DefaultNoise: real := 0.25
  const DefaultDecay: real := 0.5
  const DefaultThreshold: real := -10.0
  const MinimumTemperature: real := 0.01
  const DefaultW: real := 1.0
  const DefaultMas: real := 1.6

  /** `math.sqrt(2)`, the double nearest the square root of two. */
  const Sqrt2: real := 1.4142135623730951

  /** `sys.float_info.max`; a threshold of minus this value means "no threshold". */
  const FloatMax: real := 179769313486231570814527423731704356798070567525844996598917476803157260780028538760589558632766878171540458953514382464234321326889464182768467546703537516986049910576551282076245490090389328944075868508455133942304583236903222948165808559332123348274797826204144723168738177180919299881250404026184124858368.0

  /** `math.pow(x, e)` raises ValueError ("math domain error"): zero to a negative
      power, or a negative number to a non-integral power. */
  predicate PowRaises(x: real, e: real)
  {
    (x == 0.0 && e < 0.0) || (x < 0.0 && e.Floor as real != e)
  }

  /** The noise term of one activation: `_make_noise` adds nothing when the noise
      parameter is zero, and otherwise the sample drawn for this computation. */
  function NoiseTerm(noise: real, draw: real): (r: real)
  {
    if noise == 0.0 then 0.0 else draw
  }
}
