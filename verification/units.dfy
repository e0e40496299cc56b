/** Speed conversion from metres per second to knots, over exact reals. */
module Units {

  /** The source's conversion factor: knots per metre per second. */
  const KnotsPerMps: real := 1.94384

  /** The exact factor by definition: a knot is one nautical mile (1852 m) per hour (3600 s). */
  const ExactKnotsPerMps: real := 3600.0 / 1852.0

  /** Converts a speed in metres per second to knots. */
  function MpsToKnots(mps: real): (knots: real)
    ensures knots == 0.0 <==> mps == 0.0
    ensures mps > 0.0 ==> knots > mps
    ensures mps < 0.0 ==> knots < mps
  {
    KnotsPerMps * mps
  }

  /** The conversion is linear: it commutes with scaling and with addition. */
  lemma MpsToKnotsLinear(a: real, x: real, y: real)
    ensures MpsToKnots(a * x + y) == a * MpsToKnots(x) + MpsToKnots(y)
  {
  }

  /** Faster in metres per second is faster in knots, and the other way round. */
  lemma MpsToKnotsMonotone(x: real, y: real)
    ensures x <= y <==> MpsToKnots(x) <= MpsToKnots(y)
  {
  }

  /** Non-negative speeds stay non-negative. */
  lemma MpsToKnotsNonNegative(mps: real)
    requires mps >= 0.0
    ensures MpsToKnots(mps) >= 0.0
  {
  }

  /** The magnitude of a real. */
  function Abs(x: real): (a: real)
    ensures a >= 0.0 && (a == x || a == -x)
  {
    if x < 0.0 then -x else x
  }

  /** The rounded factor is below the exact one by less than five millionths, so the error grows with the speed. */
  lemma MpsToKnotsCloseToExact(mps: real)
    ensures 0.0 < ExactKnotsPerMps - KnotsPerMps < 0.000005
    ensures Abs(MpsToKnots(mps) - ExactKnotsPerMps * mps) <= 0.000005 * Abs(mps)
  {
  }

  /** Worked values: 10 m/s and 5 m/s. */
  lemma MpsToKnotsExamples()
    ensures MpsToKnots(10.0) == 19.4384
    ensures MpsToKnots(5.0) == 9.7192
  {
  }
}
