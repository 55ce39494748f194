/**
 * `lerp_zero`: where the straight line through (0, y0) and (1, y1) crosses
 * zero, as a fraction of the step from the first sample to the second.
 * Values are real numbers; f32 rounding is not modelled.
 */
module Lerp {

  /** `-y0 / (y1 - y0)`; undefined (inf or NaN in f32) when `y1 == y0`. */
  function LerpZero(y0: real, y1: real): (t: real)
    requires y1 != y0
    ensures y0 + t * (y1 - y0) == 0.0
  {
    -y0 / (y1 - y0)
  }

  /** The crossing is the only root of the interpolating line. */
  lemma LerpZeroUnique(y0: real, y1: real, t: real)
    requires y1 != y0
    requires y0 + t * (y1 - y0) == 0.0
    ensures t == LerpZero(y0, y1)
  {
    var r := LerpZero(y0, y1);
    assert (t - r) * (y1 - y0) == 0.0;
  }

  /** Samples of strictly opposite sign cross zero strictly between them. */
  lemma OppositeSignsInterpolate(y0: real, y1: real)
    requires (y0 < 0.0 < y1) || (y1 < 0.0 < y0)
    ensures 0.0 < LerpZero(y0, y1) < 1.0
  {
    var d := y1 - y0;
    var t := LerpZero(y0, y1);
    assert t * d == -y0 && (1.0 - t) * d == y1;
    if d > 0.0 {
      SignOfProduct(t, d);
      SignOfProduct(1.0 - t, d);
    } else {
      assert (-t) * (-d) == -y0 && (t - 1.0) * (-d) == y1;
      SignOfProduct(-t, -d);
      SignOfProduct(t - 1.0, -d);
    }
  }

  /** A zero second sample puts the crossing on it; a zero first sample on the first. */
  lemma ZeroEndpoints(y0: real, y1: real)
    ensures y0 != 0.0 ==> LerpZero(y0, 0.0) == 1.0
    ensures y1 != 0.0 ==> LerpZero(0.0, y1) == 0.0
  {
  }

  /** Negating both samples leaves the crossing where it was. */
  lemma LerpZeroNegation(y0: real, y1: real)
    requires y1 != y0
    ensures LerpZero(-y0, -y1) == LerpZero(y0, y1)
  {
    LerpZeroUnique(-y0, -y1, LerpZero(y0, y1));
  }

  /** Same-sign samples extrapolate: the crossing lies outside [0, 1]. */
  lemma SameSignExtrapolates(y0: real, y1: real)
    requires y1 != y0
    requires (0.0 < y0 && 0.0 < y1) || (y0 < 0.0 && y1 < 0.0)
    ensures LerpZero(y0, y1) < 0.0 || 1.0 < LerpZero(y0, y1)
  {
    var d := y1 - y0;
    var t := LerpZero(y0, y1);
    assert t * d == -y0;
    assert (1.0 - t) * d == y1;
    if d > 0.0 && 0.0 < y0 {
      assert (-t) * d == y0;
      SignOfProduct(-t, d);
    } else if d > 0.0 {
      assert (t - 1.0) * d == -y1;
      SignOfProduct(t - 1.0, d);
      assert (t - 1.0) * d > 0.0;
    } else if 0.0 < y0 {
      assert (t - 1.0) * (-d) == y1;
      SignOfProduct(t - 1.0, -d);
    } else {
      assert (-t) * (-d) == -y0;
      SignOfProduct(-t, -d);
    }
  }

  /** A product with a positive factor has the sign of the other factor. */
  lemma SignOfProduct(a: real, b: real)
    requires b > 0.0
    ensures a * b > 0.0 <==> a > 0.0
  {
    if a > 0.0 {
      assert a * b > 0.0;
    } else {
      assert a * b <= 0.0;
    }
  }

  /** The cases printed by `lerp_test` in `lerp.rs`. */
  lemma LerpZeroExamples()
    ensures LerpZero(-1.0, 1.0) == 0.5 && LerpZero(1.0, -1.0) == 0.5
    ensures LerpZero(-1.0, 2.0) == 1.0 / 3.0 && LerpZero(1.0, -2.0) == 1.0 / 3.0
    ensures LerpZero(-2.0, 0.0) == 1.0 && LerpZero(2.0, 0.0) == 1.0
    ensures LerpZero(2.0, 1.0) == 2.0
  {
  }
}
