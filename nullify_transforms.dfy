/**
 * Undoing a pdf.js viewport transform on a rectangle (src/utils/nullifyTransforms.ts).
 *
 * A transform is the six numbers `[a, b, c, d, e, f]` of the affine map
 * `(x, y) |-> (a*x + c*y + e, b*x + d*y + f)`.  Any other length means "no
 * transform" and leaves the rectangle alone.
 */
module Transforms {
  import opened Types

  /** Determinant of the linear part of a six-entry transform. */
  function Det(t: seq<real>): real
    requires |t| == 6
  {
    t[0] * t[3] - t[1] * t[2]
  }

  /**
   * The divisions of NullifyTransforms are defined: the source divides by the
   * determinant, by the x scale and by the y scale without checking them.
   */
  predicate Nullifiable(t: seq<real>)
  {
    |t| == 6 ==> t[0] != 0.0 && t[3] != 0.0 && Det(t) != 0.0
  }

  /**
   * The forward map: where a viewport-local rectangle lands on screen.  The
   * corner goes through the whole affine map, the size through the two scale
   * entries only, as NullifyTransforms assumes.
   */
  function ApplyTransform(r: LTWH, t: seq<real>): LTWH
  {
    if |t| == 6 then
      LTWH(t[0] * r.left + t[2] * r.top + t[4],
           t[1] * r.left + t[3] * r.top + t[5],
           r.width * t[0],
           r.height * t[3])
    else r
  }

  /**
   * Maps a screen rectangle back through the transform with the closed-form
   * inverse of the 2x2 linear part; width and height are divided by the scales.
   */
  function NullifyTransforms(r: LTWH, t: seq<real>): (n: LTWH)
    requires Nullifiable(t)
    ensures |t| != 6 ==> n == r
  {
    if |t| == 6 then
      var det := Det(t);
      LTWH((r.left * t[3] - r.top * t[2] + t[2] * t[5] - t[4] * t[3]) / det,
           (-r.left * t[1] + r.top * t[0] + t[4] * t[1] - t[0] * t[5]) / det,
           r.width / t[0],
           r.height / t[3])
    else r
  }

  /** (n * d) / d == n for a non-zero d, stated once for the proofs below. */
  lemma DivCancel(n: real, d: real)
    requires d != 0.0
    ensures (n * d) / d == n
  {
  }

  /** Two quotients over a common non-zero divisor combine linearly. */
  lemma DivLinear(p: real, a: real, q: real, b: real, d: real)
    requires d != 0.0
    ensures p * (a / d) + q * (b / d) == (p * a + q * b) / d
  {
  }

  /**
   * The nullified corner is a preimage of the screen corner, coordinate by
   * coordinate: t0*left' + t2*top' + t4 == left and t1*left' + t3*top' + t5 == top.
   */
  lemma NullifyCornerIsPreimage(r: LTWH, t: seq<real>)
    requires |t| == 6 && Nullifiable(t)
    ensures var n := NullifyTransforms(r, t);
      t[0] * n.left + t[2] * n.top + t[4] == r.left &&
      t[1] * n.left + t[3] * n.top + t[5] == r.top
  {
    var det := Det(t);
    var a := r.left * t[3] - r.top * t[2] + t[2] * t[5] - t[4] * t[3];
    var b := -r.left * t[1] + r.top * t[0] + t[4] * t[1] - t[0] * t[5];
    assert t[0] * a + t[2] * b == (r.left - t[4]) * det;
    assert t[1] * a + t[3] * b == (r.top - t[5]) * det;
    DivLinear(t[0], a, t[2], b, det);
    DivLinear(t[1], a, t[3], b, det);
    DivCancel(r.left - t[4], det);
    DivCancel(r.top - t[5], det);
  }

  /** Nullifying and re-applying the transform gives back the screen rectangle. */
  lemma ApplyAfterNullify(r: LTWH, t: seq<real>)
    requires Nullifiable(t)
    ensures ApplyTransform(NullifyTransforms(r, t), t) == r
  {
    if |t| == 6 {
      NullifyCornerIsPreimage(r, t);
      var n := NullifyTransforms(r, t);
      assert n.width * t[0] == r.width;
      assert n.height * t[3] == r.height;
    }
  }

  /**
   * Applying the transform and nullifying it gives back the viewport-local
   * rectangle: with ApplyAfterNullify, the two maps are inverse bijections.
   */
  lemma NullifyAfterApply(r: LTWH, t: seq<real>)
    requires Nullifiable(t)
    ensures NullifyTransforms(ApplyTransform(r, t), t) == r
  {
    if |t| == 6 {
      var det := Det(t);
      var s := ApplyTransform(r, t);
      var a := s.left * t[3] - s.top * t[2] + t[2] * t[5] - t[4] * t[3];
      var b := -s.left * t[1] + s.top * t[0] + t[4] * t[1] - t[0] * t[5];
      assert a == r.left * det;
      assert b == r.top * det;
      DivCancel(r.left, det);
      DivCancel(r.top, det);
      DivCancel(r.width, t[0]);
      DivCancel(r.height, t[3]);
    }
  }

  /** The identity matrix leaves every rectangle unchanged. */
  lemma NullifyIdentity(r: LTWH)
    ensures NullifyTransforms(r, [1.0, 0.0, 0.0, 1.0, 0.0, 0.0]) == r
  {
  }

  /** A pure translation moves the corner back and keeps the size. */
  lemma NullifyTranslation(r: LTWH, e: real, f: real)
    ensures NullifyTransforms(r, [1.0, 0.0, 0.0, 1.0, e, f])
         == LTWH(r.left - e, r.top - f, r.width, r.height)
  {
  }

  /**
   * The size depends on the two scale entries alone: shear and translation
   * never change the nullified width or height.
   */
  lemma NullifySizeIgnoresShear(r: LTWH, t: seq<real>, u: seq<real>)
    requires |t| == 6 && |u| == 6 && Nullifiable(t) && Nullifiable(u)
    requires t[0] == u[0] && t[3] == u[3]
    ensures NullifyTransforms(r, t).width == NullifyTransforms(r, u).width
    ensures NullifyTransforms(r, t).height == NullifyTransforms(r, u).height
  {
  }

  /** With positive scales a rectangle of non-negative size keeps a non-negative size. */
  lemma NullifyKeepsSizeNonNegative(r: LTWH, t: seq<real>)
    requires |t| == 6 && Nullifiable(t) && t[0] > 0.0 && t[3] > 0.0
    requires r.width >= 0.0 && r.height >= 0.0
    ensures NullifyTransforms(r, t).width >= 0.0 && NullifyTransforms(r, t).height >= 0.0
  {
  }
}
