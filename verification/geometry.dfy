/**
 Normalised bounding boxes in the detector's corner order (y1, x1, y2, x2), and the
 intersection-over-union test used by non-maximum suppression.
 */
module Geometry {
  import opened Vectors

  datatype Box = Box(y1: real, x1: real, y2: real, x2: real)

  /** Every corner lies in the unit square. */
  predicate InUnitSquare(b: Box) {
    0.0 <= b.y1 <= 1.0 && 0.0 <= b.x1 <= 1.0 && 0.0 <= b.y2 <= 1.0 && 0.0 <= b.x2 <= 1.0
  }

  predicate PositiveArea(b: Box) {
    b.y1 < b.y2 && b.x1 < b.x2
  }

  /** `(y2 - y1) * (x2 - x1)`, signed as in the source. */
  function Area(b: Box): real {
    (b.y2 - b.y1) * (b.x2 - b.x1)
  }

  /** Overlap area: the clipped width times the clipped height, each floored at zero. */
  function Inter(a: Box, b: Box): (r: real)
    ensures r >= 0.0
  {
    var w := Max(0.0, Min(a.x2, b.x2) - Max(a.x1, b.x1));
    var h := Max(0.0, Min(a.y2, b.y2) - Max(a.y1, b.y1));
    ProductNonNegative(w, h);
    w * h
  }

  function Union(a: Box, b: Box): real {
    Area(a) + Area(b) - Inter(a, b)
  }

  /**
   The source keeps a later box exactly when `inter / union <= threshold` evaluates to
   true in floating point. When `union` is zero the quotient is NaN or an infinity and the
   comparison is false, so such a box is suppressed; otherwise it is the real quotient.
   */
  predicate Survives(kept: Box, other: Box, threshold: real) {
    Union(kept, other) != 0.0 && Inter(kept, other) / Union(kept, other) <= threshold
  }

  lemma ProductNonNegative(x: real, y: real)
    requires x >= 0.0 && y >= 0.0
    ensures x * y >= 0.0
  {
  }

  lemma ProductBounded(x: real, y: real, xMax: real, yMax: real)
    requires 0.0 <= x <= xMax && 0.0 <= y <= yMax
    ensures x * y <= xMax * yMax
  {
    assert x * y <= xMax * y;
    assert xMax * y <= xMax * yMax;
  }

  lemma SurvivesSymmetric(a: Box, b: Box, threshold: real)
    ensures Survives(a, b, threshold) <==> Survives(b, a, threshold)
  {
    assert Inter(a, b) == Inter(b, a);
  }

  /** The overlap never exceeds the area of a positive-area box. */
  lemma InterBounded(a: Box, b: Box)
    requires PositiveArea(a)
    ensures Inter(a, b) <= Area(a)
  {
    var w := Max(0.0, Min(a.x2, b.x2) - Max(a.x1, b.x1));
    var h := Max(0.0, Min(a.y2, b.y2) - Max(a.y1, b.y1));
    ProductBounded(h, w, a.y2 - a.y1, a.x2 - a.x1);
    assert Inter(a, b) == h * w;
  }

  lemma QuotientInUnit(i: real, areaA: real, areaB: real)
    requires 0.0 <= i <= areaA && i <= areaB && areaA > 0.0
    ensures areaA + areaB - i > 0.0
    ensures 0.0 <= i / (areaA + areaB - i) <= 1.0
  {
    var u := areaA + areaB - i;
    assert i <= u;
    assert i / u * u == i;
  }

  lemma PositiveAreaIsPositive(b: Box)
    requires PositiveArea(b)
    ensures Area(b) > 0.0
  {
  }

  /**
   For boxes of positive area the union is positive, so the floating-point subtlety
   disappears: a box survives exactly when the IoU, which lies in [0, 1], is at most the
   threshold.
   */
  lemma SurvivesIsIoUTest(a: Box, b: Box, threshold: real)
    requires PositiveArea(a) && PositiveArea(b)
    ensures Union(a, b) > 0.0
    ensures 0.0 <= Inter(a, b) / Union(a, b) <= 1.0
    ensures Survives(a, b, threshold) <==> Inter(a, b) / Union(a, b) <= threshold
  {
    var i := Inter(a, b);
    assert i <= Area(a) by {
      InterBounded(a, b);
    }
    assert i <= Area(b) by {
      InterBounded(b, a);
      assert Inter(a, b) == Inter(b, a);
    }
    assert Area(a) > 0.0 by {
      PositiveAreaIsPositive(a);
    }
    QuotientInUnit(i, Area(a), Area(b));
  }
}
