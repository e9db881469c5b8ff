/**
 Ground-plane measurement (`MeasurementService`): a clamped pinhole distance estimate, a
 width derived from it, a clamped depth heuristic, and the blend that folds edge metrics
 into both. Edge metrics and intensity variance come from image processing outside this
 model and enter as inputs.
 */
module Measurement {
  import opened Optional
  import opened Vectors
  import opened Rounding
  import opened Geometry

  /** Per-camera constants: focal length in pixels, pixel size in mm, mount height in cm. */
  datatype Calibration = Calibration(focalLength: real, pixelSizeMm: real, cameraHeightCm: real)
  {
    /** The numerator of the similar-triangles estimate. */
    function HeightFocal(): real { cameraHeightCm * focalLength }
  }

  /** `_edge_metrics`: columns and rows with strong edges, and a strength normally in [0, 1]. */
  datatype EdgeMetrics = EdgeMetrics(widthPx: nat, heightPx: nat, strength: real)

  /** `(width_cm, depth_cm)` as returned by `measure_damage`. */
  datatype Measured = Measured(widthCm: real, depthCm: real)

  const CentreBandPx: real := 10.0
  const MinDistanceCm: real := 50.0
  const MaxDistanceCm: real := 500.0
  const MinDepthCm: real := 0.5
  const MaxDepthCm: real := 20.0
  const MaxEdgeDepthGainCm: real := 3.0

  /** Distance in pixels between the box bottom and the horizontal centre line. */
  function CentreOffset(bottomY: real, imageHeight: nat): (r: real)
    ensures r >= 0.0
  {
    Abs(bottomY * imageHeight as real - imageHeight as real / 2.0)
  }

  /**
   The distance rule as a function of the centre offset, given the camera height and the
   product of height and focal length.
   */
  function DistanceAt(height: real, heightFocal: real, offset: real): (d: real)
    ensures offset < CentreBandPx ==> d == height
    ensures offset >= CentreBandPx ==> MinDistanceCm <= d <= MaxDistanceCm
    ensures height >= 0.0 ==> d >= 0.0
  {
    if offset < CentreBandPx then height else FarDistance(heightFocal, offset)
  }

  /** The similar-triangles estimate `height * focal / offset`, clamped to [50, 500] cm. */
  function FarDistance(heightFocal: real, offset: real): (d: real)
    requires offset > 0.0
    ensures MinDistanceCm <= d <= MaxDistanceCm
  {
    Clamp(heightFocal / offset, MinDistanceCm, MaxDistanceCm)
  }

  /**
   `calculate_distance`: within 10 px of the centre line the camera height is returned
   as is; elsewhere the similar-triangles estimate is clamped to [50, 500] cm.
   */
  function Distance(cal: Calibration, bottomY: real, imageHeight: nat): (d: real)
    ensures CentreOffset(bottomY, imageHeight) < CentreBandPx ==> d == cal.cameraHeightCm
    ensures CentreOffset(bottomY, imageHeight) >= CentreBandPx ==> MinDistanceCm <= d <= MaxDistanceCm
    ensures cal.cameraHeightCm >= 0.0 ==> d >= 0.0
  {
    DistanceAt(cal.cameraHeightCm, cal.HeightFocal(), CentreOffset(bottomY, imageHeight))
  }

  lemma QuotientAntitone(c: real, p: real, q: real)
    requires c >= 0.0 && 0.0 < p <= q
    ensures c / q <= c / p
  {
    assert c / q * q == c;
    assert c / p * p == c;
    assert c / q * p <= c / q * q;
  }

  lemma QuotientMonotone(a: real, b: real, f: real)
    requires a <= b && f > 0.0
    ensures a / f <= b / f
  {
  }

  lemma FarDistanceAntitone(c: real, offset: real, offset': real)
    requires c >= 0.0 && 0.0 < offset <= offset'
    ensures FarDistance(c, offset') <= FarDistance(c, offset)
  {
    QuotientAntitone(c, offset, offset');
    ClampMonotone(c / offset', c / offset, MinDistanceCm, MaxDistanceCm);
  }

  lemma DistanceAtAntitone(height: real, heightFocal: real, offset: real, offset': real)
    requires heightFocal >= 0.0 && CentreBandPx <= offset <= offset'
    ensures DistanceAt(height, heightFocal, offset') <= DistanceAt(height, heightFocal, offset)
  {
    FarDistanceAntitone(heightFocal, offset, offset');
  }

  /**
   Farther from the centre line means no farther away: outside the centre band the
   distance does not increase with the offset (for a non-negative height-focal product).
   */
  lemma DistanceAntitone(cal: Calibration, y: real, y': real, imageHeight: nat)
    requires cal.HeightFocal() >= 0.0
    requires CentreBandPx <= CentreOffset(y, imageHeight) <= CentreOffset(y', imageHeight)
    ensures Distance(cal, y', imageHeight) <= Distance(cal, y, imageHeight)
  {
    DistanceAtAntitone(cal.cameraHeightCm, cal.HeightFocal(), CentreOffset(y, imageHeight), CentreOffset(y', imageHeight));
  }

  /** Horizontal span of the box in pixels, `abs(x2 - x1) * image_width`. */
  function SpanPx(b: Box, imageWidth: nat): (r: real)
    ensures r >= 0.0
  {
    ProductNonNegative(Abs(b.x2 - b.x1), imageWidth as real);
    Abs(b.x2 - b.x1) * imageWidth as real
  }

  /** Physical size of `px` pixels seen at distance `d`: `px * d / focal`. */
  function PixelsToCm(cal: Calibration, px: real, d: real): (r: real)
    requires cal.focalLength != 0.0
    ensures cal.focalLength > 0.0 && px >= 0.0 && d >= 0.0 ==> r >= 0.0
  {
    if cal.focalLength > 0.0 && px >= 0.0 && d >= 0.0 then
      ProductNonNegative(px, d);
      assert px * d / cal.focalLength >= 0.0;
      px * d / cal.focalLength
    else
      px * d / cal.focalLength
  }

  /**
   `estimate_width`: the bottom of the box is the larger of its two y coordinates and the
   span is the absolute x difference, so the estimate is symmetric in the corner order.
   The result has one decimal and is non-negative for a positive focal length and a
   non-negative camera height.
   */
  function EstimateWidth(cal: Calibration, b: Box, imageWidth: nat, imageHeight: nat): (w: real)
    requires cal.focalLength != 0.0
    ensures OneDecimal(w)
    ensures cal.focalLength > 0.0 && cal.cameraHeightCm >= 0.0 ==> w >= 0.0
  {
    var raw := PixelsToCm(cal, SpanPx(b, imageWidth), Distance(cal, Max(b.y1, b.y2), imageHeight));
    if raw >= 0.0 then
      Round1Monotone(0.0, raw);
      Round1Fixed(0.0);
      Round1(raw)
    else
      Round1(raw)
  }

  /** Swapping the two x coordinates or the two y coordinates leaves the width unchanged. */
  lemma WidthCornerSymmetric(cal: Calibration, b: Box, imageWidth: nat, imageHeight: nat)
    requires cal.focalLength != 0.0
    ensures EstimateWidth(cal, Box(b.y1, b.x2, b.y2, b.x1), imageWidth, imageHeight) == EstimateWidth(cal, b, imageWidth, imageHeight)
    ensures EstimateWidth(cal, Box(b.y2, b.x1, b.y1, b.x2), imageWidth, imageHeight) == EstimateWidth(cal, b, imageWidth, imageHeight)
  {
    assert Max(b.y2, b.y1) == Max(b.y1, b.y2);
    assert Distance(cal, Max(b.y2, b.y1), imageHeight) == Distance(cal, Max(b.y1, b.y2), imageHeight);
    assert SpanPx(Box(b.y2, b.x1, b.y1, b.x2), imageWidth) == SpanPx(b, imageWidth);
    assert SpanPx(Box(b.y1, b.x2, b.y2, b.x1), imageWidth) == SpanPx(b, imageWidth) by {
      assert Abs(b.x1 - b.x2) == Abs(b.x2 - b.x1);
    }
  }

  lemma SpanPxMonotone(b: Box, b': Box, imageWidth: nat)
    requires Abs(b.x2 - b.x1) <= Abs(b'.x2 - b'.x1)
    ensures SpanPx(b, imageWidth) <= SpanPx(b', imageWidth)
  {
    ProductBounded(Abs(b.x2 - b.x1), imageWidth as real, Abs(b'.x2 - b'.x1), imageWidth as real);
  }

  lemma PixelsToCmMonotone(cal: Calibration, px: real, px': real, d: real)
    requires cal.focalLength > 0.0 && 0.0 <= px <= px' && d >= 0.0
    ensures PixelsToCm(cal, px, d) <= PixelsToCm(cal, px', d)
  {
    ProductBounded(px, d, px', d);
    QuotientMonotone(px * d, px' * d, cal.focalLength);
  }

  /** With the bottom fixed, a wider box never gets a smaller width estimate. */
  lemma WidthMonotoneInSpan(cal: Calibration, b: Box, b': Box, imageWidth: nat, imageHeight: nat)
    requires cal.focalLength > 0.0 && cal.cameraHeightCm >= 0.0
    requires Max(b.y1, b.y2) == Max(b'.y1, b'.y2)
    requires Abs(b.x2 - b.x1) <= Abs(b'.x2 - b'.x1)
    ensures EstimateWidth(cal, b, imageWidth, imageHeight) <= EstimateWidth(cal, b', imageWidth, imageHeight)
  {
    var d := Distance(cal, Max(b.y1, b.y2), imageHeight);
    var p, p' := SpanPx(b, imageWidth), SpanPx(b', imageWidth);
    SpanPxMonotone(b, b', imageWidth);
    PixelsToCmMonotone(cal, p, p', d);
    Round1Monotone(PixelsToCm(cal, p, d), PixelsToCm(cal, p', d));
  }

  /** The area heuristic: small boxes read as deep damage, large ones as shallow. */
  function AreaDepth(area: real): real {
    if area < 0.5 then 15.0 * (1.0 - area) else 3.0 * (1.0 - area)
  }

  /** The variance heuristic, `min(variance * 10, 10)`: never more than 10. */
  function VarianceDepth(variance: real): (r: real)
    ensures r <= 10.0
  {
    Min(variance * 10.0, 10.0)
  }

  /** The unclamped depth: the area heuristic alone, or its mean with the variance one. */
  function RawDepth(b: Box, variance: Option<real>): real {
    var area := (b.x2 - b.x1) * (b.y2 - b.y1);
    match variance
    case None => AreaDepth(area)
    case Some(v) => (AreaDepth(area) + VarianceDepth(v)) / 2.0
  }

  /** `estimate_depth`: the raw depth clamped to [0.5, 20] and rounded to one decimal. */
  function EstimateDepth(b: Box, variance: Option<real>): (d: real)
    ensures MinDepthCm <= d <= MaxDepthCm
    ensures OneDecimal(d)
  {
    var c := Clamp(RawDepth(b, variance), MinDepthCm, MaxDepthCm);
    Round1Monotone(MinDepthCm, c);
    Round1Monotone(c, MaxDepthCm);
    Round1Fixed(MinDepthCm);
    Round1Fixed(MaxDepthCm);
    Round1(c)
  }

  lemma AreaDepthAntitone(area: real, area': real)
    requires area <= area'
    ensures AreaDepth(area') <= AreaDepth(area)
  {
  }

  /** A box of larger area is never estimated deeper, with or without a variance. */
  lemma DepthAntitoneInArea(b: Box, b': Box, variance: Option<real>)
    requires (b.x2 - b.x1) * (b.y2 - b.y1) <= (b'.x2 - b'.x1) * (b'.y2 - b'.y1)
    ensures EstimateDepth(b', variance) <= EstimateDepth(b, variance)
  {
    AreaDepthAntitone((b.x2 - b.x1) * (b.y2 - b.y1), (b'.x2 - b'.x1) * (b'.y2 - b'.y1));
    assert RawDepth(b', variance) <= RawDepth(b, variance);
    ClampMonotone(RawDepth(b', variance), RawDepth(b, variance), MinDepthCm, MaxDepthCm);
    Round1Monotone(Clamp(RawDepth(b', variance), MinDepthCm, MaxDepthCm), Clamp(RawDepth(b, variance), MinDepthCm, MaxDepthCm));
  }

  /** More intensity variance never gives a shallower estimate. */
  lemma DepthMonotoneInVariance(b: Box, v: real, v': real)
    requires v <= v'
    ensures EstimateDepth(b, Some(v)) <= EstimateDepth(b, Some(v'))
  {
    assert RawDepth(b, Some(v)) <= RawDepth(b, Some(v'));
    ClampMonotone(RawDepth(b, Some(v)), RawDepth(b, Some(v')), MinDepthCm, MaxDepthCm);
    Round1Monotone(Clamp(RawDepth(b, Some(v)), MinDepthCm, MaxDepthCm), Clamp(RawDepth(b, Some(v')), MinDepthCm, MaxDepthCm));
  }

  /** The variance term saturates: any variance of 1 or more counts as exactly 1. */
  lemma VarianceSaturates(b: Box, v: real)
    requires v >= 1.0
    ensures EstimateDepth(b, Some(v)) == EstimateDepth(b, Some(1.0))
  {
    assert VarianceDepth(v) == VarianceDepth(1.0);
  }

  /**
   The last step of `calculate_intensity_variance`: an empty region gives 0, otherwise
   the variance divided by 10000 and capped at 1.
   */
  function NormalizedVariance(regionEmpty: bool, variance: real): (r: real)
    ensures r <= 1.0
    ensures regionEmpty ==> r == 0.0
    ensures variance >= 0.0 ==> r >= 0.0
    ensures !regionEmpty && 0.0 <= variance <= 10000.0 ==> r * 10000.0 == variance
  {
    if regionEmpty then 0.0 else Min(variance / 10000.0, 1.0)
  }

  /** Weight of the edge estimate in the width blend, `min(0.8, 0.4 + 0.4 * strength)`. */
  function EdgeWeight(strength: real): (alpha: real)
    ensures 0.0 <= strength <= 1.0 ==> 0.4 <= alpha <= 0.8
    ensures alpha <= 0.8
  {
    Min(0.8, 0.4 + 0.4 * strength)
  }

  /** Width implied by the edge span, at the same distance as the box estimate. */
  function EdgeWidth(cal: Calibration, b: Box, imageHeight: nat, edgeWidthPx: nat): real
    requires cal.focalLength != 0.0
  {
    PixelsToCm(cal, edgeWidthPx as real, Distance(cal, Max(b.y1, b.y2), imageHeight))
  }

  /** A convex combination lies between its two ends. */
  lemma BlendBetween(alpha: real, e: real, w: real)
    requires 0.0 <= alpha <= 1.0
    ensures Between(alpha * e + (1.0 - alpha) * w, e, w)
  {
    var v := alpha * e + (1.0 - alpha) * w;
    assert v - e == (1.0 - alpha) * (w - e);
    assert w - v == alpha * (w - e);
    if e <= w {
      ProductNonNegative(1.0 - alpha, w - e);
      ProductNonNegative(alpha, w - e);
    } else {
      ProductNonNegative(1.0 - alpha, e - w);
      ProductNonNegative(alpha, e - w);
    }
  }

  /** Rounding a value that lies between `x` and a one-decimal `w` stays between `Round1(x)` and `w`. */
  lemma RoundedBetween(v: real, x: real, w: real)
    requires Between(v, x, w) && OneDecimal(w)
    ensures Between(Round1(v), Round1(x), w)
  {
    Round1Fixed(w);
    if x <= w {
      Round1Monotone(x, v);
      Round1Monotone(v, w);
    } else {
      Round1Monotone(w, v);
      Round1Monotone(v, x);
    }
  }

  /** The edge adjustment of the depth: add `min(3, 3 * strength)`, cap at 20, round. */
  function AdjustDepth(depth: real, strength: real): (d: real)
    requires MinDepthCm <= depth <= MaxDepthCm && OneDecimal(depth)
    ensures d <= MaxDepthCm
    ensures strength >= 0.0 ==> depth <= d <= depth + MaxEdgeDepthGainCm
  {
    var raised := Min(MaxDepthCm, depth + Min(MaxEdgeDepthGainCm, MaxEdgeDepthGainCm * strength));
    Round1Monotone(raised, MaxDepthCm);
    Round1Fixed(MaxDepthCm);
    if strength >= 0.0 then
      Round1Monotone(depth, raised);
      Round1Fixed(depth);
      OneDecimalSum(depth, MaxEdgeDepthGainCm);
      Round1Fixed(depth + MaxEdgeDepthGainCm);
      Round1Monotone(raised, depth + MaxEdgeDepthGainCm);
      Round1(raised)
    else
      Round1(raised)
  }

  /**
   The width half of `measure_damage`. Without an edge span it is the box estimate; with
   one and a strength in [0, 1] it lies between the (rounded) edge estimate and the box
   estimate.
   */
  function DamageWidth(cal: Calibration, b: Box, imageWidth: nat, imageHeight: nat, edges: EdgeMetrics): (w: real)
    requires cal.focalLength != 0.0
    ensures edges.widthPx == 0 ==> w == EstimateWidth(cal, b, imageWidth, imageHeight)
    ensures edges.widthPx > 0 && 0.0 <= edges.strength <= 1.0 ==>
      Between(w, Round1(EdgeWidth(cal, b, imageHeight, edges.widthPx)), EstimateWidth(cal, b, imageWidth, imageHeight))
  {
    var boxWidth := EstimateWidth(cal, b, imageWidth, imageHeight);
    if edges.widthPx > 0 then
      var alpha := EdgeWeight(edges.strength);
      var edgeWidth := EdgeWidth(cal, b, imageHeight, edges.widthPx);
      var blend := alpha * edgeWidth + (1.0 - alpha) * boxWidth;
      if 0.0 <= edges.strength <= 1.0 then
        BlendBetween(alpha, edgeWidth, boxWidth);
        RoundedBetween(blend, edgeWidth, boxWidth);
        Round1(blend)
      else
        Round1(blend)
    else boxWidth
  }

  /**
   The depth half of `measure_damage`, which never divides by the focal length. It never
   exceeds 20, is the plain estimate when no edge rows were found, and is raised by at most
   3 when they were; for a non-negative strength it stays at least 0.5.
   */
  function DamageDepth(b: Box, edges: EdgeMetrics, variance: Option<real>): (d: real)
    ensures d <= MaxDepthCm
    ensures edges.heightPx == 0 ==> d == EstimateDepth(b, variance)
    ensures edges.heightPx > 0 && edges.strength >= 0.0 ==>
      EstimateDepth(b, variance) <= d <= EstimateDepth(b, variance) + MaxEdgeDepthGainCm
    ensures edges.heightPx == 0 || edges.strength >= 0.0 ==> MinDepthCm <= d
  {
    var depth := EstimateDepth(b, variance);
    if edges.heightPx > 0 then AdjustDepth(depth, edges.strength) else depth
  }

  /**
   Both x corners are whole numbers. The clamp to [0, 1] returns its bound itself, a
   Python integer, for a coordinate at or below 0 or above 1, so the pixel width of such a
   box is a plain Python number rather than a NumPy one.
   */
  predicate WholeSpan(b: Box) {
    (b.x1 == 0.0 || b.x1 == 1.0) && (b.x2 == 0.0 || b.x2 == 1.0)
  }

  /**
   When `measure_damage` raises `ZeroDivisionError`: the focal length is zero and a plain
   Python number is divided by it, either the edge span (an `int`) or the pixel width of a
   box with whole x corners. Dividing a NumPy value by zero yields infinity or NaN instead.
   */
  predicate DividesByZero(cal: Calibration, b: Box, edges: EdgeMetrics) {
    cal.focalLength == 0.0 && (edges.widthPx > 0 || WholeSpan(b))
  }

  /**
   `measure_damage` over its inputs, for a non-zero focal length: the width of
   `DamageWidth` beside the depth of `DamageDepth`, each keeping its bounds.
   */
  function MeasureDamage(cal: Calibration, b: Box, imageWidth: nat, imageHeight: nat,
                         edges: EdgeMetrics, variance: Option<real>): (m: Measured)
    requires cal.focalLength != 0.0
    ensures edges.widthPx == 0 ==> m.widthCm == EstimateWidth(cal, b, imageWidth, imageHeight)
    ensures edges.widthPx > 0 && 0.0 <= edges.strength <= 1.0 ==>
      Between(m.widthCm, Round1(EdgeWidth(cal, b, imageHeight, edges.widthPx)), EstimateWidth(cal, b, imageWidth, imageHeight))
    ensures m.depthCm <= MaxDepthCm
    ensures edges.heightPx == 0 ==> m.depthCm == EstimateDepth(b, variance)
    ensures edges.heightPx > 0 && edges.strength >= 0.0 ==>
      EstimateDepth(b, variance) <= m.depthCm <= EstimateDepth(b, variance) + MaxEdgeDepthGainCm
    ensures edges.heightPx == 0 || edges.strength >= 0.0 ==> MinDepthCm <= m.depthCm
  {
    Measured(DamageWidth(cal, b, imageWidth, imageHeight, edges), DamageDepth(b, edges, variance))
  }
}
