/**
 Post-processing of the detector's raw output (`InferenceWorker._postprocess`): per anchor,
 take the best class, drop weak, high-in-frame and badly sized boxes, convert the rest from
 centre format to clamped corners, and thin them out with non-maximum suppression.
 */
module Inference {
  import opened Vectors
  import opened Geometry
  import opened Nms

  /** One anchor of the model output: a centre-format box and per-class probabilities. */
  datatype Anchor = Anchor(cy: real, cx: real, bh: real, bw: real, probs: seq<real>)

  /** A detection that passed the filters, before suppression. */
  datatype Candidate = Candidate(box: Box, classIdx: nat, score: real)

  /** The three index-aligned lists the worker emits. */
  datatype Detections = Detections(boxes: seq<Box>, classes: seq<nat>, scores: seq<real>)

  const MinCentreY: real := 0.2
  const MinArea: real := 0.02
  const MaxArea: real := 0.80

  /** Every anchor carries at least one class probability (the model emits four). */
  predicate WellShaped(anchors: seq<Anchor>) {
    forall i :: 0 <= i < |anchors| ==> |anchors[i].probs| > 0
  }

  function Clamp01(v: real): (r: real)
    ensures 0.0 <= r <= 1.0
    ensures 0.0 <= v <= 1.0 ==> r == v
  {
    Clamp(v, 0.0, 1.0)
  }

  /** The three filters of the loop body: confidence, vertical position, area. */
  predicate Passes(a: Anchor, confThreshold: real)
    requires |a.probs| > 0
  {
    && !(MaxOf(a.probs) < confThreshold)
    && !(a.cy < MinCentreY)
    && !(a.bh * a.bw < MinArea || a.bh * a.bw > MaxArea)
  }

  /** Centre format to corners, each corner clamped to [0, 1]. */
  function Corners(a: Anchor): (b: Box)
    ensures InUnitSquare(b)
  {
    Box(Clamp01(a.cy - a.bh / 2.0), Clamp01(a.cx - a.bw / 2.0),
        Clamp01(a.cy + a.bh / 2.0), Clamp01(a.cx + a.bw / 2.0))
  }

  /** Non-negative sizes give correctly ordered corners, and clamping keeps them ordered. */
  lemma CornersOrdered(a: Anchor)
    requires a.bh >= 0.0 && a.bw >= 0.0
    ensures Corners(a).y1 <= Corners(a).y2 && Corners(a).x1 <= Corners(a).x2
  {
    ClampMonotone(a.cy - a.bh / 2.0, a.cy + a.bh / 2.0, 0.0, 1.0);
    ClampMonotone(a.cx - a.bw / 2.0, a.cx + a.bw / 2.0, 0.0, 1.0);
  }

  /** The candidate an anchor becomes: score is the top probability, class its first index. */
  function Convert(a: Anchor): (c: Candidate)
    requires |a.probs| > 0
    ensures c.classIdx < |a.probs| && c.score == a.probs[c.classIdx]
    ensures forall j :: 0 <= j < |a.probs| ==> a.probs[j] <= c.score
    ensures forall j :: 0 <= j < c.classIdx ==> a.probs[j] < c.score
    ensures InUnitSquare(c.box)
  {
    Candidate(Corners(a), ArgMax(a.probs), MaxOf(a.probs))
  }

  /** The loop over anchors, keeping the converted anchors that pass, in anchor order. */
  function Filter(anchors: seq<Anchor>, confThreshold: real): (r: seq<Candidate>)
    requires WellShaped(anchors)
    ensures |r| <= |anchors|
    ensures forall k :: 0 <= k < |r| ==> r[k].score >= confThreshold && InUnitSquare(r[k].box)
    ensures forall i :: 0 <= i < |anchors| && Passes(anchors[i], confThreshold) ==> Convert(anchors[i]) in r
    decreases |anchors|
  {
    if |anchors| == 0 then []
    else
      var rest := Filter(anchors[1..], confThreshold);
      assert forall i :: 1 <= i < |anchors| ==> anchors[i] == anchors[1..][i - 1];
      if Passes(anchors[0], confThreshold) then [Convert(anchors[0])] + rest else rest
  }

  /** `c` is what some passing anchor converts to. */
  predicate FromPassingAnchor(anchors: seq<Anchor>, confThreshold: real, c: Candidate)
    requires WellShaped(anchors)
  {
    exists i :: 0 <= i < |anchors| && Passes(anchors[i], confThreshold) && Convert(anchors[i]) == c
  }

  /** Nothing is emitted that did not come from a passing anchor. */
  lemma {:induction false} FilterSound(anchors: seq<Anchor>, confThreshold: real)
    requires WellShaped(anchors)
    ensures forall k :: 0 <= k < |Filter(anchors, confThreshold)| ==>
      FromPassingAnchor(anchors, confThreshold, Filter(anchors, confThreshold)[k])
    decreases |anchors|
  {
    if |anchors| > 0 {
      var tail := anchors[1..];
      var rest := Filter(tail, confThreshold);
      var r := Filter(anchors, confThreshold);
      assert forall k :: 0 <= k < |rest| ==> FromPassingAnchor(anchors, confThreshold, rest[k]) by {
        FilterSound(tail, confThreshold);
        forall k | 0 <= k < |rest|
          ensures FromPassingAnchor(anchors, confThreshold, rest[k])
        {
          assert FromPassingAnchor(tail, confThreshold, rest[k]);
          var i :| 0 <= i < |tail| && Passes(tail[i], confThreshold) && Convert(tail[i]) == rest[k];
          assert anchors[i + 1] == tail[i];
        }
      }
      if Passes(anchors[0], confThreshold) {
        assert r == [Convert(anchors[0])] + rest;
        forall k | 0 <= k < |r|
          ensures FromPassingAnchor(anchors, confThreshold, r[k])
        {
          if k > 0 {
            assert r[k] == rest[k - 1];
          }
        }
      } else {
        assert r == rest;
      }
    }
  }

  function BoxesOf(cs: seq<Candidate>): (r: seq<Box>)
    ensures |r| == |cs| && forall k :: 0 <= k < |cs| ==> r[k] == cs[k].box
  {
    seq(|cs|, k requires 0 <= k < |cs| => cs[k].box)
  }

  function ScoresOf(cs: seq<Candidate>): (r: seq<real>)
    ensures |r| == |cs| && forall k :: 0 <= k < |cs| ==> r[k] == cs[k].score
  {
    seq(|cs|, k requires 0 <= k < |cs| => cs[k].score)
  }

  /** `[valid[i] for i in keep]`, applied to the three lists at once. */
  function Select(cs: seq<Candidate>, keep: seq<nat>): (d: Detections)
    requires Indices(keep, |cs|)
    ensures |d.boxes| == |keep| && |d.classes| == |keep| && |d.scores| == |keep|
    ensures forall k :: 0 <= k < |keep| ==>
      Candidate(d.boxes[k], d.classes[k], d.scores[k]) == cs[keep[k]]
  {
    Detections(seq(|keep|, k requires 0 <= k < |keep| => cs[keep[k]].box),
               seq(|keep|, k requires 0 <= k < |keep| => cs[keep[k]].classIdx),
               seq(|keep|, k requires 0 <= k < |keep| => cs[keep[k]].score))
  }

  lemma SelectSound(anchors: seq<Anchor>, confThreshold: real, keep: seq<nat>, d: Detections)
    requires WellShaped(anchors)
    requires Indices(keep, |Filter(anchors, confThreshold)|)
    requires d == Select(Filter(anchors, confThreshold), keep)
    ensures forall k :: 0 <= k < |keep| ==>
      && FromPassingAnchor(anchors, confThreshold, Candidate(d.boxes[k], d.classes[k], d.scores[k]))
      && d.scores[k] >= confThreshold && InUnitSquare(d.boxes[k])
  {
    FilterSound(anchors, confThreshold);
  }

  lemma SelectOrdered(cs: seq<Candidate>, keep: seq<nat>, d: Detections)
    requires Indices(keep, |cs|) && SortedByScore(keep, ScoresOf(cs))
    requires d == Select(cs, keep)
    ensures forall a, b :: 0 <= a < b < |d.scores| ==> d.scores[a] >= d.scores[b]
  {
  }

  lemma SelectPairwise(cs: seq<Candidate>, keep: seq<nat>, nmsThreshold: real, d: Detections)
    requires Indices(keep, |cs|) && PairwisePass(BoxesOf(cs), IoUTest(nmsThreshold), keep)
    requires d == Select(cs, keep)
    ensures forall a, b :: 0 <= a < b < |d.boxes| ==> Survives(d.boxes[a], d.boxes[b], nmsThreshold)
  {
    forall a, b | 0 <= a < b < |d.boxes|
      ensures Survives(d.boxes[a], d.boxes[b], nmsThreshold)
    {
      assert IoUTest(nmsThreshold)(BoxesOf(cs)[keep[a]], BoxesOf(cs)[keep[b]]);
    }
  }

  /** An anchor that passes the filters makes the candidate list non-empty. */
  lemma FilterNonEmpty(anchors: seq<Anchor>, confThreshold: real)
    requires WellShaped(anchors)
    ensures (exists i :: 0 <= i < |anchors| && Passes(anchors[i], confThreshold)) ==>
      |Filter(anchors, confThreshold)| > 0
  {
    if exists i :: 0 <= i < |anchors| && Passes(anchors[i], confThreshold) {
      var i :| 0 <= i < |anchors| && Passes(anchors[i], confThreshold);
      assert Convert(anchors[i]) in Filter(anchors, confThreshold);
    }
  }

  /**
   The whole post-processing step. The three output lists have equal length and stay
   index-aligned: entry `k` of each is one passing anchor's box, class and score. Every
   emitted score reaches the confidence threshold, every corner lies in [0, 1], scores
   come out in non-increasing order, and no two emitted boxes fail the overlap test.
   */
  function Postprocess(anchors: seq<Anchor>, confThreshold: real, nmsThreshold: real): (d: Detections)
    requires WellShaped(anchors)
    ensures |d.boxes| == |d.classes| == |d.scores|
    ensures forall k :: 0 <= k < |d.boxes| ==>
      FromPassingAnchor(anchors, confThreshold, Candidate(d.boxes[k], d.classes[k], d.scores[k]))
    ensures forall k :: 0 <= k < |d.scores| ==> d.scores[k] >= confThreshold && InUnitSquare(d.boxes[k])
    ensures forall a, b :: 0 <= a < b < |d.scores| ==> d.scores[a] >= d.scores[b]
    ensures forall a, b :: 0 <= a < b < |d.boxes| ==> Survives(d.boxes[a], d.boxes[b], nmsThreshold)
    ensures (exists i :: 0 <= i < |anchors| && Passes(anchors[i], confThreshold)) ==> |d.boxes| > 0
  {
    var cs := Filter(anchors, confThreshold);
    FilterNonEmpty(anchors, confThreshold);
    if |cs| > 0 then
      var scores := ScoresOf(cs);
      var keep := ApplyNms(BoxesOf(cs), scores, ByScore(scores), nmsThreshold);
      var d := Select(cs, keep);
      SelectSound(anchors, confThreshold, keep, d);
      SelectOrdered(cs, keep, d);
      SelectPairwise(cs, keep, nmsThreshold, d);
      d
    else
      Detections([], [], [])
  }

  /** Output `k` is the candidate `c`: same box, class and score. */
  predicate Emitted(d: Detections, c: Candidate) {
    exists k :: 0 <= k < |d.boxes| && k < |d.classes| && k < |d.scores| &&
      Candidate(d.boxes[k], d.classes[k], d.scores[k]) == c
  }

  /** Some output scores at least as high as `c` and overlaps it beyond the threshold. */
  predicate Outranked(d: Detections, c: Candidate, nmsThreshold: real) {
    exists k :: 0 <= k < |d.boxes| && k < |d.scores| &&
      d.scores[k] >= c.score && !Survives(d.boxes[k], c.box, nmsThreshold)
  }

  /** What NMS over the filtered candidates does to candidate `j`: emitted, or outranked. */
  lemma NmsKeepsOrSuppresses(cs: seq<Candidate>, nmsThreshold: real, j: nat)
    requires j < |cs|
    ensures var scores := ScoresOf(cs);
      var d := Select(cs, ApplyNms(BoxesOf(cs), scores, ByScore(scores), nmsThreshold));
      && |d.scores| > 0 && cs[j].score <= d.scores[0]
      && (Emitted(d, cs[j]) || Outranked(d, cs[j], nmsThreshold))
  {
    var scores := ScoresOf(cs);
    var boxes := BoxesOf(cs);
    var keep := ApplyNms(boxes, scores, ByScore(scores), nmsThreshold);
    var d := Select(cs, keep);
    assert scores[j] <= scores[keep[0]];
    if j in keep {
      var k :| 0 <= k < |keep| && keep[k] == j;
      assert Candidate(d.boxes[k], d.classes[k], d.scores[k]) == cs[j];
    } else {
      assert SuppressedBy(boxes, scores, keep, IoUTest(nmsThreshold), j);
      var a :| 0 <= a < |keep| && !IoUTest(nmsThreshold)(boxes[keep[a]], boxes[j]) && scores[keep[a]] >= scores[j];
      assert d.boxes[a] == boxes[keep[a]] && d.scores[a] == scores[keep[a]];
    }
  }

  /**
   What happens to one passing anchor: the output is non-empty and led by a score at least
   its own, and the anchor is either emitted or suppressed by an output scoring at least as
   high that overlaps it beyond the threshold.
   */
  lemma PostprocessKeepsOrSuppresses(anchors: seq<Anchor>, confThreshold: real, nmsThreshold: real, i: nat)
    requires WellShaped(anchors) && i < |anchors| && Passes(anchors[i], confThreshold)
    ensures var d, c := Postprocess(anchors, confThreshold, nmsThreshold), Convert(anchors[i]);
      && |d.scores| > 0 && c.score <= d.scores[0]
      && (Emitted(d, c) || Outranked(d, c, nmsThreshold))
  {
    var cs := Filter(anchors, confThreshold);
    var j :| 0 <= j < |cs| && cs[j] == Convert(anchors[i]);
    NmsKeepsOrSuppresses(cs, nmsThreshold, j);
  }

  /**
   Post-processing loses no detection silently: every passing anchor is emitted, or an
   emitted box scoring at least as high overlaps it beyond the NMS threshold; and the first
   emitted score is the highest among all passing anchors.
   */
  lemma PostprocessComplete(anchors: seq<Anchor>, confThreshold: real, nmsThreshold: real)
    requires WellShaped(anchors)
    ensures var d := Postprocess(anchors, confThreshold, nmsThreshold);
      forall i :: 0 <= i < |anchors| && Passes(anchors[i], confThreshold) ==>
        && |d.scores| > 0 && Convert(anchors[i]).score <= d.scores[0]
        && (Emitted(d, Convert(anchors[i])) || Outranked(d, Convert(anchors[i]), nmsThreshold))
  {
    forall i | 0 <= i < |anchors| && Passes(anchors[i], confThreshold)
      ensures var d := Postprocess(anchors, confThreshold, nmsThreshold);
        && |d.scores| > 0 && Convert(anchors[i]).score <= d.scores[0]
        && (Emitted(d, Convert(anchors[i])) || Outranked(d, Convert(anchors[i]), nmsThreshold))
    {
      PostprocessKeepsOrSuppresses(anchors, confThreshold, nmsThreshold, i);
    }
  }
}
