/**
 Frame-level classification of the second camera (`ClassificationWorker`): a dedicated
 classifier's probability vector, or the detector's per-anchor class scores folded into
 one score per class, reduced to a class index, a confidence and a label. The model
 runtime is an oracle: each frame carries the tensors the interpreter would return.
 */
module Classification {
  import opened Optional
  import opened Vectors
  import opened Decimal

  /** `(class_idx, conf)` as returned by the two classify functions. */
  datatype Choice = Choice(classIdx: nat, confidence: real)

  /**
   One queued frame: the camera it came from, what the model returns for it (the
   classifier's probability row and the detector's anchor-by-class scores) and the clock
   reading taken when the result is emitted.
   */
  datatype Frame = Frame(cameraId: string, probs: seq<real>, anchorScores: seq<seq<real>>, ts: real)

  /** The emitted payload: `{label, class_idx, confidence, ts}`. */
  datatype Classification = Classification(labelText: string, classIdx: nat, confidence: real, ts: real)

  /** A numpy matrix: every anchor row has one entry per class. */
  predicate Rectangular(m: seq<seq<real>>, classes: nat) {
    forall i :: 0 <= i < |m| ==> |m[i]| == classes
  }

  /** `classes.max(axis=0)[j]` over the first `n` anchors: the best score of class `j`. */
  function ColumnMax(m: seq<seq<real>>, j: nat, n: nat): (r: real)
    requires 0 < n <= |m| && forall i :: 0 <= i < n ==> j < |m[i]|
    ensures forall i :: 0 <= i < n ==> m[i][j] <= r
    ensures exists i :: 0 <= i < n && m[i][j] == r
    decreases n
  {
    if n == 1 then m[0][j] else Max(ColumnMax(m, j, n - 1), m[n - 1][j])
  }

  /** The per-class aggregate `agg`. */
  function Aggregate(m: seq<seq<real>>, classes: nat): (agg: seq<real>)
    requires |m| > 0 && Rectangular(m, classes)
    ensures |agg| == classes
  {
    seq(classes, j requires 0 <= j < classes => ColumnMax(m, j, |m|))
  }

  /**
   `_classify_with_ssd`: the best aggregate score and its first class. An empty tensor
   makes numpy raise, which is `None` here.
   */
  function ClassifySsd(m: seq<seq<real>>): (r: Option<Choice>)
    requires |m| > 0 ==> Rectangular(m, |m[0]|)
    ensures r.None? <==> |m| == 0 || |m[0]| == 0
    ensures r.Some? ==> r.value.classIdx < |m[0]|
  {
    if |m| == 0 || |m[0]| == 0 then None
    else
      var agg := Aggregate(m, |m[0]|);
      var k := ArgMax(agg);
      Some(Choice(k, agg[k]))
  }

  /**
   The SSD confidence is the largest score over all anchors and classes, some anchor
   attains it in the chosen class, and every earlier class falls short of it.
   */
  lemma SsdChoiceIsGlobalMax(m: seq<seq<real>>)
    requires |m| > 0 && |m[0]| > 0 && Rectangular(m, |m[0]|)
    ensures var c := ClassifySsd(m).value;
      && (forall i, j :: 0 <= i < |m| && 0 <= j < |m[i]| ==> m[i][j] <= c.confidence)
      && (exists i :: 0 <= i < |m| && m[i][c.classIdx] == c.confidence)
      && (forall j :: 0 <= j < c.classIdx ==> ColumnMax(m, j, |m|) < c.confidence)
  {
    var agg := Aggregate(m, |m[0]|);
    var k := ArgMax(agg);
    forall i, j | 0 <= i < |m| && 0 <= j < |m[i]|
      ensures m[i][j] <= agg[k]
    {
      assert m[i][j] <= agg[j];
    }
    assert forall j :: 0 <= j < k ==> agg[j] == ColumnMax(m, j, |m|);
  }

  /**
   The SSD class is the first class in which any anchor attains the global maximum score:
   a characterisation that does not mention the aggregate.
   */
  lemma SsdClassIsFirstAttaining(m: seq<seq<real>>, j: nat)
    requires |m| > 0 && |m[0]| > 0 && Rectangular(m, |m[0]|)
    requires j < |m[0]|
    requires exists i :: 0 <= i < |m| && m[i][j] == ClassifySsd(m).value.confidence
    ensures ClassifySsd(m).value.classIdx <= j
  {
    var c := ClassifySsd(m).value;
    SsdChoiceIsGlobalMax(m);
    var i :| 0 <= i < |m| && m[i][j] == c.confidence;
    assert m[i][j] <= ColumnMax(m, j, |m|);
  }

  /**
   `_classify_with_classifier`: the first index of the largest probability, with that
   probability as the confidence; an empty vector makes numpy raise.
   */
  function ClassifyWithClassifier(probs: seq<real>): (r: Option<Choice>)
    ensures r.None? <==> |probs| == 0
    ensures r.Some? ==> r.value.classIdx < |probs| && probs[r.value.classIdx] == r.value.confidence
  {
    if |probs| == 0 then None else Some(Choice(ArgMax(probs), MaxOf(probs)))
  }

  /** The classifier's confidence is the largest probability, first reached at the chosen class. */
  lemma ClassifierChoiceIsFirstMax(probs: seq<real>)
    requires |probs| > 0
    ensures var c := ClassifyWithClassifier(probs).value;
      && (forall j :: 0 <= j < |probs| ==> probs[j] <= c.confidence)
      && (forall j :: 0 <= j < c.classIdx ==> probs[j] < c.confidence)
  {
  }

  /** `ROAD_DAMAGE_CLASSES.get(class_idx, str(class_idx))`. */
  function Label(classes: map<nat, string>, idx: nat): (s: string)
    ensures idx in classes ==> s == classes[idx]
    ensures idx !in classes ==> s == NatToDecimal(idx) && DecimalToNat(s) == idx
  {
    DecimalRoundTrip(idx);
    if idx in classes then classes[idx] else NatToDecimal(idx)
  }

  /** Two unknown indices never share a fallback label. */
  lemma FallbackLabelsDistinct(classes: map<nat, string>, a: nat, b: nat)
    requires a !in classes && b !in classes && a != b
    ensures Label(classes, a) != Label(classes, b)
  {
    if Label(classes, a) == Label(classes, b) {
      NatToDecimalInjective(a, b);
    }
  }

  /** The classify function the worker chose at start-up, applied to one frame. */
  function Classify(useClassifier: bool, f: Frame): Option<Choice>
    requires |f.anchorScores| > 0 ==> Rectangular(f.anchorScores, |f.anchorScores[0]|)
  {
    if useClassifier then ClassifyWithClassifier(f.probs) else ClassifySsd(f.anchorScores)
  }

  predicate WellFormed(frames: seq<Frame>) {
    forall i :: 0 <= i < |frames| ==>
      |frames[i].anchorScores| > 0 ==> Rectangular(frames[i].anchorScores, |frames[i].anchorScores[0]|)
  }

  /** A queued frame together with what classifying it yields. */
  datatype Queued = Queued(frame: Frame, result: Option<Choice>)

  /** The queue with every frame's classify result attached, in order. */
  function Attach(useClassifier: bool, frames: seq<Frame>): (q: seq<Queued>)
    requires WellFormed(frames)
    ensures |q| == |frames|
    ensures forall i :: 0 <= i < |q| ==> q[i].frame == frames[i]
    ensures forall i :: 0 <= i < |q| ==> q[i].result == Classify(useClassifier, frames[i])
  {
    seq(|frames|, i requires 0 <= i < |frames| => Queued(frames[i], Classify(useClassifier, frames[i])))
  }

  /** Only frames from `cam1` are classified. */
  function FromCam1(q: seq<Queued>): (r: seq<Queued>)
    ensures |r| <= |q|
    ensures forall i :: 0 <= i < |r| ==> r[i].frame.cameraId == "cam1" && r[i] in q
    decreases |q|
  {
    if |q| == 0 then []
    else
      var rest := FromCam1(q[1..]);
      if q[0].frame.cameraId == "cam1" then [q[0]] + rest else rest
  }

  /**
   The worker loop of `run` over the queue: frames from another camera are skipped,
   each `cam1` frame yields one classification, and a classify error ends the loop, since
   the exception handler sits outside it.
   */
  function RunQueue(classes: map<nat, string>, q: seq<Queued>): (out: seq<Classification>)
    ensures |out| <= |FromCam1(q)|
    ensures forall k :: 0 <= k < |out| ==> out[k].labelText == Label(classes, out[k].classIdx)
    decreases |q|
  {
    if |q| == 0 then []
    else if q[0].frame.cameraId != "cam1" then RunQueue(classes, q[1..])
    else match q[0].result
      case None => []
      case Some(c) =>
        [Classification(Label(classes, c.classIdx), c.classIdx, c.confidence, q[0].frame.ts)]
        + RunQueue(classes, q[1..])
  }

  /** The k-th classification comes from the k-th selected frame's result and carries its time. */
  predicate Follows(out: seq<Classification>, sel: seq<Queued>) {
    && |out| <= |sel|
    && forall k :: 0 <= k < |out| ==>
         out[k].ts == sel[k].frame.ts && sel[k].result == Some(Choice(out[k].classIdx, out[k].confidence))
  }

  /** The k-th classification is the k-th `cam1` frame's result, stamped with that frame's time. */
  lemma {:induction false} RunQueueFollowsCam1(classes: map<nat, string>, q: seq<Queued>)
    ensures Follows(RunQueue(classes, q), FromCam1(q))
    decreases |q|
  {
    if |q| > 0 && q[0].frame.cameraId == "cam1" && q[0].result.Some? {
      var rest := q[1..];
      RunQueueFollowsCam1(classes, rest);
      var out, sel := RunQueue(classes, q), FromCam1(q);
      var tail, selTail := RunQueue(classes, rest), FromCam1(rest);
      var c := q[0].result.value;
      assert sel == [q[0]] + selTail;
      assert out == [Classification(Label(classes, c.classIdx), c.classIdx, c.confidence, q[0].frame.ts)] + tail;
      forall k | 0 < k < |out|
        ensures out[k].ts == sel[k].frame.ts
        ensures sel[k].result == Some(Choice(out[k].classIdx, out[k].confidence))
      {
        assert out[k] == tail[k - 1] && sel[k] == selTail[k - 1];
      }
    } else if |q| > 0 && q[0].frame.cameraId != "cam1" {
      RunQueueFollowsCam1(classes, q[1..]);
    }
  }

  /** The run stops short of the `cam1` frames only at a frame whose classification failed. */
  lemma {:induction false} RunQueueStopsAtFailure(classes: map<nat, string>, q: seq<Queued>)
    ensures var out, sel := RunQueue(classes, q), FromCam1(q);
      |out| < |sel| ==> sel[|out|].result.None?
    decreases |q|
  {
    if |q| > 0 && q[0].frame.cameraId == "cam1" && q[0].result.Some? {
      var rest := q[1..];
      RunQueueStopsAtFailure(classes, rest);
      var out, sel := RunQueue(classes, q), FromCam1(q);
      var tail, selTail := RunQueue(classes, rest), FromCam1(rest);
      var c := q[0].result.value;
      assert sel == [q[0]] + selTail;
      assert |out| == 1 + |tail|;
      if |out| < |sel| {
        assert sel[|out|] == selTail[|tail|];
      }
    } else if |q| > 0 && q[0].frame.cameraId != "cam1" {
      RunQueueStopsAtFailure(classes, q[1..]);
    }
  }

  /** Frames from other cameras change nothing: the run equals the run over `cam1` frames alone. */
  lemma {:induction false} RunQueueIgnoresOtherCameras(classes: map<nat, string>, q: seq<Queued>)
    ensures RunQueue(classes, q) == RunQueue(classes, FromCam1(q))
    decreases |q|
  {
    if |q| > 0 {
      var rest := q[1..];
      RunQueueIgnoresOtherCameras(classes, rest);
      if q[0].frame.cameraId == "cam1" {
        var sel := FromCam1(q);
        assert sel[0] == q[0] && sel[1..] == FromCam1(rest);
      }
    }
  }

  /** `run` with the classify function chosen at start-up. */
  function Run(useClassifier: bool, classes: map<nat, string>, frames: seq<Frame>): (out: seq<Classification>)
    requires WellFormed(frames)
    ensures |out| <= |frames|
    ensures forall k :: 0 <= k < |out| ==> out[k].labelText == Label(classes, out[k].classIdx)
  {
    RunQueue(classes, Attach(useClassifier, frames))
  }

  /**
   Each emitted classification is the chosen classify function applied to a `cam1` frame,
   and the run stops early only at a `cam1` frame that cannot be classified.
   */
  lemma RunClassifiesCam1Frames(useClassifier: bool, classes: map<nat, string>, frames: seq<Frame>)
    requires WellFormed(frames)
    ensures var out, sel := Run(useClassifier, classes, frames), FromCam1(Attach(useClassifier, frames));
      && (forall k :: 0 <= k < |out| ==>
            sel[k].frame in frames && sel[k].frame.cameraId == "cam1" && out[k].ts == sel[k].frame.ts
            && Classify(useClassifier, sel[k].frame) == Some(Choice(out[k].classIdx, out[k].confidence)))
      && (|out| < |sel| ==> Classify(useClassifier, sel[|out|].frame).None?)
  {
    var q := Attach(useClassifier, frames);
    RunQueueFollowsCam1(classes, q);
    RunQueueStopsAtFailure(classes, q);
    var sel := FromCam1(q);
    forall k | 0 <= k < |sel|
      ensures sel[k].frame in frames && sel[k].result == Classify(useClassifier, sel[k].frame)
    {
      var i :| 0 <= i < |q| && q[i] == sel[k];
    }
  }
}
