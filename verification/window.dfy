/**
 The detection handler of the main window (`_on_detections`): every detected box is
 named through the class table, measured with its camera's calibration, written to the
 ledger as an unsynced row and counted. The most recent `cam1` classification is shown
 beside the boxes while it is fresh. Image processing, the clocks and the outcome of each
 insert are oracles indexed by the box's position.
 */
module Window {
  import opened Optional
  import opened Vectors
  import opened Tally
  import opened Geometry
  import opened Measurement
  import opened Ledger
  import opened Classification

  /** The configuration values the handler reads. */
  datatype Config = Config(classes: map<nat, string>, threshold: real, cam0: Calibration, cam1: Calibration)

  /** The values used when the environment overrides nothing. */
  const Defaults: Config := Config(
    map[0 := "amblas", 1 := "bergelombang", 2 := "berlubang", 3 := "retak_buaya"],
    0.6,
    Calibration(800.0, 0.00375, 150.0),
    Calibration(800.0, 0.00375, 150.0))

  /** How long a classification stays on screen, in seconds. */
  const FreshSeconds: real := 3.0

  /** `cam0` has its own measurement service; every other camera uses the second one. */
  function CalibrationFor(cfg: Config, cameraId: string): (cal: Calibration)
    ensures cameraId == "cam0" ==> cal == cfg.cam0
    ensures cameraId != "cam0" ==> cal == cfg.cam1
  {
    if cameraId == "cam0" then cfg.cam0 else cfg.cam1
  }

  /**
   The classification drawn next to a box: the last one, when it has a non-zero time
   stamp less than three seconds old and a confidence at the threshold or above.
   */
  function Annotation(last: Option<Classification>, now: real, threshold: real): (shown: Option<Classification>)
    ensures shown.Some? ==> shown == last
    ensures shown.Some? <==>
      last.Some? && last.value.ts != 0.0 && now - last.value.ts < FreshSeconds && last.value.confidence >= threshold
  {
    match last
    case None => None
    case Some(c) =>
      if c.ts != 0.0 && now - c.ts < FreshSeconds && c.confidence >= threshold then last else None
  }

  /** Three seconds after its time stamp a classification is no longer shown. */
  lemma AnnotationExpires(last: Option<Classification>, now: real, threshold: real)
    requires last.Some? && now >= last.value.ts + FreshSeconds
    ensures Annotation(last, now, threshold).None?
  {
  }

  /** A classification shown now was also shown at every earlier instant after its stamp. */
  lemma AnnotationShownUntilExpiry(last: Option<Classification>, now: real, earlier: real, threshold: real)
    requires Annotation(last, now, threshold).Some? && earlier <= now
    ensures Annotation(last, earlier, threshold) == last
  {
  }

  /** Lowering the threshold never hides a classification. */
  lemma AnnotationThresholdAntitone(last: Option<Classification>, now: real, t: real, t': real)
    requires t' <= t && Annotation(last, now, t).Some?
    ensures Annotation(last, now, t') == last
  {
  }

  /** `detection_counts` and `total_detections`. */
  datatype Counters = Counters(perClass: map<string, nat>, total: nat)

  /** One counter per class name, and the total is their sum. */
  ghost predicate Consistent(c: Counters, classes: map<nat, string>) {
    c.perClass.Keys == classes.Values && c.total == SumCounts(c.perClass)
  }

  /** The counters at start-up: every class name at zero. */
  function InitialCounters(classes: map<nat, string>): (c: Counters)
    ensures c.perClass.Keys == classes.Values && c.total == 0
    ensures forall name :: name in c.perClass ==> c.perClass[name] == 0
    ensures Consistent(c, classes)
  {
    var c := Counters(map name | name in classes.Values :: 0, 0);
    SumOverZero(c.perClass, c.perClass.Keys);
    c
  }

  /** Counting one detection raises its class counter and the total by one. */
  function Count(c: Counters, name: string): (r: Counters)
    ensures r.total == c.total + 1
    ensures r.perClass.Keys == c.perClass.Keys + {name}
    ensures r.perClass[name] == (if name in c.perClass then c.perClass[name] else 0) + 1
    ensures forall n :: n in c.perClass && n != name ==> r.perClass[n] == c.perClass[n]
  {
    Counters(Bump(c.perClass, name), c.total + 1)
  }

  /** Counting a known class name keeps the counters consistent. */
  lemma CountConsistent(c: Counters, classes: map<nat, string>, name: string)
    requires Consistent(c, classes) && name in classes.Values
    ensures Consistent(Count(c, name), classes)
  {
    SumCountsBump(c.perClass, name);
  }

  /**
   What image processing yields for one box: its edge metrics, whether its pixel region
   is empty, and the raw grey-level variance `np.var` of that region.
   */
  datatype Probe = Probe(edges: EdgeMetrics, regionEmpty: bool, variance: real)

  /**
   The outside world for the k-th box: its image measurements, whether its insert
   succeeds, the wall clock read for the annotation and SQLite's `CURRENT_TIMESTAMP`.
   */
  datatype Oracles = Oracles(probe: nat -> Probe, insertOk: nat -> bool, clock: nat -> real, dbNow: nat -> string)

  /** The result dictionary the inference worker emits, without the frame pixels. */
  datatype DetectionEvent = DetectionEvent(
    cameraId: string, boxes: seq<Box>, classes: seq<nat>, scores: seq<real>,
    imageWidth: nat, imageHeight: nat)

  /** Everything one call of the handler reads besides the detections. */
  datatype Context = Context(cfg: Config, ev: DetectionEvent, env: Oracles, last: Option<Classification>)

  /** One element of `zip(boxes, classes, scores)`. */
  datatype Detection = Detection(box: Box, classIdx: nat, score: real)

  /** `zip` stops at the shortest of the three lists. */
  function Zip(boxes: seq<Box>, classes: seq<nat>, scores: seq<real>): (ds: seq<Detection>)
    ensures |ds| <= |boxes| && |ds| <= |classes| && |ds| <= |scores|
    ensures |ds| == |boxes| || |ds| == |classes| || |ds| == |scores|
    ensures forall i :: 0 <= i < |ds| ==> ds[i] == Detection(boxes[i], classes[i], scores[i])
  {
    var n := if |boxes| <= |classes| && |boxes| <= |scores| then |boxes|
      else if |classes| <= |scores| then |classes| else |scores|;
    seq(n, i requires 0 <= i < n => Detection(boxes[i], classes[i], scores[i]))
  }

  /**
   The k-th box stops the handler: its class index is not in the class table (the lookup
   raises `KeyError`), or its camera's focal length is zero and measuring it divides a
   plain Python number by zero.
   */
  predicate Raises(ctx: Context, k: nat, d: Detection) {
    || d.classIdx !in ctx.cfg.classes
    || DividesByZero(CalibrationFor(ctx.cfg, ctx.ev.cameraId), d.box, ctx.env.probe(k).edges)
  }

  /**
   The width `measure_damage` gives the k-th box: none for a zero focal length (the source
   divides a NumPy value by zero there), otherwise the measured width, which is the box
   estimate when no edge span was found.
   */
  function WidthAt(ctx: Context, k: nat, d: Detection): (w: Option<real>)
    ensures var cal := CalibrationFor(ctx.cfg, ctx.ev.cameraId);
      && (w.Some? <==> cal.focalLength != 0.0)
      && (w.Some? && ctx.env.probe(k).edges.widthPx == 0 ==>
            w.value == EstimateWidth(cal, d.box, ctx.ev.imageWidth, ctx.ev.imageHeight))
  {
    var cal := CalibrationFor(ctx.cfg, ctx.ev.cameraId);
    if cal.focalLength == 0.0 then None
    else Some(DamageWidth(cal, d.box, ctx.ev.imageWidth, ctx.ev.imageHeight, ctx.env.probe(k).edges))
  }

  /**
   The depth `measure_damage` gives the k-th box, with the variance always computed and
   normalised: at most 20 cm, and without edge rows the estimate from the box and the
   normalised variance.
   */
  function DepthAt(ctx: Context, k: nat, d: Detection): (depth: real)
    ensures depth <= MaxDepthCm
    ensures var p := ctx.env.probe(k);
      p.edges.heightPx == 0 ==> depth == EstimateDepth(d.box, Some(NormalizedVariance(p.regionEmpty, p.variance)))
  {
    var p := ctx.env.probe(k);
    DamageDepth(d.box, p.edges, Some(NormalizedVariance(p.regionEmpty, p.variance)))
  }

  /**
   The dictionary saved for the k-th box: the camera, the class name, the score, the
   measurement, the four box coordinates and `synced = 0`; the time stamp is left to the
   column default and location and image path stay NULL.
   */
  function RecordFor(ctx: Context, k: nat, d: Detection): (nr: NewRow)
    requires !Raises(ctx, k, d)
    ensures nr.cameraId == ctx.ev.cameraId && nr.confidence == d.score
    ensures nr.roadClass in ctx.cfg.classes.Values && nr.roadClass == ctx.cfg.classes[d.classIdx]
    ensures nr.synced == Some(0) && nr.timestamp.None?
    ensures nr.widthCm.Some? <==> CalibrationFor(ctx.cfg, ctx.ev.cameraId).focalLength != 0.0
    ensures nr.depthCm.Some? && nr.depthCm.value <= MaxDepthCm
    ensures nr.bboxX1 == Some(d.box.x1) && nr.bboxY1 == Some(d.box.y1)
    ensures nr.bboxX2 == Some(d.box.x2) && nr.bboxY2 == Some(d.box.y2)
    ensures nr.latitude.None? && nr.longitude.None? && nr.imagePath.None?
  {
    NewRow(ctx.ev.cameraId, ctx.cfg.classes[d.classIdx], d.score, WidthAt(ctx, k, d), Some(DepthAt(ctx, k, d)),
           Some(d.box.x1), Some(d.box.y1), Some(d.box.x2), Some(d.box.y2),
           None, None, None, None, Some(0))
  }

  /**
   What the handler does with the k-th box. It depends only on the box, its position, the
   configuration and the outside world, never on what earlier boxes did, so it can be
   decided up front: abort on a box that raises, otherwise save its record and draw the
   annotation.
   */
  datatype Plan = Abort | Save(record: NewRow, shown: Option<Classification>)

  function PlanFor(ctx: Context, k: nat, d: Detection): (p: Plan)
    ensures p.Abort? <==> Raises(ctx, k, d)
    ensures p.Save? ==> p.record.roadClass in ctx.cfg.classes.Values && p.record.synced == Some(0)
  {
    if Raises(ctx, k, d) then Abort
    else
      Save(RecordFor(ctx, k, d), Annotation(ctx.last, ctx.env.clock(k), ctx.cfg.threshold))
  }

  /** The plan of every zipped box, in order. */
  function Plans(ctx: Context, ds: seq<Detection>): (ps: seq<Plan>)
    ensures |ps| == |ds|
    ensures forall k :: 0 <= k < |ds| ==> ps[k] == PlanFor(ctx, k, ds[k])
  {
    seq(|ds|, k requires 0 <= k < |ds| => PlanFor(ctx, k, ds[k]))
  }

  /** Every record a plan saves names a class of the table and is unsynced. */
  predicate Known(ps: seq<Plan>, classes: map<nat, string>) {
    forall k :: 0 <= k < |ps| && ps[k].Save? ==>
      ps[k].record.roadClass in classes.Values && ps[k].record.synced == Some(0)
  }

  /**
   The window's state after some boxes: the ledger, the counters, the records built,
   the annotation drawn for each, and whether an exception ended the handler.
   */
  datatype Handled = Handled(
    ledger: Ledger, counters: Counters, records: seq<NewRow>,
    shown: seq<Option<Classification>>, raised: bool)

  /** The state the handler starts from: nothing processed yet. */
  function Start(l: Ledger, c: Counters): Handled {
    Handled(l, c, [], [], false)
  }

  /**
   One iteration, with the insert's outcome and the database's time. After an exception
   nothing happens. A failed insert is caught and logged, so the box is counted either
   way. Rows already stored never change.
   */
  function Step(h: Handled, p: Plan, ok: bool, now: string): (r: Handled)
    requires Valid(h.ledger)
    ensures Valid(r.ledger)
    ensures forall id :: id in h.ledger.rows ==> id in r.ledger.rows && r.ledger.rows[id] == h.ledger.rows[id]
  {
    if h.raised || p.Abort? then h.(raised := true)
    else
      var l := if ok then Insert(h.ledger, p.record, now).ledger else h.ledger;
      Handled(l, Count(h.counters, p.record.roadClass), h.records + [p.record], h.shown + [p.shown], false)
  }

  /**
   The loop over the boxes, one `Step` per plan in order: there is a record and an
   annotation for each box handled, every record is counted, and rows already in the
   ledger are kept as they were.
   */
  function Run(l: Ledger, c: Counters, ps: seq<Plan>, env: Oracles): (r: Handled)
    requires Valid(l)
    ensures Valid(r.ledger)
    ensures |r.records| == |r.shown| <= |ps|
    ensures r.counters.total == c.total + |r.records|
    ensures forall id :: id in l.rows ==> id in r.ledger.rows && r.ledger.rows[id] == l.rows[id]
    decreases |ps|
  {
    if |ps| == 0 then Start(l, c)
    else
      var k := |ps| - 1;
      Step(Run(l, c, ps[..k], env), ps[k], env.insertOk(k), env.dbNow(k))
  }

  /** The k-th record and annotation of `h` are the ones the k-th plan saves. */
  predicate Traces(h: Handled, ps: seq<Plan>) {
    && |h.records| == |h.shown| <= |ps|
    && forall k :: 0 <= k < |h.records| ==>
         ps[k].Save? && h.records[k] == ps[k].record && h.shown[k] == ps[k].shown
  }

  /** One step keeps the records in line with the plans. */
  lemma StepTraces(h: Handled, ps: seq<Plan>, ok: bool, now: string)
    requires Valid(h.ledger) && |ps| > 0
    requires Traces(h, ps[..|ps| - 1]) && (!h.raised ==> |h.records| == |ps| - 1)
    ensures Traces(Step(h, ps[|ps| - 1], ok, now), ps)
  {
    var k := |ps| - 1;
    var r := Step(h, ps[k], ok, now);
    forall j | 0 <= j < |h.records|
      ensures ps[j].Save? && h.records[j] == ps[j].record && h.shown[j] == ps[j].shown
    {
      assert ps[..k][j] == ps[j];
    }
    if !h.raised && ps[k].Save? {
      assert r.records == h.records + [ps[k].record] && r.shown == h.shown + [ps[k].shown];
    }
  }

  /** The k-th record and annotation are the ones the k-th plan saves. */
  lemma {:induction false} RunRecords(l: Ledger, c: Counters, ps: seq<Plan>, env: Oracles)
    requires Valid(l)
    ensures Traces(Run(l, c, ps, env), ps)
    decreases |ps|
  {
    if |ps| > 0 {
      var k := |ps| - 1;
      var init := ps[..k];
      var prev := Run(l, c, init, env);
      assert Run(l, c, ps, env) == Step(prev, ps[k], env.insertOk(k), env.dbNow(k));
      RunRecords(l, c, init, env);
      RunRaises(l, c, init, env);
      StepTraces(prev, ps, env.insertOk(k), env.dbNow(k));
    }
  }

  /**
   `h` has raised exactly when some plan aborts; the plan after the last record is then
   the one that aborted, and without one every plan is handled.
   */
  predicate Halts(h: Handled, ps: seq<Plan>) {
    && (h.raised <==> exists k :: 0 <= k < |ps| && ps[k].Abort?)
    && (h.raised ==> |h.records| < |ps| && ps[|h.records|].Abort?)
    && (!h.raised ==> |h.records| == |ps|)
  }

  /** One step raises at the first plan that aborts and stays raised after it. */
  lemma StepHalts(h: Handled, ps: seq<Plan>, ok: bool, now: string)
    requires Valid(h.ledger) && |ps| > 0 && Halts(h, ps[..|ps| - 1])
    ensures Halts(Step(h, ps[|ps| - 1], ok, now), ps)
  {
    var k := |ps| - 1;
    var init := ps[..k];
    if h.raised {
      var j :| 0 <= j < k && init[j].Abort?;
      assert ps[j].Abort?;
      assert init[|h.records|] == ps[|h.records|];
    } else if ps[k].Save? {
      forall j | 0 <= j < k
        ensures ps[j].Save?
      {
        assert init[j] == ps[j];
      }
    }
  }

  /**
   The handler raises exactly when some plan aborts; the box after the last record is
   then the one that aborted, and without one every box is handled.
   */
  lemma {:induction false} RunRaises(l: Ledger, c: Counters, ps: seq<Plan>, env: Oracles)
    requires Valid(l)
    ensures Halts(Run(l, c, ps, env), ps)
    decreases |ps|
  {
    if |ps| > 0 {
      var k := |ps| - 1;
      var prev := Run(l, c, ps[..k], env);
      assert Run(l, c, ps, env) == Step(prev, ps[k], env.insertOk(k), env.dbNow(k));
      RunRaises(l, c, ps[..k], env);
      StepHalts(prev, ps, env.insertOk(k), env.dbNow(k));
    }
  }

  /**
   The ledger of `h` has grown from `l` by one unsynced row for each of the first
   `|h.records|` inserts that succeeded.
   */
  predicate StoresFrom(l: Ledger, h: Handled, ok: nat -> bool)
    requires Valid(l)
  {
    && Valid(h.ledger)
    && TotalCount(h.ledger) == TotalCount(l) + Successes(ok, |h.records|)
    && UnsyncedCount(h.ledger) == UnsyncedCount(l) + Successes(ok, |h.records|)
  }

  /** One step stores a row exactly when it handles a box whose insert succeeds. */
  lemma StepLedger(h: Handled, p: Plan, ok: bool, now: string)
    requires Valid(h.ledger) && (p.Save? ==> p.record.synced == Some(0))
    ensures var r := Step(h, p, ok, now);
      var stored := if !h.raised && p.Save? && ok then 1 else 0;
      && |r.records| == |h.records| + (if !h.raised && p.Save? then 1 else 0)
      && TotalCount(r.ledger) == TotalCount(h.ledger) + stored
      && UnsyncedCount(r.ledger) == UnsyncedCount(h.ledger) + stored
  {
    if !h.raised && p.Save? && ok {
      InsertCounts(h.ledger, p.record, now);
    }
  }

  /** The k-th step keeps the ledger in line with the successful inserts. */
  lemma StepStores(l: Ledger, h: Handled, p: Plan, k: nat, env: Oracles)
    requires Valid(l) && StoresFrom(l, h, env.insertOk)
    requires !h.raised ==> |h.records| == k
    requires p.Save? ==> p.record.synced == Some(0)
    ensures StoresFrom(l, Step(h, p, env.insertOk(k), env.dbNow(k)), env.insertOk)
  {
    StepLedger(h, p, env.insertOk(k), env.dbNow(k));
    if !h.raised && p.Save? {
      assert Successes(env.insertOk, k + 1) == Successes(env.insertOk, k) + (if env.insertOk(k) then 1 else 0);
    }
  }

  /**
   The ledger grows by one unsynced row for every handled box whose insert succeeded,
   and by nothing else.
   */
  lemma {:induction false} RunStoresRows(l: Ledger, c: Counters, ps: seq<Plan>, env: Oracles, classes: map<nat, string>)
    requires Valid(l) && Known(ps, classes)
    ensures StoresFrom(l, Run(l, c, ps, env), env.insertOk)
    decreases |ps|
  {
    if |ps| > 0 {
      var k := |ps| - 1;
      var init := ps[..k];
      var prev := Run(l, c, init, env);
      assert Run(l, c, ps, env) == Step(prev, ps[k], env.insertOk(k), env.dbNow(k));
      assert Known(init, classes) by {
        assert forall j :: 0 <= j < k ==> init[j] == ps[j];
      }
      RunStoresRows(l, c, init, env, classes);
      RunRaises(l, c, init, env);
      StepStores(l, prev, ps[k], k, env);
    }
  }

  /** How many records carry the class name. */
  function Occurrences(records: seq<NewRow>, name: string): (n: nat)
    ensures n <= |records|
    decreases |records|
  {
    if |records| == 0 then 0
    else Occurrences(records[..|records| - 1], name) + (if records[|records| - 1].roadClass == name then 1 else 0)
  }

  lemma OccurrencesSnoc(records: seq<NewRow>, nr: NewRow, name: string)
    ensures Occurrences(records + [nr], name) == Occurrences(records, name) + (if nr.roadClass == name then 1 else 0)
  {
    assert (records + [nr])[..|records|] == records;
  }

  /**
   The counters of `h` are consistent with the class table, and each class counter has
   risen from `c` by the number of records carrying that class name.
   */
  ghost predicate CountsFrom(c: Counters, h: Handled, classes: map<nat, string>) {
    && Consistent(c, classes)
    && Consistent(h.counters, classes)
    && forall name :: name in classes.Values ==>
         h.counters.perClass[name] == c.perClass[name] + Occurrences(h.records, name)
  }

  /** One step counts the record it adds under that record's class name. */
  lemma StepCounts(c: Counters, h: Handled, p: Plan, ok: bool, now: string, classes: map<nat, string>)
    requires Valid(h.ledger) && CountsFrom(c, h, classes)
    requires p.Save? ==> p.record.roadClass in classes.Values
    ensures CountsFrom(c, Step(h, p, ok, now), classes)
  {
    var r := Step(h, p, ok, now);
    if !h.raised && p.Save? {
      var nr := p.record;
      assert r.counters == Count(h.counters, nr.roadClass) && r.records == h.records + [nr];
      CountConsistent(h.counters, classes, nr.roadClass);
      forall name | name in classes.Values
        ensures Occurrences(r.records, name) == Occurrences(h.records, name) + (if nr.roadClass == name then 1 else 0)
      {
        OccurrencesSnoc(h.records, nr, name);
      }
    }
  }

  /**
   The counters stay consistent with the class table, and each class counter rises by
   the number of records carrying that class name.
   */
  lemma {:induction false} RunCounts(l: Ledger, c: Counters, ps: seq<Plan>, env: Oracles, classes: map<nat, string>)
    requires Valid(l) && Consistent(c, classes) && Known(ps, classes)
    ensures CountsFrom(c, Run(l, c, ps, env), classes)
    decreases |ps|
  {
    if |ps| > 0 {
      var k := |ps| - 1;
      var init := ps[..k];
      var prev := Run(l, c, init, env);
      assert Run(l, c, ps, env) == Step(prev, ps[k], env.insertOk(k), env.dbNow(k));
      assert Known(init, classes) by {
        assert forall j :: 0 <= j < k ==> init[j] == ps[j];
      }
      RunCounts(l, c, init, env, classes);
      StepCounts(c, prev, ps[k], env.insertOk(k), env.dbNow(k), classes);
    }
  }

  /**
   `_on_detections`: an event without boxes changes nothing; otherwise the loop runs over
   `zip(boxes, classes, scores)`.
   */
  function OnDetections(ctx: Context, l: Ledger, c: Counters): (r: Handled)
    requires Valid(l)
    ensures Valid(r.ledger)
    ensures |ctx.ev.boxes| == 0 ==> r == Start(l, c)
    ensures forall id :: id in l.rows ==> id in r.ledger.rows && r.ledger.rows[id] == l.rows[id]
  {
    if |ctx.ev.boxes| == 0 then Start(l, c)
    else Run(l, c, Plans(ctx, Zip(ctx.ev.boxes, ctx.ev.classes, ctx.ev.scores)), ctx.env)
  }

  /**
   What the handler records: at most one row per zipped box, the k-th built from the k-th
   box, class and score with `synced = 0` and the class name from the table, beside the
   k-th annotation; the counted total rises by the number of rows.
   */
  lemma OnDetectionsRecords(ctx: Context, l: Ledger, c: Counters)
    requires Valid(l)
    ensures var r := OnDetections(ctx, l, c);
      && |r.records| == |r.shown|
      && |r.records| <= |ctx.ev.boxes| && |r.records| <= |ctx.ev.classes| && |r.records| <= |ctx.ev.scores|
      && r.counters.total == c.total + |r.records|
    ensures var r := OnDetections(ctx, l, c);
      forall k :: 0 <= k < |r.records| ==>
        var d := Detection(ctx.ev.boxes[k], ctx.ev.classes[k], ctx.ev.scores[k]);
        && !Raises(ctx, k, d) && r.records[k] == RecordFor(ctx, k, d)
        && r.records[k].synced == Some(0) && r.records[k].roadClass == ctx.cfg.classes[ctx.ev.classes[k]]
        && r.shown[k] == Annotation(ctx.last, ctx.env.clock(k), ctx.cfg.threshold)
  {
    if |ctx.ev.boxes| > 0 {
      var ds := Zip(ctx.ev.boxes, ctx.ev.classes, ctx.ev.scores);
      var ps := Plans(ctx, ds);
      var r := Run(l, c, ps, ctx.env);
      assert OnDetections(ctx, l, c) == r;
      RunRecords(l, c, ps, ctx.env);
      forall k | 0 <= k < |r.records|
        ensures Detection(ctx.ev.boxes[k], ctx.ev.classes[k], ctx.ev.scores[k]) == ds[k]
        ensures ps[k] == PlanFor(ctx, k, ds[k])
      {
      }
    }
  }

  /**
   The handler raises exactly when some zipped box has an unknown class or divides by a
   zero focal length, and the box after the last record is then such a box.
   */
  lemma RaisesOnlyOnBadBox(ctx: Context, l: Ledger, c: Counters)
    requires Valid(l)
    ensures var ds := Zip(ctx.ev.boxes, ctx.ev.classes, ctx.ev.scores);
      OnDetections(ctx, l, c).raised <==> exists k :: 0 <= k < |ds| && Raises(ctx, k, ds[k])
    ensures var ds := Zip(ctx.ev.boxes, ctx.ev.classes, ctx.ev.scores);
      var r := OnDetections(ctx, l, c);
      r.raised ==> |r.records| < |ds| && Raises(ctx, |r.records|, ds[|r.records|])
  {
    if |ctx.ev.boxes| > 0 {
      var ds := Zip(ctx.ev.boxes, ctx.ev.classes, ctx.ev.scores);
      RunRaises(l, c, Plans(ctx, ds), ctx.env);
    }
  }

  /** How many of the first n inserts succeed. */
  function Successes(ok: nat -> bool, n: nat): (s: nat)
    ensures s <= n
    ensures (forall k :: 0 <= k < n ==> ok(k)) ==> s == n
    decreases n
  {
    if n == 0 then 0 else Successes(ok, n - 1) + (if ok(n - 1) then 1 else 0)
  }

  /**
   After the handler the counters are still one per class summing to the total, every
   class counter has risen by its number of records, and the ledger has gained exactly
   the rows whose insert succeeded, all unsynced.
   */
  lemma OnDetectionsBookkeeping(ctx: Context, l: Ledger, c: Counters)
    requires Valid(l) && Consistent(c, ctx.cfg.classes)
    ensures var r := OnDetections(ctx, l, c);
      && Consistent(r.counters, ctx.cfg.classes)
      && (forall name :: name in ctx.cfg.classes.Values ==>
            r.counters.perClass[name] == c.perClass[name] + Occurrences(r.records, name))
      && TotalCount(r.ledger) == TotalCount(l) + Successes(ctx.env.insertOk, |r.records|)
      && UnsyncedCount(r.ledger) == UnsyncedCount(l) + Successes(ctx.env.insertOk, |r.records|)
  {
    if |ctx.ev.boxes| > 0 {
      var ds := Zip(ctx.ev.boxes, ctx.ev.classes, ctx.ev.scores);
      var ps := Plans(ctx, ds);
      assert OnDetections(ctx, l, c) == Run(l, c, ps, ctx.env);
      RunCounts(l, c, ps, ctx.env, ctx.cfg.classes);
      RunStoresRows(l, c, ps, ctx.env, ctx.cfg.classes);
    }
  }

  /**
   When every insert succeeds the on-screen total and the ledger advance together: the
   rows added equal the detections counted, and all of them await sync.
   */
  lemma ReliableInsertsMatchCounters(ctx: Context, l: Ledger, c: Counters)
    requires Valid(l) && Consistent(c, ctx.cfg.classes)
    requires forall k :: ctx.env.insertOk(k)
    ensures var r := OnDetections(ctx, l, c);
      && TotalCount(r.ledger) - TotalCount(l) == r.counters.total - c.total
      && UnsyncedCount(r.ledger) - UnsyncedCount(l) == r.counters.total - c.total
  {
    OnDetectionsBookkeeping(ctx, l, c);
    OnDetectionsRecords(ctx, l, c);
  }

  /** With the default class table and calibrations, only an unknown class index can raise. */
  lemma DefaultsRaiseOnlyOnUnknownClass(ctx: Context, k: nat, d: Detection)
    requires ctx.cfg == Defaults
    ensures Raises(ctx, k, d) <==> d.classIdx > 3
  {
  }
}
