# Road damage desktop: the detection-to-cloud pipeline in Dafny

RoadDamage-desktop is a PyQt application. It runs a TFLite detector on frames from a
dashboard camera (`cam0`) and a classifier on a second camera (`cam1`), and it estimates
the width and depth of each damaged patch from the box geometry and camera calibration.
Every detection is stored in a local SQLite ledger with `synced = 0`. A timer uploads the
oldest unsynced rows to a Supabase table, 200 at a time, and flags them synced once the
upload succeeds.

This project models that pipeline as pure functions over immutable data. The modules
follow the services of the program:

- `Measurement` covers `MeasurementService`: distance, width, depth, variance and the
  edge blend.
- `Geometry`, `Nms` and `Inference` cover the detector's post-processing. This is the
  class arg-max, the confidence and horizon filters, box clamping, and greedy IoU
  non-maximum suppression.
- `Ledger` and `Stats` cover the SQLite `DatabaseService`: insert, unsynced batch,
  mark synced, counts and per-class statistics.
- `Remote` covers `SupabaseService.upsert_detections`: payload conversion and the
  three-attempt retry with doubling pauses.
- `Sync` covers the main window's `_sync_now` and `_auto_sync`. It includes the drain
  schedule of a backlog under a reliable client.
- `Classification` covers the `cam1` classification worker.
- `Window` covers `_on_detections`. Each box becomes a record, the counters go up, and
  the fresh-classification annotation is chosen.
- `Vectors`, `Rounding`, `Decimal`, `Tally` and `Optional` are shared helpers. They
  provide clamping and arg-max, Python's `round(x, 1)`, `str(int)`, map sums and
  `Option`.

Floating-point values are modelled as exact reals. The one IEEE case the code depends
on is modelled explicitly: an IoU whose union is zero is NaN, so `iou <= threshold` is
false and the box is suppressed. Python's `round(x, 1)` is modelled as
round-half-to-even at one decimal.

Everything outside the process is a parameter:

- image measurements (`_edge_metrics`, the ROI variance);
- the outcome of each client call and of each SQLite insert;
- the wall clock and SQLite's `CURRENT_TIMESTAMP`.

The code has no per-row "reliable" flag and no failed or dead-lettered sync
states. Its upsert sends rows without their local `id`, so there is no key to match on.
Timer ticks have no back-off: a failed batch is simply retried on the next tick.

## Model

| member | source | states |
|---|---|---|
| Vectors.Clamp | app/services/measurement_service.py:64 | `max(lo, min(v, hi))` lies in `[lo, hi]`, is `v` when `v` is inside, and is the bound that `v` crosses otherwise |
| Vectors.ClampMonotone | app/services/measurement_service.py:138 | clamping preserves order, so the clamped depth keeps the ordering of the raw depth |
| Vectors.ArgMax | app/services/inference_worker.py:189-190 | `np.argmax` returns an index holding the maximum, and no earlier index holds it (first maximum) |
| Vectors.MaxOf | app/services/classification_worker.py:123 | `np.max` is an element of the vector and bounds every element |
| Vectors.ArgMaxIsFirstMaximum | app/services/classification_worker.py:122 | every index holding the maximum is at or after the arg-max |
| Rounding.Round1 | app/services/measurement_service.py:94 | `round(x, 1)` has one decimal and is within 0.05 of `x` |
| Rounding.Round1Fixed | app/services/measurement_service.py:221 | rounding a value that already has one decimal leaves it unchanged |
| Rounding.Round1Monotone | app/services/measurement_service.py:138 | `round(x, 1)` preserves order |
| Rounding.RoundHalfEvenMonotone | app/services/measurement_service.py:94 | banker's rounding to an integer preserves order |
| Rounding.OneDecimalSum | app/services/measurement_service.py:221 | a sum of one-decimal values has one decimal |
| Decimal.NatToDecimal | app/services/classification_worker.py:98 | `str(idx)` is a non-empty digit string without a leading zero |
| Decimal.DecimalRoundTrip | app/services/classification_worker.py:98 | reading back `str(idx)` gives `idx` |
| Decimal.NatToDecimalInjective | app/services/classification_worker.py:98 | different indices print differently |
| Tally.Bump | app/ui/main_window.py:379 | `counts[name] += 1` raises that counter by one and leaves every other counter alone |
| Tally.SumCountsBump | app/ui/main_window.py:379-380 | one increment raises the sum of all counters by one |
| Tally.SumOverZero | app/ui/main_window.py:62-63 | counters that all start at zero sum to zero, the initial total |
| Geometry.Inter | app/services/inference_worker.py:273-281 | the intersection area is never negative |
| Geometry.SurvivesSymmetric | app/services/inference_worker.py:273-285 | the IoU keep test of two boxes does not depend on which box is kept |
| Geometry.InterBounded | app/services/inference_worker.py:273-281 | the intersection of two boxes is no larger than either box |
| Geometry.SurvivesIsIoUTest | app/services/inference_worker.py:273-286 | for boxes of positive area the union is positive, the IoU lies in [0, 1], and a box survives iff IoU <= threshold |
| Nms.InsertByScore | app/services/inference_worker.py:265 | inserting an index into a score-descending order keeps it descending and adds exactly that index |
| Nms.InsertByScoreDistinct | app/services/inference_worker.py:265 | inserting a new index keeps the order free of repeats |
| Nms.SortPrefix | app/services/inference_worker.py:265 | the first m indices sorted by descending score, each once |
| Nms.ByScore | app/services/inference_worker.py:265 | `scores.argsort()[::-1]` is a permutation of the indices in descending score |
| Nms.Survivors | app/services/inference_worker.py:283-286 | filtering the rest of the order against the kept box yields only indices from the rest |
| Nms.SurvivorsMembers | app/services/inference_worker.py:283-286 | an index survives iff it was in the rest and passes the IoU test against the kept box |
| Nms.Suppress | app/services/inference_worker.py:268-286 | the greedy loop keeps the head of the order first |
| Nms.SuppressMembers | app/services/inference_worker.py:268-286 | the kept indices come from the order, without repeats |
| Nms.SuppressPairwise | app/services/inference_worker.py:268-286 | every two kept boxes pass the IoU test |
| Nms.SurvivorsSorted | app/services/inference_worker.py:283-286 | filtering keeps the descending score order |
| Nms.SuppressSorted | app/services/inference_worker.py:268-286 | kept indices appear in descending score |
| Nms.SuppressCovers | app/services/inference_worker.py:268-286 | every dropped index overlaps some kept box of at least its score by more than the threshold |
| Nms.IoUTest | app/services/inference_worker.py:285 | the keep test is `iou <= threshold` with NaN for an empty union |
| Nms.ApplyNms | app/services/inference_worker.py:238-288 | empty input gives `[]`; the result is distinct, score-descending, starts with a top-scoring box, is pairwise non-overlapping, and every dropped box is suppressed by a kept one of at least its score |
| Inference.Clamp01 | app/services/inference_worker.py:215-218 | `max(0, min(v, 1))` lies in [0, 1] and leaves values already in [0, 1] unchanged |
| Inference.Corners | app/services/inference_worker.py:209-218 | the corner box after clipping lies in the unit square |
| Inference.CornersOrdered | app/services/inference_worker.py:209-212 | a box of non-negative height and width has `y1 <= y2` and `x1 <= x2` |
| Inference.Convert | app/services/inference_worker.py:186-222 | an anchor's class is the first arg-max of its probabilities, and its score is their maximum |
| Inference.Filter | app/services/inference_worker.py:184-222 | the candidates all meet the confidence threshold and lie in the unit square, and every anchor passing all filters is present |
| Inference.FilterSound | app/services/inference_worker.py:193-206 | every candidate comes from an anchor that passed the confidence, horizon (`cy >= 0.2`) and area filters |
| Inference.Select | app/services/inference_worker.py:228-230 | the outputs are the boxes, classes and scores at the kept indices, in order |
| Inference.SelectSound | app/services/inference_worker.py:228-230 | every output detection comes from a passing anchor |
| Inference.SelectOrdered | app/services/inference_worker.py:228-230 | the outputs are in descending score |
| Inference.SelectPairwise | app/services/inference_worker.py:228-230 | the output boxes pass the IoU test pairwise |
| Inference.FilterNonEmpty | app/services/inference_worker.py:224-230 | when some anchor passes, the output is non-empty |
| Inference.Postprocess | app/services/inference_worker.py:163-236 | the three output lists have equal length; every detection comes from a passing anchor, meets the threshold and lies in the unit square; scores descend; boxes do not overlap beyond the NMS threshold; some anchor passing implies some output |
| Inference.NmsKeepsOrSuppresses | app/services/inference_worker.py:224-230 | each filtered candidate is either kept by NMS or suppressed by a kept box scoring at least as high that overlaps it beyond the threshold; the first kept score is the highest |
| Inference.PostprocessKeepsOrSuppresses | app/services/inference_worker.py:163-236 | one passing anchor is emitted as converted, or an emitted box scoring at least as high overlaps it beyond the NMS threshold; the first emitted score is at least its score |
| Inference.PostprocessComplete | app/services/inference_worker.py:163-236 | no passing anchor is lost silently: every one is emitted or outranked by an overlapping emitted box, and the first emitted score is the highest among them |
| Measurement.CentreOffset | app/services/measurement_service.py:53-54 | the offset of the box bottom from the image centre is never negative |
| Measurement.DistanceAt | app/services/measurement_service.py:60-64 | within 10 px of the centre the distance is the camera height; otherwise it lies in [50, 500] cm |
| Measurement.FarDistance | app/services/measurement_service.py:63-64 | the perspective distance is clamped to [50, 500] cm |
| Measurement.Distance | app/services/measurement_service.py:37-64 | `calculate_distance` is the camera height near the centre, otherwise within [50, 500] cm, and never negative for a non-negative height |
| Measurement.DistanceAntitone | app/services/measurement_service.py:53-64 | beyond the centre band, a bottom edge farther from the centre line (above or below it) is estimated no farther away |
| Measurement.SpanPx | app/services/measurement_service.py:88 | the pixel span `abs(x2 - x1) * w` is never negative |
| Measurement.PixelsToCm | app/services/measurement_service.py:92 | the pinhole conversion of a non-negative span at a non-negative distance is non-negative |
| Measurement.EstimateWidth | app/services/measurement_service.py:66-94 | the width has one decimal and is non-negative for a positive focal length |
| Measurement.WidthCornerSymmetric | app/services/measurement_service.py:84-88 | swapping the box corners horizontally or vertically does not change the width (`max(y1, y2)`, `abs`) |
| Measurement.WidthMonotoneInSpan | app/services/measurement_service.py:84-94 | at the same bottom edge, a wider box is never estimated narrower |
| Measurement.VarianceDepth | app/services/measurement_service.py:130 | the variance heuristic is capped at 10 cm |
| Measurement.EstimateDepth | app/services/measurement_service.py:96-138 | the depth lies in [0.5, 20] cm and has one decimal |
| Measurement.DepthAntitoneInArea | app/services/measurement_service.py:120-138 | a larger box is never estimated deeper |
| Measurement.DepthMonotoneInVariance | app/services/measurement_service.py:127-138 | a higher intensity variance is never estimated shallower |
| Measurement.VarianceSaturates | app/services/measurement_service.py:130 | a variance of 1 or more gives the same depth as 1 |
| Measurement.NormalizedVariance | app/services/measurement_service.py:140-177 | an empty region gives 0; otherwise the variance is divided by 10000 and capped at 1 |
| Measurement.EdgeWeight | app/services/measurement_service.py:207 | the edge blend weight is at most 0.8, and lies in [0.4, 0.8] for a strength in [0, 1] |
| Measurement.BlendBetween | app/services/measurement_service.py:208 | the blend lies between the edge width and the box width |
| Measurement.RoundedBetween | app/services/measurement_service.py:208 | rounding to one decimal keeps a value between its rounded bounds |
| Measurement.AdjustDepth | app/services/measurement_service.py:220-221 | the edge adjustment never exceeds 20 cm and adds between 0 and 3 cm |
| Measurement.DamageWidth | app/services/measurement_service.py:196-210 | without an edge span the width is the box estimate; with one (and a strength in [0, 1]) it lies between the rounded edge width and the box width |
| Measurement.DamageDepth | app/services/measurement_service.py:212-221 | without edge rows the depth is the plain estimate; with them it rises by at most 3 cm; it never exceeds 20 cm and stays at least 0.5 cm for a non-negative strength |
| Measurement.MeasureDamage | app/services/measurement_service.py:179-225 | without edges the width and depth are the plain estimates; with edges the width lies between the rounded edge and box widths and the depth rises by at most 3 cm; depth stays within [0.5, 20] cm |
| Ledger.Empty | app/services/database_service.py:30-48 | a fresh table is valid and has no rows |
| Ledger.Stored | app/services/database_service.py:45-46 | an omitted `synced` defaults to 0 and an omitted timestamp to the database time |
| Ledger.Insert | app/services/database_service.py:67-76 | the new row gets a fresh id above every id ever issued; old rows are untouched and the table grows by one |
| Ledger.IdsBelow | app/services/database_service.py:78-88 | the ids below a bound that meet the filter, in ascending order |
| Ledger.OrderedIds | app/services/database_service.py:78-88 | `ORDER BY id` over all rows, or over the unsynced ones, lists exactly those ids in ascending order |
| Ledger.AscendingCard | app/services/database_service.py:78-88 | an ascending id list has no repeats |
| Ledger.TotalCount | app/services/database_service.py:137-142 | `COUNT(*)` is the number of stored ids; on a well-formed ledger it never exceeds the last AUTOINCREMENT id handed out |
| Ledger.TotalCountIsListing | app/services/database_service.py:137-142 | on a well-formed ledger the count equals the length of the id-ordered listing of all rows |
| Ledger.UnsyncedCount | app/services/database_service.py:144-151 | `COUNT(*) WHERE synced = 0` is the number of unsynced rows, at most the total |
| Ledger.IdsOf | app/ui/main_window.py:423 | `[row['id'] for row in rows]` keeps order and length |
| Ledger.GetUnsynced | app/services/database_service.py:78-88 | the batch has `min(limit, unsynced)` rows (all of them for a negative limit); each is unsynced and stored under its id; ids ascend; every unsynced row left out has a larger id than every row taken |
| Ledger.LowestUnsynced | app/services/database_service.py:80-86 | the first k unsynced rows in id order: each unsynced and stored under its id, ids ascending, and below every unsynced id not taken |
| Ledger.PrefixBelowRest | app/services/database_service.py:85-86 | in an ascending list, an id outside the first k is above each of them |
| Ledger.MarkSynced | app/services/database_service.py:90-100 | an empty list changes nothing; listed rows get `synced = 1`; all other rows and the id counter are unchanged |
| Ledger.MarkSyncedIdempotent | app/services/database_service.py:90-100 | marking the same ids twice equals marking them once |
| Ledger.MarkSyncedValid | app/services/database_service.py:90-100 | marking keeps the ledger well formed |
| Ledger.MarkSyncedUnsynced | app/services/database_service.py:90-100 | the unsynced ids afterwards are the earlier ones minus the listed ids |
| Ledger.MarkSyncedCounts | app/services/database_service.py:90-100 | marking never raises the unsynced count and keeps the total |
| Ledger.InsertCounts | app/services/database_service.py:67-76 | an insert raises the total by one, and the unsynced count by one when `synced` is 0 or omitted |
| Stats.Add | app/services/database_service.py:107-115 | adding a row raises a class's row count, and its non-null width and depth counts, by one when filled |
| Stats.Accumulate | app/services/database_service.py:102-124 | the groups together hold every listed row once, and each group is non-empty |
| Stats.AccumulateGroups | app/services/database_service.py:107-115 | a class has a group iff some listed row has that class, and a group counts a column iff some row of that class has it filled |
| Stats.MeanInUnit | app/services/database_service.py:110 | the mean of values in [0, 1] lies in [0, 1] |
| Stats.Mean | app/services/database_service.py:111-112 | `AVG` over no non-null values is NULL |
| Stats.FinishAll | app/services/database_service.py:116-124 | one result per group with the same count, and an average width or depth is NULL iff no value was present |
| Stats.OccursInLedger | app/services/database_service.py:111-114 | a row of a class with a filled column occurs in the id-ordered scan iff the ledger holds one |
| Stats.GetStats | app/services/database_service.py:102-124 | `GROUP BY road_class` has a key for exactly the classes present, and the counts sum to the table's row count (each entry's own count and averages are stated by `StatsCountAndConfidence` and `StatsAverages`) |
| Stats.StatsNullWidth | app/services/database_service.py:111 | every class with a row has an entry, and its average width is NULL iff none of its rows has a width |
| Stats.StatsNullDepth | app/services/database_service.py:112 | every class with a row has an entry, and its average depth is NULL iff none of its rows has a depth |
| Stats.ClassCountIsCard | app/services/database_service.py:107-115 | counting a class's rows along an ascending id listing counts each of its ids exactly once |
| Stats.ClassCountInLedger | app/services/database_service.py:107-115 | along the id-ordered listing, a class's count is the number of its rows in the table |
| Stats.AccumulateSums | app/services/database_service.py:107-115 | each group's running count and sums are that class's row count and sums of confidence, non-NULL width and non-NULL depth; a class without a group has no row |
| Stats.GroupOfClassIs | app/services/database_service.py:107-115 | a class with a row in the table has a group holding exactly its count and sums |
| Stats.StatsCountAndConfidence | app/services/database_service.py:107-110 | a class's `COUNT(*)` is the number of its rows in the table, and its `AVG(confidence)` is their confidence sum divided by that number |
| Stats.StatsAverages | app/services/database_service.py:111-112 | a class's `AVG(width_cm)` (`AVG(depth_cm)`) is NULL when none of its rows has the value, and otherwise the sum of the non-NULL values divided by their number |
| Stats.StatsConfidenceInUnit | app/services/database_service.py:110 | when all confidences lie in [0, 1], every class with a row has an entry whose average confidence lies in [0, 1] |
| Remote.NamesDistinct | app/services/supabase_service.py:53-66 | payload keys have distinct column names, and neither the local `id`, `road_class` nor any bbox column is sent |
| Remote.Num | app/services/supabase_service.py:59-68 | a nullable column becomes a value exactly when it is not NULL |
| Remote.Column | app/services/supabase_service.py:55-66 | camera, class, confidence, timestamp and `synced` are always present |
| Remote.PayloadOf | app/services/supabase_service.py:53-68 | `road_class` is sent as `class`; `synced` is `true`; each nullable column is present iff not NULL and then carries its value |
| Remote.Payload | app/services/supabase_service.py:53-68 | one payload per row, in order |
| Remote.Doubled | app/services/supabase_service.py:72-82 | the pause after a failure is at least the initial second |
| Remote.Retry | app/services/supabase_service.py:71-84 | the loop succeeds iff a remaining call succeeds and stops at the first success; every failure before it costs the doubled pause; it makes at most three calls |
| Remote.ThreeAttempts | app/services/supabase_service.py:73 | some call out of three succeeds iff call 0, 1 or 2 succeeds |
| Remote.Upsert | app/services/supabase_service.py:49-84 | no client or no rows gives `False` without a call; otherwise every call sends the converted batch, the result is true iff one of three calls succeeds; the first success ends the loop, each earlier call having failed and been followed by a pause of 2^k s, so three failures pause 1, 2 and 4 s |
| Sync.Batch | app/ui/main_window.py:412 | the batch has at most 200 rows and is empty iff nothing is unsynced |
| Sync.SyncNow | app/ui/main_window.py:407-429 | with nothing pending there is no upload and the ledger is unchanged |
| Sync.SyncNowEffect | app/ui/main_window.py:407-429 | an upload happens iff rows are pending; a row's flag changes iff the upload succeeded and the row is in the batch, and then it becomes 1; no row is added or removed |
| Sync.DiffCard | app/ui/main_window.py:421-424 | removing the marked ids takes away exactly their number |
| Sync.SyncLowersCount | app/ui/main_window.py:419-424 | a successful sync lowers the unsynced count by the batch size, `min(200, pending)` |
| Sync.ReliableUploads | app/ui/main_window.py:414-424 | a client whose first call succeeds uploads any non-empty backlog |
| Sync.AutoSync | app/ui/main_window.py:431-435 | a timer tick keeps the ledger well formed |
| Sync.AutoSyncIsSyncNow | app/ui/main_window.py:431-435 | the `unsynced > 0` guard only saves work: a tick has the same effect as a manual sync |
| Sync.Ticks | app/ui/main_window.py:431-435 | repeated ticks keep the ledger well formed |
| Sync.BacklogClosedForm | app/ui/main_window.py:412 | k batches of 200 leave `max(0, N - 200k)` rows |
| Sync.TickDrains | app/ui/main_window.py:431-435 | one reliable tick takes `min(200, N)` rows off the backlog |
| Sync.DrainSchedule | app/ui/main_window.py:431-435 | after k reliable ticks the unsynced count is the k-batch backlog |
| Sync.TicksNeeded | app/ui/main_window.py:412 | a non-empty backlog needs at least one tick |
| Sync.TicksNeededIsCeiling | app/ui/main_window.py:412 | the number of ticks needed is `ceil(N / 200)` |
| Sync.CeilingBatches | app/ui/main_window.py:412 | `ceil(N / 200)` batches clear N rows and one fewer does not |
| Sync.PendingAfter | app/ui/main_window.py:431-435 | rows are pending after k reliable ticks iff k batches do not clear the backlog |
| Sync.DrainTicks | app/ui/main_window.py:431-435 | `ceil(N / 200)` reliable ticks drain N pending rows |
| Sync.DrainNotSooner | app/ui/main_window.py:431-435 | one tick fewer than `ceil(N / 200)` leaves rows pending |
| Sync.Drain250 | app/ui/main_window.py:431-435 | 250 pending rows: one tick leaves 50 and the second clears them |
| Sync.FailureRetriesSameBatch | app/ui/main_window.py:426-427 | a failed upload leaves everything unchanged, so the next tick offers the same batch |
| Classification.ColumnMax | app/services/classification_worker.py:131 | `classes.max(axis=0)` is attained in the column and bounds it |
| Classification.Aggregate | app/services/classification_worker.py:131 | the aggregate has one entry per class |
| Classification.ClassifySsd | app/services/classification_worker.py:126-134 | there is no choice iff the score matrix is empty, and the class is a valid column |
| Classification.SsdChoiceIsGlobalMax | app/services/classification_worker.py:126-134 | the SSD confidence is the largest score of any anchor and class, and it is attained in the chosen class |
| Classification.SsdClassIsFirstAttaining | app/services/classification_worker.py:132 | no class before the chosen one attains that maximum |
| Classification.ClassifyWithClassifier | app/services/classification_worker.py:118-124 | an empty vector gives no choice; otherwise the confidence is the probability at the chosen index |
| Classification.ClassifierChoiceIsFirstMax | app/services/classification_worker.py:122-123 | the chosen index is the first maximum of the probabilities |
| Classification.Label | app/services/classification_worker.py:98 | a known index gives its class name; an unknown one gives its decimal string |
| Classification.FallbackLabelsDistinct | app/services/classification_worker.py:98 | different unknown indices get different labels |
| Classification.Attach | app/services/classification_worker.py:97 | each queued frame carries its own classification result |
| Classification.FromCam1 | app/services/classification_worker.py:84-85 | the loop looks only at `cam1` frames from the queue |
| Classification.RunQueue | app/services/classification_worker.py:78-109 | at most one result per `cam1` frame, each labelled by the class table |
| Classification.RunQueueFollowsCam1 | app/services/classification_worker.py:97-106 | the k-th result carries the k-th `cam1` frame's class, confidence and time stamp |
| Classification.RunQueueStopsAtFailure | app/services/classification_worker.py:108-109 | a classification error ends the worker: results stop at the first failing `cam1` frame, and only there |
| Classification.RunQueueIgnoresOtherCameras | app/services/classification_worker.py:84-85 | frames from other cameras do not affect the results |
| Classification.Run | app/services/classification_worker.py:78-109 | no more results than frames, each labelled by the class table |
| Classification.RunClassifiesCam1Frames | app/services/classification_worker.py:78-109 | the results are the classifications of the `cam1` frames in queue order, up to the first failure |
| Window.CalibrationFor | app/ui/main_window.py:323 | `cam0` uses its own calibration and every other camera uses `cam1`'s |
| Window.Annotation | app/ui/main_window.py:330-337 | the last classification is shown iff it has a non-zero stamp less than 3 s old and a confidence at the threshold or above |
| Window.AnnotationExpires | app/ui/main_window.py:334 | three seconds after its stamp a classification is no longer shown |
| Window.AnnotationShownUntilExpiry | app/ui/main_window.py:334 | a classification shown now was shown at every earlier instant |
| Window.AnnotationThresholdAntitone | app/ui/main_window.py:334 | lowering the threshold never hides a classification |
| Window.InitialCounters | app/ui/main_window.py:62-63 | one counter per class name, all zero, and the total is zero |
| Window.Count | app/ui/main_window.py:379-380 | the class counter and the total each rise by one and no other counter changes |
| Window.CountConsistent | app/ui/main_window.py:379-380 | counting a known class keeps the total equal to the sum of class counters |
| Window.Zip | app/ui/main_window.py:327 | `zip` stops at the shortest list and pairs the k-th elements |
| Window.WidthAt | app/services/measurement_service.py:196-210 | the k-th box has a width iff its camera's focal length is non-zero, and without an edge span it is the box estimate |
| Window.DepthAt | app/services/measurement_service.py:212-221 | the k-th box's depth never exceeds 20 cm and, without edge rows, is the estimate from the box and the normalised variance of its region |
| Measurement.WholeSpan | app/services/inference_worker.py:216-218 | both x corners are whole numbers, which the clamp returns as Python integers |
| Measurement.DividesByZero | app/services/measurement_service.py:92 | a zero focal length raises when an edge span was found (line 205) or the box's pixel width is a plain number (line 92) |
| Window.Raises | app/ui/main_window.py:328 | a box stops the handler when its class index is missing from the table (`KeyError`) or measuring it divides by a zero focal length |
| Window.RecordFor | app/ui/main_window.py:360-371 | the saved dictionary carries the camera, class name, score, measurement and box, with `synced = 0` and no location or image; it has a width iff the focal length is non-zero |
| Window.PlanFor | app/ui/main_window.py:327-380 | a box aborts the handler iff its class is unknown or, with a zero focal length, measuring it divides a plain number by zero (an edge span was found, or both x corners are whole) |
| Window.Plans | app/ui/main_window.py:327 | one plan per zipped box, in order |
| Window.Step | app/ui/main_window.py:359-380 | one iteration keeps the ledger well formed and never changes stored rows |
| Window.Run | app/ui/main_window.py:327-382 | a record and an annotation per handled box, each counted; stored rows are kept |
| Window.RunRecords | app/ui/main_window.py:327-382 | the k-th record and annotation are the k-th box's plan |
| Window.RunRaises | app/ui/main_window.py:327-382 | the loop raises iff some plan aborts, and then stops exactly at the first one |
| Window.RunStoresRows | app/ui/main_window.py:372-376 | the ledger gains one unsynced row per successful insert among the handled boxes |
| Window.Occurrences | app/ui/main_window.py:379 | the number of records of a class is at most the number of records |
| Window.RunCounts | app/ui/main_window.py:378-380 | each class counter rises by its number of records, and the counters stay consistent |
| Window.OnDetections | app/ui/main_window.py:311-380 | an event without boxes changes nothing; stored rows are kept |
| Window.OnDetectionsRecords | app/ui/main_window.py:311-380 | at most one record per zipped box; the k-th comes from the k-th box, class and score with `synced = 0` and the table's class name, beside the k-th annotation; the total rises by the number of records |
| Window.RaisesOnlyOnBadBox | app/ui/main_window.py:327-341 | the handler raises iff some zipped box has an unknown class or divides by a zero focal length, and it stops at the first such box |
| Window.Successes | app/ui/main_window.py:372-376 | at most n of n inserts succeed, all of them when every insert does |
| Window.OnDetectionsBookkeeping | app/ui/main_window.py:359-380 | counters stay one per class summing to the total; each counter rises by its records; the ledger gains exactly the successfully inserted rows, all unsynced |
| Window.ReliableInsertsMatchCounters | app/ui/main_window.py:372-380 | when every insert succeeds, the rows added and the rows awaiting sync both equal the rise in the on-screen total |
| Window.DefaultsRaiseOnlyOnUnknownClass | app/config.py:109-114 | with the default class table and calibrations, a box raises iff its class index is above 3 |

## Left out

- Frame capture, TFLite interpreters, pre-processing and the Qt event loop are not
  modelled. The detector's raw output and the classifier's probability vectors are
  inputs.
- `_edge_metrics` and the ROI pixels behind `calculate_intensity_variance` are not
  modelled. They are OpenCV and numpy image processing, so their results (edge width,
  height and strength, whether the region is empty, and the raw `np.var` before
  normalisation) are oracles indexed by the box's position in the event. The
  normalisation itself is modelled by `NormalizedVariance`.
- Whether each insert succeeds, parameter binding included, is an oracle indexed by the
  box's position.
- Threads, locks, queue sizes, `get(timeout=...)` and worker start and stop are left
  out. The model treats the queue as the sequence of frames the worker dequeues.
- Drawing and logging are left out: bounding boxes, labels, colours, the stats labels
  and the status bar. Earlier boxes' drawings alter the pixels later boxes are measured
  from; this is absorbed by the per-position image measurement oracles.
- `inference_time` in the classification payload is left out. It is a wall-clock
  measurement.
- SQLite connection handling (`_ensure_connection_open`, `close`) is left out, as is the
  thread-safety lock. `get_recent_detections` is left out because it is only used for
  display.
- Supabase client creation, environment parsing in `app/config.py` and the other
  Supabase methods are left out. The client's presence and the outcome of each call are
  parameters.
- The sleeps of the retry loop are recorded as a list of pauses. No time passes in the
  model.
- Floating-point rounding, overflow and NaN are left out because values are modelled
  as exact reals. The one exception is the NaN IoU of an empty union.
- Inference.Postprocess: numpy's `argsort` breaks score ties in an unspecified order.
  `ApplyNms` is proved for every descending order, and `Postprocess` uses one concrete
  order, so its output is one of the orders the code may produce. What happens to
  passing anchors that are not emitted is stated by `PostprocessComplete`.
- Measurement.MeasureDamage: the `calculate_variance = False` path is covered by
  `EstimateDepth(b, None)`. The handler always passes `True`.
- Window.WidthAt: with a zero focal length and a box that does not raise, the source
  divides a NumPy value by zero and gets an infinite or NaN width. The model records no
  width (NULL) there, because infinity and NaN are not real numbers.
- Window.Raises: a raw corner of exactly 1.0 stays a NumPy value after the clamp, so such
  a box does not raise. The model sees only the clamped 1.0 and treats it as a whole
  number, which raises with a zero focal length.
