/**
 The cloud side of synchronisation (`SupabaseService.upsert_detections`): each ledger row
 becomes a payload dictionary, and the whole batch is sent with at most three attempts and
 a doubling pause after each failure. The client call is an oracle: `outcome(k)` says
 whether the k-th call (counting from 0) returns normally.
 */
module Remote {
  import opened Optional
  import opened Ledger

  /** A JSON value of the payload. */
  datatype Value = Text(text: string) | Number(number: real) | Flag(flag: bool)

  /** The ten keys a payload may carry, named as the remote table's columns. */
  datatype Key =
    | CameraId | Class | Confidence | WidthCm | DepthCm
    | Latitude | Longitude | ImagePath | Timestamp | Synced

  function Name(k: Key): string {
    match k
    case CameraId => "camera_id"
    case Class => "class"
    case Confidence => "confidence"
    case WidthCm => "width_cm"
    case DepthCm => "depth_cm"
    case Latitude => "latitude"
    case Longitude => "longitude"
    case ImagePath => "image_path"
    case Timestamp => "timestamp"
    case Synced => "synced"
  }

  /**
   Every key has its own column name, and none of them is the local `id`, `road_class` or
   a bbox column: those never reach the remote table.
   */
  lemma NamesDistinct(k: Key, k': Key)
    ensures Name(k) == Name(k') ==> k == k'
    ensures Name(k) !in {"id", "road_class", "bbox_x1", "bbox_y1", "bbox_x2", "bbox_y2"}
  {
  }

  const MaxAttempts: nat := 3
  const FirstDelay: real := 1.0

  /** The outcome of the retry loop: its result, the client calls made, the pauses taken. */
  datatype Attempts = Attempts(ok: bool, calls: nat, sleeps: seq<real>)

  /** What one `upsert_detections` call did, with the payload handed to the client. */
  datatype UpsertReport = UpsertReport(sent: seq<map<Key, Value>>, ok: bool, calls: nat, sleeps: seq<real>)

  const AllKeys: set<Key> :=
    {CameraId, Class, Confidence, WidthCm, DepthCm, Latitude, Longitude, ImagePath, Timestamp, Synced}

  /** A nullable column as a payload value. */
  function Num(v: Option<real>): (r: Option<Value>)
    ensures r.Some? <==> v.Some?
    ensures v.Some? ==> r.value == Number(v.value)
  {
    match v
    case None => None
    case Some(x) => Some(Number(x))
  }

  /**
   The dictionary literal before the None filter: `road_class` is read for `class`, and
   `synced` is the constant `True`.
   */
  function Column(r: Row, k: Key): (v: Option<Value>)
    ensures k in {CameraId, Class, Confidence, Timestamp, Synced} ==> v.Some?
  {
    match k
    case CameraId => Some(Text(r.cameraId))
    case Class => Some(Text(r.roadClass))
    case Confidence => Some(Number(r.confidence))
    case WidthCm => Num(r.widthCm)
    case DepthCm => Num(r.depthCm)
    case Latitude => Num(r.latitude)
    case Longitude => Num(r.longitude)
    case ImagePath => if r.imagePath.Some? then Some(Text(r.imagePath.value)) else None
    case Timestamp => Some(Text(r.timestamp))
    case Synced => Some(Flag(true))
  }

  /**
   The payload of one row: `road_class` is sent as `class`, `synced` is always `true`,
   the other non-null columns are copied, and a nullable column appears exactly when it is
   not NULL.
   */
  function PayloadOf(e: Entry): (p: map<Key, Value>)
    ensures CameraId in p && Class in p && Confidence in p && Timestamp in p && Synced in p
    ensures p[CameraId] == Text(e.row.cameraId)
    ensures p[Class] == Text(e.row.roadClass)
    ensures p[Confidence] == Number(e.row.confidence)
    ensures p[Timestamp] == Text(e.row.timestamp)
    ensures p[Synced] == Flag(true)
    ensures WidthCm in p <==> e.row.widthCm.Some?
    ensures WidthCm in p ==> p[WidthCm] == Number(e.row.widthCm.value)
    ensures DepthCm in p <==> e.row.depthCm.Some?
    ensures DepthCm in p ==> p[DepthCm] == Number(e.row.depthCm.value)
    ensures Latitude in p <==> e.row.latitude.Some?
    ensures Latitude in p ==> p[Latitude] == Number(e.row.latitude.value)
    ensures Longitude in p <==> e.row.longitude.Some?
    ensures Longitude in p ==> p[Longitude] == Number(e.row.longitude.value)
    ensures ImagePath in p <==> e.row.imagePath.Some?
    ensures ImagePath in p ==> p[ImagePath] == Text(e.row.imagePath.value)
  {
    map k | k in AllKeys && Column(e.row, k).Some? :: Column(e.row, k).value
  }

  /** The converted batch: one payload per row, in the same order. */
  function Payload(rows: seq<Entry>): (ps: seq<map<Key, Value>>)
    ensures |ps| == |rows|
    ensures forall i :: 0 <= i < |rows| ==> ps[i] == PayloadOf(rows[i])
  {
    seq(|rows|, i requires 0 <= i < |rows| => PayloadOf(rows[i]))
  }

  /** `2^k`: the pause after the (k+1)-th failure, in seconds. */
  function Doubled(k: nat): (d: real)
    ensures d >= FirstDelay
  {
    if k == 0 then FirstDelay else 2.0 * Doubled(k - 1)
  }

  /**
   The retry loop from attempt `attempts` on, with `delay` being `Doubled(attempts)`: it
   stops at the first successful call, and after every failure it pauses for the current
   delay and doubles it, for at most three calls in all.
   */
  function Retry(outcome: nat -> bool, attempts: nat): (r: Attempts)
    requires attempts <= MaxAttempts
    ensures r.calls == |r.sleeps| + (if r.ok then 1 else 0)
    ensures attempts + r.calls <= MaxAttempts
    ensures r.ok <==> exists k :: attempts <= k < MaxAttempts && outcome(k)
    ensures r.ok ==> outcome(attempts + r.calls - 1)
    ensures forall k :: attempts <= k < attempts + |r.sleeps| ==> !outcome(k)
    ensures !r.ok ==> attempts + r.calls == MaxAttempts
    ensures forall i :: 0 <= i < |r.sleeps| ==> r.sleeps[i] == Doubled(attempts + i)
    decreases MaxAttempts - attempts
  {
    if attempts == MaxAttempts then Attempts(false, 0, [])
    else if outcome(attempts) then Attempts(true, 1, [])
    else
      var rest := Retry(outcome, attempts + 1);
      Attempts(rest.ok, rest.calls + 1, [Doubled(attempts)] + rest.sleeps)
  }

  lemma ThreeAttempts(outcome: nat -> bool)
    ensures (exists k :: 0 <= k < MaxAttempts && outcome(k)) <==> outcome(0) || outcome(1) || outcome(2)
  {
    if exists k :: 0 <= k < MaxAttempts && outcome(k) {
      var k :| 0 <= k < MaxAttempts && outcome(k);
      assert k == 0 || k == 1 || k == 2;
    }
  }

  /**
   `upsert_detections(rows)`: with no client or no rows, `False` without any call;
   otherwise every call sends the converted batch and the result is `True` exactly when one
   of the first three calls succeeds. The first success ends the loop: every earlier call
   failed and was followed by a pause of `Doubled` of its index, so three failures cost
   pauses of 1, 2 and 4 seconds.
   */
  function Upsert(available: bool, rows: seq<Entry>, outcome: nat -> bool): (r: UpsertReport)
    ensures !available || |rows| == 0 ==> r == UpsertReport([], false, 0, [])
    ensures r.calls > 0 ==> r.sent == Payload(rows)
    ensures r.calls <= MaxAttempts
    ensures r.ok <==> available && |rows| > 0 && (outcome(0) || outcome(1) || outcome(2))
    ensures r.ok ==> r.calls >= 1 && outcome(r.calls - 1)
    ensures r.calls == |r.sleeps| + (if r.ok then 1 else 0)
    ensures forall k :: 0 <= k < |r.sleeps| ==> !outcome(k) && r.sleeps[k] == Doubled(k)
    ensures available && |rows| > 0 && outcome(0) ==> r.ok && r.calls == 1 && r.sleeps == []
    ensures available && |rows| > 0 && !r.ok ==> r.calls == MaxAttempts && r.sleeps == [1.0, 2.0, 4.0]
  {
    if !available || |rows| == 0 then UpsertReport([], false, 0, [])
    else
      ThreeAttempts(outcome);
      var a := Retry(outcome, 0);
      UpsertReport(Payload(rows), a.ok, a.calls, a.sleeps)
  }
}
