/**
 * The sensor side of the pipeline (sensors/sensor_main.py): the correlator
 * that decides whether the ultrasonic sensor and the camera agree an object
 * is approaching, the classifier that turns one tick's readings into an
 * event, and the bookkeeping of the main loop (previous distance and
 * sequence number). Sensor reads, the clock, printing, sleeping and the
 * HTTP post are left out; each tick's readings and time are inputs.
 */
module SensorMain {
  import opened Wrappers
  import opened Message
  import Config
  import Signer
  import Verifier

  /** Seconds between ticks; velocity divides by it. */
  const LoopInterval: real := 0.5

  // Ultrasonic thresholds (cm)
  const DistanceAlertThreshold: real := 50.0
  const DistanceCloseThreshold: real := 50.0

  /** Closing speed (cm/s) above which an ultrasonic reading counts as approaching. */
  const UltrasonicApproachSpeed: real := 10.0

  /** How many recent ticks the correlator looks back through. */
  const CorrelationWindow: nat := 3

  const SensorId: string := "pi_sensor_01"

  /**
   * What the camera reports for one frame. A key the camera did not report is
   * `None`, and is read with the default the classifier's `.get` supplies.
   */
  datatype CameraResult = CameraResult(
    objectApproaching: Option<bool>,
    motionDetected: Option<bool>,
    magnitude: Option<real>,
    approachConfidence: Option<real>,
    largestContour: Option<real>)

  /** `camera_result.get("object_approaching", False)` */
  predicate CameraApproaching(c: CameraResult) {
    c.objectApproaching.GetOr(false)
  }

  /** `camera_result.get("motion_detected", False)` */
  predicate CameraMotion(c: CameraResult) {
    c.motionDetected.GetOr(false)
  }

  /** One entry of the ultrasonic history. */
  datatype UltrasonicSample = UltrasonicSample(distance: real, velocity: real)

  /** An ultrasonic sample closing in faster than the approach speed. */
  predicate Closing(r: UltrasonicSample) {
    r.velocity < -UltrasonicApproachSpeed
  }

  /**
   * The velocity `update` computes: the change since the previous distance
   * over one loop interval, or 0 when there is no previous distance. A previous
   * distance of 0 is falsy and also gives 0.
   */
  function InstantVelocity(distance: real, prevDistance: Option<real>): (v: real)
    ensures prevDistance == None || prevDistance == Some(0.0) ==> v == 0.0
    ensures prevDistance.Some? && prevDistance.value != 0.0 ==> v * 0.5 == distance - prevDistance.value
  {
    if prevDistance.Some? && prevDistance.value != 0.0 then (distance - prevDistance.value) / 0.5 else 0.0
  }

  /** `history[-CORRELATION_WINDOW:]` when the history has grown past the window. */
  function Trim<T>(s: seq<T>): (r: seq<T>)
    ensures |r| == if |s| < CorrelationWindow then |s| else CorrelationWindow
  {
    if |s| > CorrelationWindow then s[|s| - CorrelationWindow..] else s
  }

  /** Trimming after every append keeps the same window as trimming once at the end. */
  lemma TrimAppend<T>(s: seq<T>, x: T)
    ensures Trim(Trim(s) + [x]) == Trim(s + [x])
  {
    if |s| >= CorrelationWindow {
      var t := Trim(s) + [x];
      assert t == s[|s| - CorrelationWindow..] + [x];
      assert Trim(t) == t[1..];
      assert t[1..] == (s + [x])[|s| + 1 - CorrelationWindow..];
    }
  }

  /** Python's `any(p(r) for r in s)`. */
  function Any<T>(s: seq<T>, p: T -> bool): (b: bool)
    ensures b <==> exists i :: 0 <= i < |s| && p(s[i])
  {
    if |s| == 0 then false
    else if p(s[0]) then true
    else
      var rest := Any(s[1..], p);
      assert forall i :: 1 <= i < |s| ==> s[i] == s[1..][i - 1];
      rest
  }

  /**
   * The agreement the correlator looks for: both windows are non-empty, some
   * ultrasonic sample closes in faster than the approach speed and some camera
   * result flags an approach.
   */
  predicate Correlated(u: seq<UltrasonicSample>, c: seq<CameraResult>) {
    && |u| > 0 && |c| > 0
    && (exists i :: 0 <= i < |u| && Closing(u[i]))
    && (exists j :: 0 <= j < |c| && CameraApproaching(c[j]))
  }

  /** The correlator's two windows of recent readings, updated in place each tick. */
  class SensorCorrelator {
    var ultrasonicHistory: seq<UltrasonicSample>
    var cameraHistory: seq<CameraResult>

    /** Both windows are filled in step and hold at most `CorrelationWindow` entries. */
    ghost predicate Valid()
      reads this
    {
      |ultrasonicHistory| == |cameraHistory| <= CorrelationWindow
    }

    constructor ()
      ensures Valid()
      ensures ultrasonicHistory == [] && cameraHistory == []
    {
      ultrasonicHistory := [];
      cameraHistory := [];
    }

    /**
     * `update`: compute the velocity from the previous distance, append one
     * entry to each history and trim both to the window; returns the velocity.
     */
    method Update(distance: real, prevDistance: Option<real>, cameraResult: CameraResult) returns (velocity: real)
      modifies this
      ensures velocity == InstantVelocity(distance, prevDistance)
      ensures ultrasonicHistory == Trim(old(ultrasonicHistory) + [UltrasonicSample(distance, velocity)])
      ensures cameraHistory == Trim(old(cameraHistory) + [cameraResult])
      ensures |ultrasonicHistory| <= CorrelationWindow && |cameraHistory| <= CorrelationWindow
      ensures ultrasonicHistory[|ultrasonicHistory| - 1] == UltrasonicSample(distance, velocity)
      ensures cameraHistory[|cameraHistory| - 1] == cameraResult
      ensures old(Valid()) ==> Valid()
    {
      velocity := InstantVelocity(distance, prevDistance);

      ultrasonicHistory := ultrasonicHistory + [UltrasonicSample(distance, velocity)];
      cameraHistory := cameraHistory + [cameraResult];

      if |ultrasonicHistory| > CorrelationWindow {
        ultrasonicHistory := ultrasonicHistory[|ultrasonicHistory| - CorrelationWindow..];
      }
      if |cameraHistory| > CorrelationWindow {
        cameraHistory := cameraHistory[|cameraHistory| - CorrelationWindow..];
      }
    }

    /**
     * `is_correlated_approach`: both sensors agree, somewhere in their windows,
     * that an object is approaching. An empty window never agrees.
     */
    function IsCorrelatedApproach(): (b: bool)
      reads this
      ensures |ultrasonicHistory| == 0 || |cameraHistory| == 0 ==> !b
      ensures b <==> Correlated(ultrasonicHistory, cameraHistory)
    {
      if |ultrasonicHistory| == 0 || |cameraHistory| == 0 then false
      else Any(ultrasonicHistory, Closing) && Any(cameraHistory, CameraApproaching)
    }
  }

  /** The five event types, lowest priority first. */
  datatype EventType = Normal | MotionDetected | ObjectApproaching | DistanceAlert | CollisionWarning

  /** The `event_type` string each type is sent as. */
  function EventTypeName(t: EventType): string {
    match t
    case Normal => "normal"
    case MotionDetected => "motion_detected"
    case ObjectApproaching => "object_approaching"
    case DistanceAlert => "distance_alert"
    case CollisionWarning => "collision_warning"
  }

  /** The reasons an event can give, with the number each one reports. */
  datatype EventReason =
    | BothConfirmApproach
    | ObjectClose(distance: real)
    | ClosingSpeed(speed: real)
    | ObjectDetectedAt(distance: real)
    | ApproachingAt(speed: real)
    | CameraConfirmed(confidence: real)
    | ContourSize(pixels: real)
    | MotionMagnitude(magnitude: real)

  datatype Payload = Payload(
    distanceCm: real,
    velocityCmS: real,
    cameraMagnitude: real,
    cameraApproaching: bool,
    approachConfidence: real,
    correlated: bool,
    reasons: seq<EventReason>)

  datatype Event = Event(sensorId: string, eventType: EventType, payload: Payload, timestamp: real, sequenceNum: nat)

  /**
   * `build_event`: classify one tick and build the event sent for signing.
   * The first matching rule picks the type: agreement of both sensors with the
   * object close, then the object close, then the camera's approach flag, then
   * the camera's motion flag.
   */
  function BuildEvent(distance: real, velocity: real, camera: CameraResult, correlated: bool, sequence: nat, now: real): (e: Event)
    ensures e.sensorId == SensorId && e.sequenceNum == sequence && e.timestamp == now
    ensures e.payload.distanceCm == distance && e.payload.velocityCmS == velocity && e.payload.correlated == correlated
    ensures e.payload.cameraApproaching == CameraApproaching(camera)
    ensures e.eventType == Normal <==> e.payload.reasons == []
  {
    var (eventType, reasons) :=
      if correlated && distance < DistanceCloseThreshold then
        (CollisionWarning,
         [BothConfirmApproach]
         + (if distance < DistanceAlertThreshold then [ObjectClose(distance)] else [])
         + (if velocity < -UltrasonicApproachSpeed then [ClosingSpeed(Abs(velocity))] else []))
      else if distance < DistanceAlertThreshold then
        (DistanceAlert,
         [ObjectDetectedAt(distance)] + (if velocity < 0.0 then [ApproachingAt(Abs(velocity))] else []))
      else if CameraApproaching(camera) then
        (ObjectApproaching,
         [CameraConfirmed(camera.approachConfidence.GetOr(0.0))]
         + (if camera.largestContour.GetOr(0.0) > 0.0 then [ContourSize(camera.largestContour.value)] else []))
      else if CameraMotion(camera) then
        (MotionDetected, [MotionMagnitude(camera.magnitude.GetOr(0.0))])
      else
        (Normal, []);
    Event(
      SensorId,
      eventType,
      Payload(distance, velocity, camera.magnitude.GetOr(0.0), CameraApproaching(camera),
              camera.approachConfidence.GetOr(0.0), correlated, reasons),
      now,
      sequence)
  }

  /** The type the camera alone decides, once the object is not close. */
  function CameraEventType(c: CameraResult): EventType {
    if CameraApproaching(c) then ObjectApproaching
    else if CameraMotion(c) then MotionDetected
    else Normal
  }

  /**
   * The priority order: a close object is a collision warning exactly when the
   * sensors agree and a distance alert exactly when they do not; farther away,
   * the camera record alone decides.
   */
  lemma EventTypePriority(distance: real, velocity: real, camera: CameraResult, correlated: bool, sequence: nat, now: real)
    ensures var t := BuildEvent(distance, velocity, camera, correlated, sequence, now).eventType;
            && (t == CollisionWarning <==> correlated && distance < DistanceCloseThreshold)
            && (t == DistanceAlert <==> !correlated && distance < DistanceAlertThreshold)
            && (distance >= DistanceAlertThreshold ==> t == CameraEventType(camera))
  {
  }

  /** Beyond the alert distance, neither velocity nor correlation changes the event type. */
  lemma FarEventIgnoresUltrasonic(distance: real, v1: real, v2: real, camera: CameraResult,
                                  c1: bool, c2: bool, s1: nat, s2: nat, t1: real, t2: real)
    requires distance >= DistanceAlertThreshold
    ensures BuildEvent(distance, v1, camera, c1, s1, t1).eventType == BuildEvent(distance, v2, camera, c2, s2, t2).eventType
  {
    EventTypePriority(distance, v1, camera, c1, s1, t1);
    EventTypePriority(distance, v2, camera, c2, s2, t2);
  }

  /**
   * A collision warning always reports the agreement first and the distance
   * next: the close and alert thresholds are equal, so the inner distance
   * check cannot fail.
   */
  lemma CollisionWarningReasons(distance: real, velocity: real, camera: CameraResult, correlated: bool, sequence: nat, now: real)
    requires BuildEvent(distance, velocity, camera, correlated, sequence, now).eventType == CollisionWarning
    ensures var rs := BuildEvent(distance, velocity, camera, correlated, sequence, now).payload.reasons;
            && |rs| >= 2 && rs[0] == BothConfirmApproach && rs[1] == ObjectClose(distance)
            && (ClosingSpeed(Abs(velocity)) in rs <==> velocity < -UltrasonicApproachSpeed)
  {
  }

  /**
   * The event as the JSON object posted to the signer. The wording of each
   * reason is the `format` parameter.
   */
  function ToMessage(e: Event, format: EventReason -> string): (m: Msg)
    ensures m.Keys == {"sensor_id", "event_type", "payload", "timestamp", "sequence_num"}
    ensures SignatureField !in m
    ensures m["sensor_id"] == Str(e.sensorId)
    ensures m["sequence_num"] == Num(e.sequenceNum as real) && m["timestamp"] == Num(e.timestamp)
  {
    var p := e.payload;
    var payload := map[
      "distance_cm" := Num(p.distanceCm),
      "velocity_cm_s" := Num(p.velocityCmS),
      "camera_magnitude" := Num(p.cameraMagnitude),
      "camera_approaching" := Bool(p.cameraApproaching),
      "approach_confidence" := Num(p.approachConfidence),
      "correlated" := Bool(p.correlated),
      "reasons" := Arr(seq(|p.reasons|, i requires 0 <= i < |p.reasons| => Str(format(p.reasons[i]))))];
    map[
      "sensor_id" := Str(e.sensorId),
      "event_type" := Str(EventTypeName(e.eventType)),
      "payload" := Obj(payload),
      "timestamp" := Num(e.timestamp),
      "sequence_num" := Num(e.sequenceNum as real)]
  }

  /**
   * Every event the sensor builds, once signed, is accepted by the logger while
   * it is fresh and its sequence number is above the last one seen for this
   * sensor.
   */
  lemma BuiltEventAccepted(seen: map<string, real>, distance: real, velocity: real, camera: CameraResult,
                           correlated: bool, sequence: nat, stamped: real, now: real,
                           p: Primitives, format: EventReason -> string)
    requires 0.0 <= now - stamped <= Config.TimestampWindow
    requires SensorId !in seen || sequence as real > seen[SensorId]
    ensures var m := ToMessage(BuildEvent(distance, velocity, camera, correlated, sequence, stamped), format);
            Verifier.Verify(seen, Signer.SignMessage(p, m), now, p) == Verifier.Accepted(SensorId, sequence as real)
  {
    var m := ToMessage(BuildEvent(distance, velocity, camera, correlated, sequence, stamped), format);
    Verifier.SignedEventAccepted(seen, m, now, p, SensorId, sequence as real, stamped);
  }

  /** One pass of the main loop's readings: the distance, the camera result and the clock. */
  datatype Tick = Tick(distance: real, camera: CameraResult, now: real)

  /** The velocity at tick `i`: against the previous tick's distance, none before the first. */
  function VelocityAt(ticks: seq<Tick>, i: nat): real
    requires i < |ticks|
  {
    InstantVelocity(ticks[i].distance, if i == 0 then None else Some(ticks[i - 1].distance))
  }

  /** The first `n` ultrasonic samples of a run. */
  function Samples(ticks: seq<Tick>, n: nat): (r: seq<UltrasonicSample>)
    requires n <= |ticks|
    ensures |r| == n
  {
    seq(n, j requires 0 <= j < n => UltrasonicSample(ticks[j].distance, VelocityAt(ticks, j)))
  }

  /** The first `n` camera results of a run. */
  function Cameras(ticks: seq<Tick>, n: nat): (r: seq<CameraResult>)
    requires n <= |ticks|
    ensures |r| == n
  {
    seq(n, j requires 0 <= j < n => ticks[j].camera)
  }

  /** One more tick adds its sample and its camera result at the end. */
  lemma ExtendRun(ticks: seq<Tick>, n: nat)
    requires n < |ticks|
    ensures Samples(ticks, n + 1) == Samples(ticks, n) + [UltrasonicSample(ticks[n].distance, VelocityAt(ticks, n))]
    ensures Cameras(ticks, n + 1) == Cameras(ticks, n) + [ticks[n].camera]
  {
  }

  /** The first tick still inside the correlation window at tick `i`. */
  function WindowStart(i: nat): nat {
    if i < CorrelationWindow then 0 else i + 1 - CorrelationWindow
  }

  /**
   * Correlation at tick `i`, stated over the run: among the last three ticks
   * up to `i`, one closed in faster than the approach speed and one had the
   * camera flag an approach.
   */
  predicate CorrelatedAt(ticks: seq<Tick>, i: nat)
    requires i < |ticks|
  {
    && (exists j :: WindowStart(i) <= j <= i && VelocityAt(ticks, j) < -UltrasonicApproachSpeed)
    && (exists j :: WindowStart(i) <= j <= i && CameraApproaching(ticks[j].camera))
  }

  /** The window after `n` entries starts at the entry `WindowStart` names. */
  lemma TrimIsWindow<T>(s: seq<T>)
    requires |s| > 0
    ensures Trim(s) == s[WindowStart(|s| - 1)..]
  {
  }

  /** Something holds of an entry of the suffix from `lo` exactly when it holds at some index from `lo` on. */
  lemma ExistsInSuffix<T>(s: seq<T>, lo: nat, p: T -> bool)
    requires lo <= |s|
    ensures (exists k :: 0 <= k < |s[lo..]| && p(s[lo..][k])) <==> (exists j :: lo <= j < |s| && p(s[j]))
  {
    var w := s[lo..];
    if k :| 0 <= k < |w| && p(w[k]) {
      assert p(s[lo + k]);
    }
    if j :| lo <= j < |s| && p(s[j]) {
      assert p(w[j - lo]);
    }
  }

  /** Some tick of the window closed in fast exactly when some sample of the correlator's window does. */
  lemma WindowedClosing(ticks: seq<Tick>, i: nat)
    requires i < |ticks|
    ensures var u := Trim(Samples(ticks, i + 1));
            (exists j :: WindowStart(i) <= j <= i && VelocityAt(ticks, j) < -UltrasonicApproachSpeed)
            <==> (exists k :: 0 <= k < |u| && Closing(u[k]))
  {
    var s := Samples(ticks, i + 1);
    TrimIsWindow(s);
    ExistsInSuffix(s, WindowStart(i), Closing);
    assert forall j :: 0 <= j < |s| ==> s[j].velocity == VelocityAt(ticks, j);
  }

  /** Some tick of the window had the camera flag an approach exactly when some result of the correlator's window does. */
  lemma WindowedCamera(ticks: seq<Tick>, i: nat)
    requires i < |ticks|
    ensures var c := Trim(Cameras(ticks, i + 1));
            (exists j :: WindowStart(i) <= j <= i && CameraApproaching(ticks[j].camera))
            <==> (exists k :: 0 <= k < |c| && CameraApproaching(c[k]))
  {
    var s := Cameras(ticks, i + 1);
    TrimIsWindow(s);
    ExistsInSuffix(s, WindowStart(i), CameraApproaching);
    assert forall j :: 0 <= j < |s| ==> s[j] == ticks[j].camera;
  }

  /** The correlator's verdict after tick `i` is the correlation of the run at tick `i`. */
  lemma WindowedCorrelation(ticks: seq<Tick>, i: nat)
    requires i < |ticks|
    ensures Correlated(Trim(Samples(ticks, i + 1)), Trim(Cameras(ticks, i + 1))) == CorrelatedAt(ticks, i)
  {
    WindowedClosing(ticks, i);
    WindowedCamera(ticks, i);
  }

  /** The event `main` builds at tick `i` of a run, numbered from 1. */
  function EventAt(ticks: seq<Tick>, i: nat): Event
    requires i < |ticks|
  {
    BuildEvent(ticks[i].distance, VelocityAt(ticks, i), ticks[i].camera, CorrelatedAt(ticks, i), i + 1, ticks[i].now)
  }

  /** The events of the first `n` ticks of a run. */
  function Events(ticks: seq<Tick>, n: nat): (r: seq<Event>)
    requires n <= |ticks|
    ensures |r| == n
  {
    seq(n, k requires 0 <= k < n => EventAt(ticks, k))
  }

  /** One more tick adds its event at the end. */
  lemma ExtendEvents(ticks: seq<Tick>, n: nat)
    requires n < |ticks|
    ensures Events(ticks, n + 1) == Events(ticks, n) + [EventAt(ticks, n)]
  {
    var a, b := Events(ticks, n + 1), Events(ticks, n) + [EventAt(ticks, n)];
    forall k | 0 <= k < n + 1 ensures a[k] == b[k] {
      if k < n {
        assert b[k] == Events(ticks, n)[k];
      }
    }
  }

  /**
   * One pass of `main`'s loop, sensor reads and output removed: feed the
   * readings to the correlator, ask it for agreement, remember the distance
   * and build the event under the next sequence number.
   */
  method Step(correlator: SensorCorrelator, prevDistance: Option<real>, sequenceNum: nat, tick: Tick)
    returns (event: Event, nextPrevDistance: Option<real>, nextSequenceNum: nat)
    modifies correlator
    ensures correlator.ultrasonicHistory
            == Trim(old(correlator.ultrasonicHistory) + [UltrasonicSample(tick.distance, InstantVelocity(tick.distance, prevDistance))])
    ensures correlator.cameraHistory == Trim(old(correlator.cameraHistory) + [tick.camera])
    ensures nextPrevDistance == Some(tick.distance) && nextSequenceNum == sequenceNum + 1
    ensures event == BuildEvent(tick.distance, InstantVelocity(tick.distance, prevDistance), tick.camera,
                                Correlated(correlator.ultrasonicHistory, correlator.cameraHistory), nextSequenceNum, tick.now)
  {
    var velocity := correlator.Update(tick.distance, prevDistance, tick.camera);
    var correlated := correlator.IsCorrelatedApproach();
    nextPrevDistance := Some(tick.distance);

    nextSequenceNum := sequenceNum + 1;
    event := BuildEvent(tick.distance, velocity, tick.camera, correlated, nextSequenceNum, tick.now);
  }

  /** The previous distance `main` holds when it reaches tick `i`. */
  function PrevDistanceAt(ticks: seq<Tick>, i: nat): Option<real>
    requires i <= |ticks|
  {
    if i == 0 then None else Some(ticks[i - 1].distance)
  }

  /**
   * What one `Step` does to windows that hold the run so far: they then hold
   * the run one tick longer, and the event built is the run's event at that tick.
   */
  lemma StepExtendsRun(ticks: seq<Tick>, i: nat)
    requires i < |ticks|
    ensures var velocity := InstantVelocity(ticks[i].distance, PrevDistanceAt(ticks, i));
            var u := Trim(Trim(Samples(ticks, i)) + [UltrasonicSample(ticks[i].distance, velocity)]);
            var c := Trim(Trim(Cameras(ticks, i)) + [ticks[i].camera]);
            && u == Trim(Samples(ticks, i + 1))
            && c == Trim(Cameras(ticks, i + 1))
            && BuildEvent(ticks[i].distance, velocity, ticks[i].camera, Correlated(u, c), i + 1, ticks[i].now) == EventAt(ticks, i)
  {
    ExtendRun(ticks, i);
    TrimAppend(Samples(ticks, i), UltrasonicSample(ticks[i].distance, VelocityAt(ticks, i)));
    TrimAppend(Cameras(ticks, i), ticks[i].camera);
    WindowedCorrelation(ticks, i);
  }

  /**
   * `main`, over a finite run of ticks instead of forever: run `Step` on each
   * tick in turn, starting from a fresh correlator, no previous distance and
   * sequence number 0. Sequence numbers start at 1 and go up by one per tick.
   */
  method Run(ticks: seq<Tick>) returns (events: seq<Event>)
    ensures |events| == |ticks|
    ensures forall i :: 0 <= i < |ticks| ==> events[i] == EventAt(ticks, i)
    ensures forall i :: 0 <= i < |events| ==> events[i].sequenceNum == i + 1
  {
    var correlator := new SensorCorrelator();
    var prevDistance: Option<real> := None;
    var sequenceNum: nat := 0;
    events := [];

    var i := 0;
    while i < |ticks|
      invariant 0 <= i <= |ticks|
      invariant fresh(correlator)
      invariant sequenceNum == i
      invariant prevDistance == PrevDistanceAt(ticks, i)
      invariant correlator.ultrasonicHistory == Trim(Samples(ticks, i))
      invariant correlator.cameraHistory == Trim(Cameras(ticks, i))
      invariant events == Events(ticks, i)
    {
      StepExtendsRun(ticks, i);
      ExtendEvents(ticks, i);

      var event;
      event, prevDistance, sequenceNum := Step(correlator, prevDistance, sequenceNum, ticks[i]);
      events := events + [event];
      i := i + 1;
    }
  }
}
