/**
 * The ultrasonic distance tracker (sensors/object_tracker.py): noise filter,
 * persistence, window velocity, time-to-collision, tiered severity and
 * hysteresis. The tracker is fed one distance per tick; the clock reading the
 * source takes from `time.time()` is the `now` parameter of `Update`.
 */
module ObjectTracking {
  import opened Wrappers

  // Distance zones (cm)
  const DistanceCritical: real := 15.0
  const DistanceWarning: real := 40.0
  const DistanceMax: real := 100.0

  // How far an object must retreat past a zone before its alert clears (cm)
  const HysteresisCritical: real := 5.0
  const HysteresisWarning: real := 8.0

  // Approach velocities (cm/s); negative means closing in
  const VelocityCaution: real := -15.0
  const VelocityWarning: real := -40.0
  const VelocityCritical: real := -80.0

  // Time-to-collision thresholds (s)
  const TtcWarning: real := 3.0
  const TtcCritical: real := 1.0

  /** Consecutive valid readings needed before an object is trusted. */
  const PersistenceMin: nat := 3

  /** Capacity of the reading window. */
  const HistorySize: nat := 5

  /** One accepted reading: when it was taken (s) and the distance (cm). */
  datatype Reading = Reading(time: real, distance: real)

  datatype Severity = Caution | Warning | Critical

  /** How severe an alert state is: no alert 0, then caution, warning, critical. */
  function Rank(s: Option<Severity>): nat {
    match s
    case None => 0
    case Some(Caution) => 1
    case Some(Warning) => 2
    case Some(Critical) => 3
  }

  /** Why a severity was chosen; the source formats each of these as a sentence. */
  datatype Reason =
    | FilteredAsNoise
    | Unconfirmed(count: nat, required: nat)
    | CriticalZone(distance: real)
    | WarningZone(distance: real)
    | CollisionPredicted(ttc: real)
    | RapidApproach(speed: real)
    | FastApproach(speed: real)
    | Approaching(speed: real)
    | EstimatedArrival(ttc: real)
    | CriticalHysteresis(distance: real)
    | WarningHysteresis(distance: real)

  /** The record `update` returns. */
  datatype Assessment = Assessment(
    objectDetected: bool,
    objectConfirmed: bool,
    distance: real,
    velocity: real,
    ttc: Option<real>,
    severity: Option<Severity>,
    reasons: seq<Reason>)

  function Min(a: int, b: int): int {
    if a < b then a else b
  }

  /** A reading the noise filter lets through. */
  predicate IsPlausible(d: real) {
    0.0 < d <= DistanceMax
  }

  /** `deque(maxlen=HISTORY_SIZE).append`: add at the newest end, evicting the oldest when full. */
  function Append(h: seq<Reading>, r: Reading): (h': seq<Reading>)
    ensures |h'| == Min(|h| + 1, HistorySize)
    ensures h'[|h'| - 1] == r
  {
    if |h| < HistorySize then h + [r] else h[|h| + 1 - HistorySize..] + [r]
  }

  /** The window after an append is the newest readings of the old window followed by the new one. */
  lemma AppendKeepsNewest(h: seq<Reading>, r: Reading)
    ensures Append(h, r) == (h + [r])[|h| + 1 - |Append(h, r)|..]
    ensures |h| < HistorySize ==> Append(h, r) == h + [r]
    ensures |h| == HistorySize ==> Append(h, r) == h[1..] + [r]
  {
    var h' := Append(h, r);
    if |h| >= HistorySize {
      assert h' == (h + [r])[|h| + 1 - HistorySize..];
    }
  }

  /** Appending a plausible reading to a window of plausible readings gives one. */
  lemma AppendKeepsPlausible(h: seq<Reading>, r: Reading)
    requires forall i :: 0 <= i < |h| ==> IsPlausible(h[i].distance)
    requires IsPlausible(r.distance)
    ensures forall i :: 0 <= i < |Append(h, r)| ==> IsPlausible(Append(h, r)[i].distance)
  {
    var h' := Append(h, r);
    AppendKeepsNewest(h, r);
    forall i | 0 <= i < |h'| ensures IsPlausible(h'[i].distance) {
      assert h'[i] == (h + [r])[|h| + 1 - |h'| + i];
    }
  }

  /**
   * `_compute_velocity`: the distance change between the oldest and the newest
   * reading of the window over the time between them; 0 for fewer than two
   * readings or no elapsed time.
   */
  function WindowVelocity(h: seq<Reading>): (v: real)
    ensures |h| < 2 ==> v == 0.0
    ensures |h| >= 2 && h[|h| - 1].time == h[0].time ==> v == 0.0
  {
    if |h| < 2 then 0.0
    else
      var oldest, newest := h[0], h[|h| - 1];
      var dt := newest.time - oldest.time;
      if dt == 0.0 then 0.0 else (newest.distance - oldest.distance) / dt
  }

  /** Over a window with elapsed time, velocity times that time is the distance covered from the oldest to the newest reading. */
  lemma WindowVelocityCoversWindow(h: seq<Reading>)
    requires |h| >= 2 && h[|h| - 1].time != h[0].time
    ensures WindowVelocity(h) * (h[|h| - 1].time - h[0].time) == h[|h| - 1].distance - h[0].distance
  {
  }

  /** With time running forward across the window, velocity is negative exactly when the object came closer. */
  lemma VelocitySign(h: seq<Reading>)
    requires |h| >= 2 && h[0].time < h[|h| - 1].time
    ensures WindowVelocity(h) < 0.0 <==> h[|h| - 1].distance < h[0].distance
    ensures WindowVelocity(h) == 0.0 <==> h[|h| - 1].distance == h[0].distance
  {
    var v, dt := WindowVelocity(h), h[|h| - 1].time - h[0].time;
    WindowVelocityCoversWindow(h);
    assert v * dt == h[|h| - 1].distance - h[0].distance;
    if v < 0.0 { assert v * dt < 0.0; }
    if v > 0.0 { assert v * dt > 0.0; }
  }

  /**
   * `_compute_ttc`: seconds until contact at the current closing speed, defined
   * only when the object closes in at 1 cm/s or more.
   */
  function TimeToCollision(distance: real, velocity: real): (t: Option<real>)
    ensures t.Some? <==> velocity <= -1.0
    ensures t.Some? && distance > 0.0 ==> t.value > 0.0
  {
    if velocity >= 0.0 then None
    else
      var speed := Abs(velocity);
      if speed < 1.0 then None else Some(distance / speed)
  }

  /** When defined, the time-to-collision at the closing speed covers exactly the distance. */
  lemma TimeToCollisionCoversDistance(distance: real, velocity: real)
    requires velocity <= -1.0
    ensures TimeToCollision(distance, velocity).value * -velocity == distance
  {
  }

  /** The time-to-collision is known and below `bound`. */
  predicate Below(ttc: Option<real>, bound: real) {
    ttc.Some? && ttc.value < bound
  }

  /** The tier `_assess_severity` computes before hysteresis: most severe first, first match wins. */
  function Tier(d: real, v: real, ttc: Option<real>): Option<Severity> {
    if d < DistanceCritical || Below(ttc, TtcCritical) || v < VelocityCritical then Some(Critical)
    else if d < DistanceWarning || Below(ttc, TtcWarning) || v < VelocityWarning then Some(Warning)
    else if v < VelocityCaution then Some(Caution)
    else None
  }

  /** One reason per signal that fired in the chosen tier. */
  function TierReasons(d: real, v: real, ttc: Option<real>): seq<Reason> {
    match Tier(d, v, ttc)
    case Some(Critical) =>
      (if d < DistanceCritical then [CriticalZone(d)] else [])
      + (if Below(ttc, TtcCritical) then [CollisionPredicted(ttc.value)] else [])
      + (if v < VelocityCritical then [RapidApproach(Abs(v))] else [])
    case Some(Warning) =>
      (if d < DistanceWarning then [WarningZone(d)] else [])
      + (if Below(ttc, TtcWarning) then [CollisionPredicted(ttc.value)] else [])
      + (if v < VelocityWarning then [FastApproach(Abs(v))] else [])
    case Some(Caution) =>
      [Approaching(Abs(v))] + (if ttc.Some? then [EstimatedArrival(ttc.value)] else [])
    case None => []
  }

  /**
   * Hysteresis: a prior critical alert stays critical while the object is
   * within the critical zone plus its margin; a prior warning stays a warning,
   * when nothing at all was computed, within the warning zone plus its margin.
   */
  function Held(prior: Option<Severity>, computed: Option<Severity>, d: real): Option<Severity> {
    if prior == Some(Critical) && computed != Some(Critical) then
      if d < DistanceCritical + HysteresisCritical then Some(Critical) else computed
    else if prior == Some(Warning) && computed == None then
      if d < DistanceWarning + HysteresisWarning then Some(Warning) else computed
    else computed
  }

  /** The reasons reported with the final tier: a single hysteresis reason when the tier was held open. */
  function FinalReasons(prior: Option<Severity>, d: real, v: real, ttc: Option<real>): seq<Reason> {
    var computed := Tier(d, v, ttc);
    var held := Held(prior, computed, d);
    if held == computed then TierReasons(d, v, ttc)
    else if held == Some(Critical) then [CriticalHysteresis(d)]
    else [WarningHysteresis(d)]
  }

  /** The zone thresholds, and that caution arises only from the approach speed. */
  lemma TierThresholds(d: real, v: real, ttc: Option<real>)
    ensures d < DistanceCritical ==> Tier(d, v, ttc) == Some(Critical)
    ensures d < DistanceWarning ==> Tier(d, v, ttc) in {Some(Warning), Some(Critical)}
    ensures v < VelocityCritical ==> Tier(d, v, ttc) == Some(Critical)
    ensures Tier(d, v, ttc) == Some(Caution) ==>
              VelocityWarning <= v < VelocityCaution && d >= DistanceWarning && !Below(ttc, TtcWarning)
    ensures v >= VelocityCaution ==> Tier(d, v, ttc) != Some(Caution)
  {
  }

  /** A closer object is never rated less severe, at the same approach velocity. */
  lemma TierMonotoneInDistance(d1: real, d2: real, v: real)
    requires 0.0 < d1 <= d2
    ensures Rank(Tier(d1, v, TimeToCollision(d1, v))) >= Rank(Tier(d2, v, TimeToCollision(d2, v)))
  {
    var t1, t2 := TimeToCollision(d1, v), TimeToCollision(d2, v);
    if t1.Some? {
      DivideSmaller(d1, d2, Abs(v));
      assert t1.value <= t2.value;
    }
  }

  /** A shorter distance at the same speed takes no longer. */
  lemma DivideSmaller(d1: real, d2: real, s: real)
    requires d1 <= d2 && s > 0.0
    ensures d1 / s <= d2 / s
  {
    var q1, q2 := d1 / s, d2 / s;
    assert q1 * s == d1 && q2 * s == d2;
    assert (q2 - q1) * s == d2 - d1;
  }

  /** The same distance covered at a higher speed takes less time. */
  lemma DivideByLarger(d: real, s1: real, s2: real)
    requires d > 0.0 && s1 >= s2 > 0.0
    ensures d / s1 <= d / s2
  {
    var q1, q2 := d / s1, d / s2;
    assert q1 * s1 == d && q2 * s2 == d;
    assert q1 * s2 <= q1 * s1 by { assert q1 * (s1 - s2) >= 0.0; }
    assert (q2 - q1) * s2 >= 0.0;
  }

  /** A faster approach is never rated less severe, at the same distance. */
  lemma TierMonotoneInVelocity(d: real, v1: real, v2: real)
    requires 0.0 < d && v1 <= v2
    ensures Rank(Tier(d, v1, TimeToCollision(d, v1))) >= Rank(Tier(d, v2, TimeToCollision(d, v2)))
  {
    var t1, t2 := TimeToCollision(d, v1), TimeToCollision(d, v2);
    if t2.Some? {
      assert t1.Some?;
      DivideByLarger(d, Abs(v1), Abs(v2));
    }
  }

  /** Before hysteresis, a tier is chosen exactly when some reason is reported. */
  lemma TierReasonsIffTier(d: real, v: real, ttc: Option<real>)
    ensures TierReasons(d, v, ttc) == [] <==> Tier(d, v, ttc) == None
  {
  }

  /** Hysteresis only holds a tier open: the result is the computed or the prior tier, never above both, never below the computed one. */
  lemma HysteresisNeverEscalates(prior: Option<Severity>, computed: Option<Severity>, d: real)
    ensures Held(prior, computed, d) == computed || Held(prior, computed, d) == prior
    ensures Rank(computed) <= Rank(Held(prior, computed, d))
    ensures Rank(Held(prior, computed, d)) <= Rank(computed) || Rank(Held(prior, computed, d)) <= Rank(prior)
  {
  }

  /** After a critical alert, the tier stays critical exactly while critical is computed or the object is inside 20 cm; a held tier carries one reason. */
  lemma CriticalHysteresisZone(d: real, v: real, ttc: Option<real>)
    ensures (Held(Some(Critical), Tier(d, v, ttc), d) == Some(Critical))
              == (Tier(d, v, ttc) == Some(Critical) || d < DistanceCritical + HysteresisCritical)
    ensures Tier(d, v, ttc) != Some(Critical) && d < DistanceCritical + HysteresisCritical ==>
              FinalReasons(Some(Critical), d, v, ttc) == [CriticalHysteresis(d)]
  {
  }

  /**
   * After a warning, a computed "no alert" is held as a warning inside 48 cm;
   * a computed caution replaces the warning at once.
   */
  lemma WarningHysteresisZone(d: real, v: real, ttc: Option<real>)
    ensures Tier(d, v, ttc) == None ==>
              (Held(Some(Warning), None, d) == Some(Warning) <==> d < DistanceWarning + HysteresisWarning)
    ensures Tier(d, v, ttc) == None && d < DistanceWarning + HysteresisWarning ==>
              FinalReasons(Some(Warning), d, v, ttc) == [WarningHysteresis(d)]
    ensures Tier(d, v, ttc) == Some(Caution) ==> Held(Some(Warning), Some(Caution), d) == Some(Caution)
  {
  }

  /** After hysteresis, the final tier is "no alert" exactly when no reason is reported. */
  lemma FinalSeverityIffReasons(prior: Option<Severity>, d: real, v: real, ttc: Option<real>)
    ensures Held(prior, Tier(d, v, ttc), d) == None <==> FinalReasons(prior, d, v, ttc) == []
  {
    TierReasonsIffTier(d, v, ttc);
  }

  /** A window closing faster than 80 cm/s is critical whatever came before. */
  lemma RapidApproachIsCritical(prior: Option<Severity>, h: seq<Reading>, d: real)
    requires WindowVelocity(h) < VelocityCritical
    ensures Held(prior, Tier(d, WindowVelocity(h), TimeToCollision(d, WindowVelocity(h))), d) == Some(Critical)
  {
  }

  /** The tracker's fields, as one value. */
  datatype TrackerState = TrackerState(
    history: seq<Reading>,
    consecutiveValid: nat,
    currentAlert: Option<Severity>,
    lastVelocity: real,
    lastTtc: Option<real>,
    objectConfirmed: bool)

  /** The state `__init__` sets up. */
  const Initial: TrackerState := TrackerState([], 0, None, 0.0, None, false)

  /**
   * The tracker's invariant: the window holds at most 5 plausible readings and
   * at least as many as the current run of valid readings; before confirmation
   * there is no alert and no estimate; once confirmed, the cached estimates are
   * those of the window.
   */
  ghost predicate Invariant(s: TrackerState) {
    && |s.history| <= HistorySize
    && Min(s.consecutiveValid, HistorySize) <= |s.history|
    && (forall i :: 0 <= i < |s.history| ==> IsPlausible(s.history[i].distance))
    && (s.consecutiveValid < PersistenceMin ==> s.currentAlert == None && s.lastVelocity == 0.0 && s.lastTtc == None)
    && (0 < s.consecutiveValid < PersistenceMin ==> !s.objectConfirmed)
    && (s.consecutiveValid >= PersistenceMin ==>
          && s.objectConfirmed
          && s.lastVelocity == WindowVelocity(s.history)
          && s.lastTtc == TimeToCollision(s.history[|s.history| - 1].distance, s.lastVelocity))
  }

  /**
   * One call of `update`: the new state and the assessment returned. A filtered
   * reading clears the run, the alert and the estimates and leaves the window
   * alone; a valid one is appended to the window; from the third valid reading
   * in a row on, velocity, time-to-collision and the hysteresis-held tier are
   * computed.
   */
  function Step(s: TrackerState, rawDistance: real, now: real): (TrackerState, Assessment) {
    if !IsPlausible(rawDistance) then
      (s.(consecutiveValid := 0, currentAlert := None, lastVelocity := 0.0, lastTtc := None),
       Assessment(false, false, rawDistance, 0.0, None, None, [FilteredAsNoise]))
    else
      var n := s.consecutiveValid + 1;
      var h := Append(s.history, Reading(now, rawDistance));
      if n < PersistenceMin then
        (s.(history := h, consecutiveValid := n, objectConfirmed := false),
         Assessment(true, false, rawDistance, 0.0, None, None, [Unconfirmed(n, PersistenceMin)]))
      else
        var v := WindowVelocity(h);
        var ttc := TimeToCollision(rawDistance, v);
        var severity := Held(s.currentAlert, Tier(rawDistance, v, ttc), rawDistance);
        (TrackerState(h, n, severity, v, ttc, true),
         Assessment(true, true, rawDistance, v, ttc, severity, FinalReasons(s.currentAlert, rawDistance, v, ttc)))
  }

  lemma InitialInvariant()
    ensures Invariant(Initial)
  {
  }

  /** Every update keeps the invariant. */
  lemma StepKeepsInvariant(s: TrackerState, rawDistance: real, now: real)
    requires Invariant(s)
    ensures Invariant(Step(s, rawDistance, now).0)
  {
    if IsPlausible(rawDistance) {
      AppendKeepsPlausible(s.history, Reading(now, rawDistance));
    }
  }

  /** A filtered reading: nothing detected, the run restarts, alert and estimates clear, the window is kept. */
  lemma NoiseResets(s: TrackerState, rawDistance: real, now: real)
    requires rawDistance <= 0.0 || rawDistance > DistanceMax
    ensures var (s', a) := Step(s, rawDistance, now);
            && !a.objectDetected && !a.objectConfirmed && a.severity == None
            && s'.consecutiveValid == 0 && s'.currentAlert == None && s'.lastVelocity == 0.0 && s'.lastTtc == None
            && s'.history == s.history
  {
  }

  /** A valid reading adds exactly itself to the window, evicting the oldest only when 5 are held. */
  lemma ValidReadingAppends(s: TrackerState, rawDistance: real, now: real)
    requires Invariant(s) && IsPlausible(rawDistance)
    ensures var s' := Step(s, rawDistance, now).0;
            && s'.consecutiveValid == s.consecutiveValid + 1
            && s'.history[|s'.history| - 1] == Reading(now, rawDistance)
            && (|s.history| < HistorySize ==> s'.history == s.history + [Reading(now, rawDistance)])
            && (|s.history| == HistorySize ==> s'.history == s.history[1..] + [Reading(now, rawDistance)])
            && |s'.history| <= HistorySize
  {
  }

  /**
   * Persistence: an object is confirmed exactly from the third valid reading in
   * a row; before that it has no severity, velocity or time-to-collision.
   */
  lemma Persistence(s: TrackerState, rawDistance: real, now: real)
    requires Invariant(s)
    ensures var (s', a) := Step(s, rawDistance, now);
            && (a.objectConfirmed <==> IsPlausible(rawDistance) && s.consecutiveValid + 1 >= PersistenceMin)
            && (a.objectDetected && !a.objectConfirmed ==> a.severity == None && a.velocity == 0.0 && a.ttc == None)
            && (s'.consecutiveValid < PersistenceMin ==> s'.currentAlert == None)
  {
    StepKeepsInvariant(s, rawDistance, now);
  }

  /**
   * The returned severity is the stored alert; a confirmed assessment has a
   * severity exactly when it gives reasons; the severity is the computed tier
   * or the previous alert.
   */
  lemma AssessmentMatchesState(s: TrackerState, rawDistance: real, now: real)
    requires Invariant(s)
    ensures var (s', a) := Step(s, rawDistance, now);
            && a.severity == s'.currentAlert
            && (a.objectConfirmed ==> (a.severity == None <==> a.reasons == []))
            && (a.objectConfirmed ==> a.severity == Tier(rawDistance, a.velocity, a.ttc) || a.severity == s.currentAlert)
  {
    if IsPlausible(rawDistance) && s.consecutiveValid + 1 >= PersistenceMin {
      var h := Append(s.history, Reading(now, rawDistance));
      var v := WindowVelocity(h);
      FinalSeverityIffReasons(s.currentAlert, rawDistance, v, TimeToCollision(rawDistance, v));
      HysteresisNeverEscalates(s.currentAlert, Tier(rawDistance, v, TimeToCollision(rawDistance, v)), rawDistance);
    }
  }

  /** From a fresh tracker, two valid readings stay unconfirmed, the third confirms; a filtered reading then starts over. */
  lemma ThreeReadingsConfirm(d1: real, d2: real, d3: real, t1: real, t2: real, t3: real, noise: real, t4: real)
    requires IsPlausible(d1) && IsPlausible(d2) && IsPlausible(d3) && !IsPlausible(noise)
    ensures var (s1, a1) := Step(Initial, d1, t1);
            var (s2, a2) := Step(s1, d2, t2);
            var (s3, a3) := Step(s2, d3, t3);
            var (s4, a4) := Step(s3, noise, t4);
            && a1.objectDetected && !a1.objectConfirmed
            && a2.objectDetected && !a2.objectConfirmed
            && a3.objectConfirmed && |s3.history| == 3
            && !a4.objectDetected && s4.consecutiveValid == 0 && s4.currentAlert == None
  {
  }

  /** The tracker's state, updated in place by each reading. */
  class ObjectTracker {
    var history: seq<Reading>
    var consecutiveValid: nat
    var currentAlert: Option<Severity>
    var lastVelocity: real
    var lastTtc: Option<real>
    var objectConfirmed: bool

    function State(): TrackerState
      reads this
    {
      TrackerState(history, consecutiveValid, currentAlert, lastVelocity, lastTtc, objectConfirmed)
    }

    ghost predicate Valid()
      reads this
    {
      Invariant(State())
    }

    constructor ()
      ensures Valid() && State() == Initial
    {
      history := [];
      consecutiveValid := 0;
      currentAlert := None;
      lastVelocity := 0.0;
      lastTtc := None;
      objectConfirmed := false;
    }

    /** `update`: feed one distance reading taken at time `now`. */
    method Update(rawDistance: real, now: real) returns (a: Assessment)
      requires Valid()
      modifies this
      ensures Valid()
      ensures (State(), a) == Step(old(State()), rawDistance, now)
    {
      ghost var next := Step(State(), rawDistance, now);
      StepKeepsInvariant(State(), rawDistance, now);

      if rawDistance <= 0.0 || rawDistance > DistanceMax {
        consecutiveValid := 0;
        a := NoObject(rawDistance);
        assert (State(), a) == next;
        return;
      }

      consecutiveValid := consecutiveValid + 1;
      history := Append(history, Reading(now, rawDistance));

      if consecutiveValid < PersistenceMin {
        objectConfirmed := false;
        a := UnconfirmedObject(rawDistance);
        assert (State(), a) == next;
        return;
      }

      objectConfirmed := true;
      lastVelocity := WindowVelocity(history);
      lastTtc := TimeToCollision(rawDistance, lastVelocity);
      var severity, reasons := AssessSeverity(rawDistance);
      a := Assessment(true, true, rawDistance, lastVelocity, lastTtc, severity, reasons);
      assert history == next.0.history;
      assert consecutiveValid == next.0.consecutiveValid;
      assert lastVelocity == next.0.lastVelocity;
      assert lastTtc == next.0.lastTtc;
      assert currentAlert == next.0.currentAlert;
      assert a == next.1;
      assert (State(), a) == next;
    }

    /**
     * `_assess_severity`: choose the tier from the cached velocity and
     * time-to-collision, apply hysteresis against the current alert, and store
     * the result as the new alert.
     */
    method AssessSeverity(distance: real) returns (severity: Option<Severity>, reasons: seq<Reason>)
      modifies this`currentAlert
      ensures severity == Held(old(currentAlert), Tier(distance, lastVelocity, lastTtc), distance)
      ensures reasons == FinalReasons(old(currentAlert), distance, lastVelocity, lastTtc)
      ensures currentAlert == severity
    {
      reasons := [];
      severity := None;

      if distance < DistanceCritical || Below(lastTtc, TtcCritical) || lastVelocity < VelocityCritical {
        severity := Some(Critical);
        if distance < DistanceCritical {
          reasons := reasons + [CriticalZone(distance)];
        }
        if Below(lastTtc, TtcCritical) {
          reasons := reasons + [CollisionPredicted(lastTtc.value)];
        }
        if lastVelocity < VelocityCritical {
          reasons := reasons + [RapidApproach(Abs(lastVelocity))];
        }
      } else if distance < DistanceWarning || Below(lastTtc, TtcWarning) || lastVelocity < VelocityWarning {
        severity := Some(Warning);
        if distance < DistanceWarning {
          reasons := reasons + [WarningZone(distance)];
        }
        if Below(lastTtc, TtcWarning) {
          reasons := reasons + [CollisionPredicted(lastTtc.value)];
        }
        if lastVelocity < VelocityWarning {
          reasons := reasons + [FastApproach(Abs(lastVelocity))];
        }
      } else if lastVelocity < VelocityCaution {
        severity := Some(Caution);
        reasons := reasons + [Approaching(Abs(lastVelocity))];
        if lastTtc.Some? {
          reasons := reasons + [EstimatedArrival(lastTtc.value)];
        }
      }

      if currentAlert == Some(Critical) && severity != Some(Critical) {
        if distance < DistanceCritical + HysteresisCritical {
          severity := Some(Critical);
          reasons := [CriticalHysteresis(distance)];
        }
      } else if currentAlert == Some(Warning) && severity == None {
        if distance < DistanceWarning + HysteresisWarning {
          severity := Some(Warning);
          reasons := [WarningHysteresis(distance)];
        }
      }

      currentAlert := severity;
    }

    /** `_no_object`: a filtered reading clears the alert and the cached estimates. */
    method NoObject(rawDistance: real) returns (a: Assessment)
      modifies this`currentAlert, this`lastVelocity, this`lastTtc
      ensures currentAlert == None && lastVelocity == 0.0 && lastTtc == None
      ensures a == Assessment(false, false, rawDistance, 0.0, None, None, [FilteredAsNoise])
    {
      currentAlert := None;
      lastVelocity := 0.0;
      lastTtc := None;
      a := Assessment(false, false, rawDistance, 0.0, None, None, [FilteredAsNoise]);
    }

    /** `_unconfirmed_object`: a detection not yet trusted carries no velocity, time-to-collision or severity. */
    function UnconfirmedObject(rawDistance: real): (a: Assessment)
      reads this
      ensures a.objectDetected && !a.objectConfirmed && a.distance == rawDistance
      ensures a.velocity == 0.0 && a.ttc == None && a.severity == None
      ensures a.reasons == [Unconfirmed(consecutiveValid, PersistenceMin)]
    {
      Assessment(true, false, rawDistance, 0.0, None, None, [Unconfirmed(consecutiveValid, PersistenceMin)])
    }
  }
}
