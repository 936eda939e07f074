# secure-driving, modelled in Dafny

secure-driving is a small vehicle-safety demo with three parts:

- **The sensor side.** A Raspberry Pi reads an ultrasonic distance sensor and a camera. It decides whether both agree that something is approaching, and classifies each tick into one of five event types.
- **The signer.** It adds an HMAC-SHA256 signature over the canonical JSON of the event.
- **The logger.** It accepts an event only if:
  - all required fields are present;
  - the MAC matches;
  - the timestamp is at most 10 s old;
  - the sequence number is above the highest one already seen from that sensor.

A separate distance tracker filters ultrasonic noise. It waits for three consecutive valid readings, estimates velocity and time-to-collision over a five-reading window, and rates severity with hysteresis.

This project models those cores and proves their properties. It has one Dafny module per source file:

| module | file | models |
|---|---|---|
| `Wrappers` | wrappers.dfy | `None`/value (`Option`, `.get` with a default) and `abs` |
| `Config` | config.dfy | `SECRET_KEY`, `TIMESTAMP_WINDOW` (config.py) |
| `Message` | message.dfy | `canonical_json`, `without_signature` (message.py) |
| `Signer` | signer.dfy | `compute_hmac`, `sign_message`, `verify_locally` (security/signer.py) |
| `Verifier` | verifier.dfy | `recompute_hmac`, `verify_message` with its `seen_sequences` table (logger/verifier.py) |
| `ObjectTracking` | object_tracker.dfy | class `ObjectTracker` and its thresholds (sensors/object_tracker.py) |
| `SensorMain` | sensor_main.dfy | class `SensorCorrelator`, `build_event`, the `main` loop (sensors/sensor_main.py) |

How the model is put together:

- **Messages** are `map<string, Value>`, where `Value` is a small JSON value type.
- **HMAC-SHA256 and `json.dumps(sort_keys=True)`** are left uninterpreted. They are the two function fields of a `Primitives` value, which every signing and verifying member takes as a parameter.
  - `dumps` takes a Dafny `map`, which has no insertion order. So the canonical serialisation depends only on the object's contents.
- **The clock.** Wherever the source reads `time.time()`, the model takes a `now` parameter.
- **The tracker** is a class whose fields are the source's fields. `Update` is proved to equal a pure transition function `Step` on a `TrackerState` value. The tracker's properties are lemmas about `Step`:
  - it preserves the invariant;
  - noise resets the state;
  - a valid reading appends one entry;
  - persistence;
  - the returned severity matches the stored alert.
- **The severity rules:**
  - `Tier` is the tier chosen before hysteresis, most severe first;
  - `Held` applies hysteresis;
  - `TierReasons` and `FinalReasons` give the reason lists.
- **The correlator** is a class with the two history fields.
- **`build_event`** is the pure function `BuildEvent`.
- **One pass of `main`'s loop** is the method `Step`. `Run` runs it over a finite sequence of ticks and is proved to produce `EventAt`, defined directly over the run:
  - the event of tick `i` has sequence number `i + 1`;
  - its velocity is taken against the previous tick;
  - its correlation is computed over the last three ticks.
- **The verifier:**
  - `Verify` gives the verdict as a function of the table before the call;
  - `Record` gives the table after it;
  - `LogVerifier.VerifyMessage` is the imperative loop-and-checks version, proved equal to both;
  - `Replay` runs the table over a series of deliveries.

## Model

| member | source | states |
|---|---|---|
| Message.CanonicalJson | message.py:4-5 | the canonical text of an object; `CanonicalJsonContentsOnly` states its property |
| Message.CanonicalJsonContentsOnly | message.py:4-5 | two objects with the same keys and the same value at each key have the same canonical JSON, whatever order they were built in |
| Message.WithoutSignature | message.py:7-8 | the result has no `signature` key, has exactly the other keys of the message, and keeps their values |
| Message.WithoutSignatureIdempotent | message.py:7-8 | dropping the signature twice equals dropping it once |
| Message.WithoutSignatureUnsigned | message.py:7-8 | a message without a `signature` key is returned unchanged |
| Message.WithoutSignatureIgnoresSignature | message.py:7-8 | setting `signature` to any value before dropping it gives the same result |
| Message.HexDigestIsAscii | security/signer.py:15 | a hex digest holds only ASCII characters, so `compare_digest` accepts it |
| Message.NumberOf | logger/verifier.py:39-46 | a JSON number reads as itself, `true`/`false` as 1/0, and any other value has no numeric reading |
| Signer.ComputeHmac | security/signer.py:7-15 | the MAC of the message without its signature, as a lower-case hex digest; `ComputeHmacDependsOnUnsignedPart` states its property |
| Signer.ComputeHmacDependsOnUnsignedPart | security/signer.py:7-15 | two messages that agree on every key other than `signature` get the same MAC |
| Signer.SignMessage | security/signer.py:17-20 | the signed copy has the message's keys plus `signature`, keeps every other field, and its `signature` is the MAC of the message |
| Signer.VerifyLocally | security/signer.py:22-26 | false when there is no `signature` key; when true, the signature equals the recomputed MAC |
| Signer.SignKeepsUnsignedPart | security/signer.py:7-20 | signing does not change the part of the message that the MAC covers |
| Signer.SignThenVerify | security/signer.py:17-26 | round trip: every signed message verifies |
| Signer.SignIdempotent | security/signer.py:7-20 | signing a signed message again gives the same message |
| Signer.ForeignSignatureRejected | security/signer.py:22-26 | a message carrying another message's signature fails verification whenever the two differ outside `signature`, unless their unsigned parts collide under the MAC |
| Signer.TamperingDetected | security/test_signer.py:22-24 | changing or adding any non-signature field of a signed message makes verification fail, unless the tampered and original unsigned parts collide under the MAC |
| Verifier.RecomputeHmac | logger/verifier.py:10-19 | the MAC over every field except `signature`; `RecomputeHmacMatchesSigner` states its property |
| Verifier.RecomputeHmacMatchesSigner | logger/verifier.py:10-19 | the logger's recomputed MAC is the MAC the signer attaches |
| Verifier.RecomputeHmacIgnoresSignature | logger/verifier.py:12-13 | two messages that differ only in `signature` get the same recomputed MAC |
| Verifier.FirstMissing | logger/verifier.py:28-31 | None exactly when every listed field is present; otherwise the named field is absent and every field before it in the list is present |
| Verifier.HasRequired | logger/verifier.py:28-31 | when all required fields are present, so are `sensor_id`, `timestamp`, `sequence_num` and `signature` |
| Verifier.Verify | logger/verifier.py:22-51 | acceptance implies: all fields present; signature verifies; the string sensor id and the sequence number's numeric reading are carried in the verdict; the timestamp's age is in [0, 10]; the sequence number is new or above the stored one |
| Verifier.Record | logger/verifier.py:49-51 | a rejection leaves the table unchanged; an acceptance sets exactly the sensor's entry to the sequence number and keeps all other entries |
| Verifier.MissingFieldRejectedFirst | logger/verifier.py:28-31 | a message whose first missing required field, in list order, is `f` is rejected as missing `f`, whatever else it holds |
| Verifier.ForgedRejected | logger/verifier.py:33-36 | a message with every field whose signature is not its MAC is rejected for its signature, whatever its timestamp and sequence number |
| Verifier.StaleRejected | logger/verifier.py:38-41 | a correctly signed message older than 10 s or from the future is rejected as stale with its age, before replay protection |
| Verifier.ReplayRejected | logger/verifier.py:43-47 | a signed, fresh message whose sequence number is at most the stored one for its sensor is rejected as a replay |
| Verifier.SignedEventAccepted | logger/verifier.py:22-51 | a message with the other five required fields, signed by the signer, fresh, and with a new or higher sequence number, is accepted |
| Verifier.RecordMovesForward | logger/verifier.py:43-51 | no table entry is removed or decreased, and an acceptance strictly raises its sensor's entry |
| Verifier.ResubmissionRejected | logger/verifier.py:43-51 | once a message is accepted, the same message is rejected at any later time |
| Verifier.ReplayAppend | logger/verifier.py:7 | verifying two series one after the other leaves the same table as verifying their concatenation |
| Verifier.ReplayMovesForward | logger/verifier.py:43-51 | over any series of deliveries, no sensor leaves the table and no entry decreases |
| Verifier.AcceptedSequencesIncrease | logger/verifier.py:43-51 | among the accepted messages of one sensor in a series, sequence numbers strictly increase |
| Verifier.FreshAndNewAsWritten | logger/verifier.py:38-47 | the freshness and replay tests as written, on floats with NaN and infinities; on finite numbers, passes exactly when the age is in [0, 10] and the sequence number is new or above the stored one |
| Verifier.NaNDefeatsReplayProtection | logger/verifier.py:38-47 | as written, a NaN timestamp and sequence number pass at any time, and again after NaN is stored |
| Verifier.FreshAndNew | logger/verifier.py:38-47 | the intended tests: passing implies finite numbers, an age in [0, 10], and a new or higher sequence number |
| Verifier.FreshAndNewRejectsResubmission | logger/verifier.py:43-51 | under the intended tests, a message that passed and was recorded fails when resubmitted at any later time |
| Verifier.VerifyIsFreshAndNew | logger/verifier.py:38-47 | for a correctly signed message with numeric fields, `Verify` accepts exactly when the intended tests pass against the stored entry |
| Verifier.LogVerifier.constructor | logger/verifier.py:7 | the table starts empty |
| Verifier.LogVerifier.VerifyMessage | logger/verifier.py:22-51 | returns `(true, None)` on acceptance and `(false, reason)` on rejection, per `Verify`; the table afterwards is `Record` of the verdict |
| ObjectTracking.Append | sensors/object_tracker.py:102 | the window grows by one up to 5 entries and ends with the new reading |
| ObjectTracking.AppendKeepsNewest | sensors/object_tracker.py:102 | the window is the old one plus the new reading; when 5 were held, the oldest is evicted first |
| ObjectTracking.AppendKeepsPlausible | sensors/object_tracker.py:94-102 | appending a plausible reading to a window of plausible readings gives a window of plausible readings |
| ObjectTracking.WindowVelocity | sensors/object_tracker.py:138-156 | velocity is 0 with fewer than two readings, or when the oldest and newest readings have the same timestamp |
| ObjectTracking.WindowVelocityCoversWindow | sensors/object_tracker.py:147-156 | velocity times the elapsed time between the oldest and newest readings is the distance change between them |
| ObjectTracking.VelocitySign | sensors/object_tracker.py:138-156 | when time moves forward across the window, velocity is negative exactly when the object came closer, and zero exactly when the distance is unchanged |
| ObjectTracking.TimeToCollision | sensors/object_tracker.py:158-175 | defined exactly when the velocity is at most -1 cm/s; positive for a positive distance |
| ObjectTracking.TimeToCollisionCoversDistance | sensors/object_tracker.py:168-175 | time-to-collision times the closing speed equals the distance |
| ObjectTracking.Tier | sensors/object_tracker.py:200-231 | the tier before hysteresis; its properties are stated by `TierThresholds` and the monotonicity lemmas |
| ObjectTracking.TierReasons | sensors/object_tracker.py:200-231 | the reasons for the chosen tier; `TierReasonsIffTier` states its property |
| ObjectTracking.Held | sensors/object_tracker.py:233-246 | the tier after hysteresis; the hysteresis lemmas state its properties |
| ObjectTracking.FinalReasons | sensors/object_tracker.py:191-251 | the reasons reported after hysteresis; `FinalSeverityIffReasons` states its property |
| ObjectTracking.TierThresholds | sensors/object_tracker.py:200-231 | closer than 15 cm is critical; closer than 40 cm is warning or critical; faster than 80 cm/s is critical; caution only for approach speeds in (15, 40] cm/s beyond 40 cm with no TTC under 3 s |
| ObjectTracking.TierMonotoneInDistance | sensors/object_tracker.py:200-231 | at the same velocity, a closer object never gets a lower tier |
| ObjectTracking.TierMonotoneInVelocity | sensors/object_tracker.py:200-231 | at the same distance, a faster approach never gets a lower tier |
| ObjectTracking.TierReasonsIffTier | sensors/object_tracker.py:200-231 | before hysteresis, the reason list is empty exactly when no tier is chosen |
| ObjectTracking.HysteresisNeverEscalates | sensors/object_tracker.py:233-246 | the final tier is the computed tier or the prior tier; it is never below the computed tier and never above both |
| ObjectTracking.CriticalHysteresisZone | sensors/object_tracker.py:236-240 | after a critical alert, the tier stays critical exactly while critical is computed or the object is within 20 cm; a held critical carries the single hysteresis reason |
| ObjectTracking.WarningHysteresisZone | sensors/object_tracker.py:242-246 | after a warning with nothing computed, the warning is held exactly within 48 cm, with one reason; a computed caution replaces the warning |
| ObjectTracking.FinalSeverityIffReasons | sensors/object_tracker.py:191-251 | after hysteresis, the severity is None exactly when the reason list is empty |
| ObjectTracking.RapidApproachIsCritical | sensors/object_tracker.py:200-211 | a window closing faster than 80 cm/s is critical, whatever the prior alert |
| ObjectTracking.Step | sensors/object_tracker.py:70-134 | one `update` as a transition on the tracker state; the lemmas below state its properties |
| ObjectTracking.InitialInvariant | sensors/object_tracker.py:54-68 | the state set up by `__init__` satisfies the tracker invariant |
| ObjectTracking.StepKeepsInvariant | sensors/object_tracker.py:70-134 | every update preserves the invariant: at most 5 plausible readings, unconfirmed means no alert, velocity 0 and no TTC, confirmed means the cached velocity and TTC are those of the window |
| ObjectTracking.NoiseResets | sensors/object_tracker.py:94-96 | a reading of at most 0 or above 100 cm: nothing detected; count, alert, velocity and TTC cleared; window untouched |
| ObjectTracking.ValidReadingAppends | sensors/object_tracker.py:101-102 | a valid reading raises the count by one and appends exactly `(now, d)`, evicting the oldest only when 5 are held |
| ObjectTracking.Persistence | sensors/object_tracker.py:101-110 | confirmed exactly from the 3rd consecutive valid reading; an unconfirmed detection has no severity, velocity 0 and no TTC; below 3 valid readings there is no alert |
| ObjectTracking.AssessmentMatchesState | sensors/object_tracker.py:123-134 | the returned severity is the stored alert; a confirmed result has a severity exactly when it gives reasons, equal to the computed or the previous tier |
| ObjectTracking.ThreeReadingsConfirm | sensors/object_tracker.py:94-110 | from a fresh tracker: two valid readings stay unconfirmed, the third confirms with a 3-reading window, and a filtered reading then clears the count and the alert |
| ObjectTracking.ObjectTracker.constructor | sensors/object_tracker.py:54-68 | the fields hold the initial state, which satisfies the invariant |
| ObjectTracking.ObjectTracker.Update | sensors/object_tracker.py:70-134 | keeps the invariant; the new fields and the returned assessment are those of `Step` on the old fields |
| ObjectTracking.ObjectTracker.AssessSeverity | sensors/object_tracker.py:177-251 | returns the hysteresis-held tier for the cached velocity and TTC and its reasons, and stores that tier as the current alert |
| ObjectTracking.ObjectTracker.NoObject | sensors/object_tracker.py:253-266 | clears the alert, velocity and TTC; returns "not detected" with the noise reason |
| ObjectTracking.ObjectTracker.UnconfirmedObject | sensors/object_tracker.py:268-278 | detected, not confirmed, velocity 0, no TTC, no severity, one reason carrying the count and the 3 required |
| SensorMain.InstantVelocity | sensors/sensor_main.py:43-44 | 0 when there is no previous distance or it is 0; otherwise velocity times 0.5 s is the distance change |
| SensorMain.Trim | sensors/sensor_main.py:52-56 | a history is cut to its last 3 entries |
| SensorMain.TrimAppend | sensors/sensor_main.py:52-56 | trimming after every append keeps the same window as trimming once at the end |
| SensorMain.TrimIsWindow | sensors/sensor_main.py:52-56 | the trimmed history is the suffix starting 3 entries before the end, or the whole history |
| SensorMain.Any | sensors/sensor_main.py:77-86 | true exactly when some element satisfies the test |
| SensorMain.SensorCorrelator.constructor | sensors/sensor_main.py:31-35 | both histories start empty |
| SensorMain.SensorCorrelator.Update | sensors/sensor_main.py:37-58 | returns the velocity; each history gets the new entry last and is trimmed to 3; equal lengths are kept |
| SensorMain.SensorCorrelator.IsCorrelatedApproach | sensors/sensor_main.py:60-88 | false if either history is empty; otherwise true exactly when some stored velocity is below -10 cm/s and some camera result flags an approach (a missing flag counts as false) |
| SensorMain.BuildEvent | sensors/sensor_main.py:91-159 | sensor id is `pi_sensor_01`; sequence number, timestamp, distance, velocity, correlation flag and camera approach flag are echoed; the type is `normal` exactly when there are no reasons |
| SensorMain.EventTypePriority | sensors/sensor_main.py:105-143 | collision warning exactly when correlated and closer than 50 cm; distance alert exactly when not correlated and closer than 50 cm; from 50 cm on, the camera decides: approaching, then motion, then normal |
| SensorMain.FarEventIgnoresUltrasonic | sensors/sensor_main.py:129-143 | from 50 cm on, the event type does not depend on velocity or correlation |
| SensorMain.CollisionWarningReasons | sensors/sensor_main.py:112-118 | a collision warning lists the agreement first and the distance second, and lists the closing speed exactly when faster than 10 cm/s |
| SensorMain.ToMessage | sensors/sensor_main.py:145-159 | the posted object has exactly the five event keys and no signature, with string sensor id, numeric sequence number and numeric timestamp |
| SensorMain.BuiltEventAccepted | sensors/sensor_main.py:145-159 | every event the sensor builds, once signed, is accepted by the logger while fresh if its sequence number is above the stored one |
| SensorMain.ExistsInSuffix | sensors/sensor_main.py:77-86 | a test holds somewhere in the suffix from `lo` exactly when it holds at some index from `lo` on |
| SensorMain.WindowedClosing | sensors/sensor_main.py:77-80 | the correlator's ultrasonic window has a sample closing faster than 10 cm/s exactly when one of the last three ticks does |
| SensorMain.WindowedCamera | sensors/sensor_main.py:82-86 | the correlator's camera window flags an approach exactly when one of the last three ticks does |
| SensorMain.WindowedCorrelation | sensors/sensor_main.py:73-88 | the correlator's verdict after tick `i` is the correlation over ticks `i-2..i` of the run |
| SensorMain.StepExtendsRun | sensors/sensor_main.py:176-188 | one loop pass extends both windows by one tick of the run, and the event it builds is the run's event at that tick |
| SensorMain.Step | sensors/sensor_main.py:176-188 | updates the correlator's histories; the new previous distance is this tick's distance; the sequence number goes up by one; returns the event built from this tick's velocity and correlation |
| SensorMain.Run | sensors/sensor_main.py:162-188 | one event per tick: tick `i` gets sequence number `i + 1`, velocity against tick `i - 1`, and correlation over ticks `i-2..i` |

## Left out

- Hardware and sensing are not modelled: `sensors/ultrasonic.py` (GPIO echo timing) and `sensors/motion_camera.py` (OpenCV frame differencing). Each tick's distance and camera result are inputs.
  - `MotionDetector.detect()` returns a bool, but `build_event` reads dictionary keys from its result.
  - The camera result is therefore a record of optional fields, read with the defaults `.get` supplies.
- No vision "approach scorer" exists in the code. `object_approaching` and `approach_confidence` are inputs.
- Printing, terminal markers, `requests.post` to the signer, `time.sleep`, the Flask services (`security/signer_server.py`, `logger/dashboard.py`), SQLite storage (`logger/storage.py`) and the attack client are I/O. They are not modelled.
- `time.time()` is replaced by `now` parameters: `ObjectTracker.update`, `build_event`, `verify_message`.
- SensorMain.Run: models `main`'s `while True` over a finite sequence of ticks.
- HMAC-SHA256 and `json.dumps` are uninterpreted, passed in as `Primitives`. SHA-256 and the JSON text are not modelled.
- Signer.TamperingDetected and Signer.ForeignSignatureRejected: require `NoCollision` for the two unsigned objects compared, meaning the tampered object and the original do not share a MAC. Real HMAC does not rule out such a collision; it only makes one infeasible to find.
- `round(…, 2)` is not modelled: tracker distance, velocity and TTC (sensors/object_tracker.py:129-131), and event velocity (sensors/sensor_main.py:150). Values are exact reals.
- Reason texts are f-strings in the source. Here they are tags carrying the numbers they report. ToMessage takes the wording as a `format` parameter.
- JSON numbers are finite reals, with no int/float distinction. `true` and `false` count as 1 and 0 wherever Python does arithmetic or comparisons on them (timestamp, sequence number).
- Verifier.Verify, Verifier.ResubmissionRejected, Verifier.AcceptedSequencesIncrease and Verifier.RecordMovesForward: hold for finite numbers only. Python's `json.loads` also accepts `NaN` and `Infinity`. In the source, a NaN timestamp passes the freshness check and a NaN sequence number passes replay protection every time (see Findings).
- Verifier.Verify: a TypeError in the source becomes a `Malformed(field)` rejection, which leaves the table unchanged as the exception does. The cases are:
  - a signature that is not a string, or holds a non-ASCII character (`hmac.compare_digest` refuses both);
  - a timestamp that is neither a number nor a boolean;
  - a non-string sensor id;
  - a sequence number that is neither a number nor a boolean.
- Verifier.Verify: also rejects non-string sensor ids and non-numeric sequence numbers in cases the source accepts. Python would store any hashable sensor id, and any sequence number for a sensor not yet in the table.
- Signer.VerifyLocally: returns false for a signature that is not a string or holds a non-ASCII character, where `hmac.compare_digest` raises.
- The module-level `sequence_num` in sensors/sensor_main.py:21 and 103 is never updated, so it is not modelled. The same goes for `LOOP_INTERVAL` in sensors/object_tracker.py:38, which the tracker never uses.
- `main` never uses `ObjectTracker`. The tracker is modelled on its own, as in the source.
- A filtered reading does not reset `object_confirmed` in the source (sensors/object_tracker.py:94-96, 253-266). The model keeps that. Only the returned assessment says "not confirmed".

## Findings

| source | as written | input that shows it | evidently intended | confidence | as-written member | corrected member |
|---|---|---|---|---|---|---|
| logger/verifier.py:38-47 | freshness and replay checks written as `age > W or age < 0` and `seq <= last`, both false when a side is NaN | a correctly signed message with `"timestamp": NaN, "sequence_num": NaN`, which `json.loads` accepts: it is accepted, NaN is stored, and the same message is accepted again | refuse non-finite timestamps and sequence numbers, so that a recorded message can never pass again | high (reasoned from IEEE comparison semantics; not executed) | Verifier.NaNDefeatsReplayProtection | Verifier.FreshAndNewRejectsResubmission |
