/**
 * The logger's verification of incoming signed events (logger/verifier.py):
 * required fields, HMAC, timestamp freshness and per-sensor replay protection,
 * in that order. The module-level `seen_sequences` table is the state of a
 * `LogVerifier` object.
 */
module Verifier {
  import opened Wrappers
  import opened Message
  import Config
  import Signer

  /** The fields every message must carry, in the order they are checked. */
  const Required: seq<string> := ["sensor_id", "event_type", "payload", "timestamp", "sequence_num", "signature"]

  /** `recompute_hmac`: the MAC of every field but `signature`, computed as the signer does. */
  function RecomputeHmac(p: Primitives, message: Msg): string {
    var canonical := map k | k in message && k != SignatureField :: message[k];
    p.hmacSha256(Config.SecretKey, CanonicalJson(p, canonical))
  }

  /** The logger recomputes exactly the MAC the signer attaches. */
  lemma RecomputeHmacMatchesSigner(p: Primitives, m: Msg)
    ensures RecomputeHmac(p, m) == Signer.ComputeHmac(p, m)
  {
    var canonical := map k | k in m && k != SignatureField :: m[k];
    assert canonical == WithoutSignature(m);
  }

  /** Two messages that differ only in `signature` get the same MAC. */
  lemma RecomputeHmacIgnoresSignature(p: Primitives, m: Msg, sig: Value)
    ensures RecomputeHmac(p, m[SignatureField := sig]) == RecomputeHmac(p, m)
  {
    var signed := m[SignatureField := sig];
    var a := map k | k in signed && k != SignatureField :: signed[k];
    var b := map k | k in m && k != SignatureField :: m[k];
    assert a.Keys == b.Keys;
    assert a == b;
  }

  /** Why a message was refused. */
  datatype Rejection =
    | MissingField(field: string)
    | InvalidSignature
    | StaleTimestamp(age: real)
    | ReplayDetected(sequence: real, last: real)
      /** A field of the wrong JSON type; the source raises a TypeError there. */
    | Malformed(field: string)

  /** The outcome of one verification; an accepted message names the entry it records. */
  datatype Verdict = Accepted(sensorId: string, sequence: real) | Rejected(reason: Rejection)

  /** The first of `fields` that `m` lacks, scanning in list order. */
  function FirstMissing(fields: seq<string>, m: Msg): (r: Option<string>)
    ensures r.None? <==> forall i :: 0 <= i < |fields| ==> fields[i] in m
    ensures r.Some? ==> exists i :: 0 <= i < |fields| && fields[i] == r.value && r.value !in m
                                    && forall j :: 0 <= j < i ==> fields[j] in m
  {
    if fields == [] then None
    else if fields[0] !in m then Some(fields[0])
    else
      var r := FirstMissing(fields[1..], m);
      if r.Some? then
        var i :| 0 <= i < |fields| - 1 && fields[1..][i] == r.value && r.value !in m
                 && forall j :: 0 <= j < i ==> fields[1..][j] in m;
        assert fields[i + 1] == r.value;
        r
      else r
  }

  /** All required fields are present. */
  predicate HasRequired(m: Msg)
    ensures HasRequired(m) ==> "sensor_id" in m && "timestamp" in m && "sequence_num" in m && SignatureField in m
  {
    assert Required[0] == "sensor_id" && Required[3] == "timestamp";
    assert Required[4] == "sequence_num" && Required[5] == SignatureField;
    FirstMissing(Required, m).None?
  }

  /**
   * `verify_message` as a function of the table before the call: the verdict,
   * checking required fields, then the MAC, then the timestamp, then the sequence.
   */
  function Verify(seen: map<string, real>, m: Msg, now: real, p: Primitives): (v: Verdict)
    ensures v.Accepted? ==> HasRequired(m) && Signer.VerifyLocally(p, m)
    ensures v.Accepted? ==> && m["sensor_id"] == Str(v.sensorId)
                            && NumberOf(m["sequence_num"]) == Some(v.sequence)
                            && NumberOf(m["timestamp"]).Some?
                            && 0.0 <= now - NumberOf(m["timestamp"]).value <= Config.TimestampWindow
    ensures v.Accepted? ==> v.sensorId !in seen || v.sequence > seen[v.sensorId]
  {
    if !HasRequired(m) then Rejected(MissingField(FirstMissing(Required, m).value))
    else if !m[SignatureField].Str? || !IsAscii(m[SignatureField].s) then Rejected(Malformed(SignatureField))
    else if m[SignatureField].s != RecomputeHmac(p, m) then Rejected(InvalidSignature)
    else if NumberOf(m["timestamp"]).None? then Rejected(Malformed("timestamp"))
    else
      var age := now - NumberOf(m["timestamp"]).value;
      if age > Config.TimestampWindow || age < 0.0 then Rejected(StaleTimestamp(age))
      else if !m["sensor_id"].Str? then Rejected(Malformed("sensor_id"))
      else if NumberOf(m["sequence_num"]).None? then Rejected(Malformed("sequence_num"))
      else
        var sensorId, sequence := m["sensor_id"].s, NumberOf(m["sequence_num"]).value;
        if sensorId in seen && sequence <= seen[sensorId] then Rejected(ReplayDetected(sequence, seen[sensorId]))
        else
          RecomputeHmacMatchesSigner(p, m);
          Accepted(sensorId, sequence)
  }

  /** The table after a verdict: an acceptance records its sequence number, a rejection changes nothing. */
  function Record(seen: map<string, real>, v: Verdict): (after: map<string, real>)
    ensures v.Rejected? ==> after == seen
    ensures v.Accepted? ==> && after.Keys == seen.Keys + {v.sensorId}
                            && after[v.sensorId] == v.sequence
                            && forall s :: s in seen && s != v.sensorId ==> after[s] == seen[s]
  {
    if v.Accepted? then seen[v.sensorId := v.sequence] else seen
  }

  /** A message lacking a required field is refused, naming the first one missing in list order. */
  lemma MissingFieldRejectedFirst(seen: map<string, real>, m: Msg, now: real, p: Primitives, i: nat)
    requires i < |Required| && Required[i] !in m
    requires forall j :: 0 <= j < i ==> Required[j] in m
    ensures Verify(seen, m, now, p) == Rejected(MissingField(Required[i]))
  {
    var f := FirstMissing(Required, m);
    var k :| 0 <= k < |Required| && Required[k] == f.value && f.value !in m
             && forall j :: 0 <= j < k ==> Required[j] in m;
    assert k == i;
  }

  /** A message with all fields whose signature is not its MAC is refused, whatever its timestamp and sequence. */
  lemma ForgedRejected(seen: map<string, real>, m: Msg, now: real, p: Primitives)
    requires HasRequired(m)
    requires m[SignatureField] != Str(RecomputeHmac(p, m))
    ensures Verify(seen, m, now, p).Rejected?
    ensures Verify(seen, m, now, p).reason in {InvalidSignature, Malformed(SignatureField)}
  {
  }

  /** A correctly signed message outside the freshness window is refused, before its sequence number is looked at. */
  lemma StaleRejected(seen: map<string, real>, m: Msg, now: real, p: Primitives, t: real)
    requires HasRequired(m)
    requires m[SignatureField] == Str(RecomputeHmac(p, m)) && NumberOf(m["timestamp"]) == Some(t)
    requires now - t > Config.TimestampWindow || now - t < 0.0
    ensures Verify(seen, m, now, p) == Rejected(StaleTimestamp(now - t))
  {
    HexDigestIsAscii(RecomputeHmac(p, m));
  }

  /** A correctly signed, fresh message whose sequence number does not exceed the stored one is a replay. */
  lemma ReplayRejected(seen: map<string, real>, m: Msg, now: real, p: Primitives, sensor: string, n: real)
    requires HasRequired(m)
    requires m[SignatureField] == Str(RecomputeHmac(p, m))
    requires NumberOf(m["timestamp"]).Some? && 0.0 <= now - NumberOf(m["timestamp"]).value <= Config.TimestampWindow
    requires m["sensor_id"] == Str(sensor) && NumberOf(m["sequence_num"]) == Some(n)
    requires sensor in seen && n <= seen[sensor]
    ensures Verify(seen, m, now, p) == Rejected(ReplayDetected(n, seen[sensor]))
  {
    HexDigestIsAscii(RecomputeHmac(p, m));
  }

  /**
   * End to end: an event signed by the signer, carrying the other required
   * fields, a fresh timestamp and a new sequence number, is accepted.
   */
  lemma SignedEventAccepted(seen: map<string, real>, m: Msg, now: real, p: Primitives, sensor: string, n: real, t: real)
    requires "sensor_id" in m && "event_type" in m && "payload" in m && "timestamp" in m && "sequence_num" in m
    requires m["sensor_id"] == Str(sensor) && m["sequence_num"] == Num(n) && m["timestamp"] == Num(t)
    requires 0.0 <= now - t <= Config.TimestampWindow
    requires sensor !in seen || n > seen[sensor]
    ensures Verify(seen, Signer.SignMessage(p, m), now, p) == Accepted(sensor, n)
  {
    var signed := Signer.SignMessage(p, m);
    forall i | 0 <= i < |Required| ensures Required[i] in signed {
      assert i < 5 ==> Required[i] in m;
    }
    Signer.SignKeepsUnsignedPart(p, m);
    RecomputeHmacMatchesSigner(p, signed);
    HexDigestIsAscii(RecomputeHmac(p, signed));
  }

  /** A table entry never decreases, and the entry an acceptance writes strictly increases. */
  lemma RecordMovesForward(seen: map<string, real>, v: Verdict)
    requires v.Accepted? ==> v.sensorId !in seen || v.sequence > seen[v.sensorId]
    ensures forall s :: s in seen ==> s in Record(seen, v) && seen[s] <= Record(seen, v)[s]
    ensures v.Accepted? && v.sensorId in seen ==> seen[v.sensorId] < Record(seen, v)[v.sensorId]
  {
  }

  /** Resubmitting an accepted message is refused, at any later time. */
  lemma ResubmissionRejected(seen: map<string, real>, m: Msg, now: real, later: real, p: Primitives)
    requires Verify(seen, m, now, p).Accepted?
    ensures var after := Record(seen, Verify(seen, m, now, p));
            Verify(after, m, later, p).Rejected?
  {
    var v := Verify(seen, m, now, p);
    var after := Record(seen, v);
    assert v.sensorId in after && after[v.sensorId] == v.sequence;
  }

  /** One delivery of a message to the logger, at a given time. */
  datatype Delivery = Delivery(message: Msg, now: real)

  /** The table after verifying a series of deliveries in order. */
  function Replay(seen: map<string, real>, ds: seq<Delivery>, p: Primitives): map<string, real>
    decreases |ds|
  {
    if ds == [] then seen
    else Replay(Record(seen, Verify(seen, ds[0].message, ds[0].now, p)), ds[1..], p)
  }

  /** Verifying `a` then `b` leaves the table verifying `a + b` does. */
  lemma {:induction false} ReplayAppend(seen: map<string, real>, a: seq<Delivery>, b: seq<Delivery>, p: Primitives)
    ensures Replay(seen, a + b, p) == Replay(Replay(seen, a, p), b, p)
    decreases |a|
  {
    if a != [] {
      assert (a + b)[0] == a[0] && (a + b)[1..] == a[1..] + b;
      ReplayAppend(Record(seen, Verify(seen, a[0].message, a[0].now, p)), a[1..], b, p);
    } else {
      assert a + b == b;
    }
  }

  /** Over any series of deliveries, no sensor leaves the table and no entry decreases. */
  lemma {:induction false} ReplayMovesForward(seen: map<string, real>, ds: seq<Delivery>, p: Primitives)
    ensures forall s :: s in seen ==> s in Replay(seen, ds, p) && seen[s] <= Replay(seen, ds, p)[s]
    decreases |ds|
  {
    if ds != [] {
      var next := Record(seen, Verify(seen, ds[0].message, ds[0].now, p));
      RecordMovesForward(seen, Verify(seen, ds[0].message, ds[0].now, p));
      ReplayMovesForward(next, ds[1..], p);
    }
  }

  /** The verdict on delivery `i` of a series. */
  function VerdictAt(seen: map<string, real>, ds: seq<Delivery>, i: nat, p: Primitives): Verdict
    requires i < |ds|
  {
    Verify(Replay(seen, ds[..i], p), ds[i].message, ds[i].now, p)
  }

  /** Among the accepted messages of one sensor, sequence numbers strictly increase. */
  lemma AcceptedSequencesIncrease(seen: map<string, real>, ds: seq<Delivery>, p: Primitives, i: nat, j: nat)
    requires i < j < |ds|
    requires VerdictAt(seen, ds, i, p).Accepted? && VerdictAt(seen, ds, j, p).Accepted?
    requires VerdictAt(seen, ds, i, p).sensorId == VerdictAt(seen, ds, j, p).sensorId
    ensures VerdictAt(seen, ds, i, p).sequence < VerdictAt(seen, ds, j, p).sequence
  {
    var vi := VerdictAt(seen, ds, i, p);
    var before := Replay(seen, ds[..i], p);
    var middle := Record(before, vi);
    assert ds[..i + 1] == ds[..i] + [ds[i]];
    ReplayAppend(seen, ds[..i], [ds[i]], p);
    assert Replay(seen, ds[..i + 1], p) == middle by {
      assert [ds[i]][1..] == [];
    }
    assert ds[..j] == ds[..i + 1] + ds[i + 1..j];
    ReplayAppend(seen, ds[..i + 1], ds[i + 1..j], p);
    ReplayMovesForward(middle, ds[i + 1..j], p);
    assert vi.sensorId in middle && middle[vi.sensorId] == vi.sequence;
  }

  /*
   * Non-finite numbers. The logger parses requests with Python's `json.loads`,
   * which accepts `NaN`, `Infinity` and `-Infinity`; every comparison with NaN
   * is false.
   */

  /** A JSON number as Python parses it: a finite double, NaN or an infinity. */
  datatype Float = Finite(x: real) | NaN | PosInf | NegInf

  /** `now - t` in floating point, rounding left out. */
  function FloatMinus(now: real, t: Float): Float {
    match t
    case Finite(x) => Finite(now - x)
    case NaN => NaN
    case PosInf => NegInf
    case NegInf => PosInf
  }

  /** `a > r` against a finite bound; false for NaN. */
  predicate FloatAbove(a: Float, r: real) {
    match a
    case Finite(x) => x > r
    case PosInf => true
    case _ => false
  }

  /** `a < r` against a finite bound; false for NaN. */
  predicate FloatBelow(a: Float, r: real) {
    match a
    case Finite(x) => x < r
    case NegInf => true
    case _ => false
  }

  /** `a <= b`; false whenever either side is NaN. */
  predicate FloatAtMost(a: Float, b: Float) {
    if a.NaN? || b.NaN? then false
    else if a.NegInf? || b.PosInf? then true
    else if a.PosInf? || b.NegInf? then false
    else a.x <= b.x
  }

  /**
   * Steps 3 and 4 of `verify_message` as written, on floats: the message
   * passes unless its age is above the window or below zero, or the sensor
   * has a stored number the sequence number is at most. On finite numbers
   * this is the freshness and replay test of `Verify`.
   */
  function FreshAndNewAsWritten(stored: Option<Float>, timestamp: Float, sequence: Float, now: real): (ok: bool)
    ensures timestamp.Finite? && sequence.Finite? && (stored.Some? ==> stored.value.Finite?) ==>
              (ok <==> && 0.0 <= now - timestamp.x <= Config.TimestampWindow
                       && (stored.None? || sequence.x > stored.value.x))
  {
    var age := FloatMinus(now, timestamp);
    && !(FloatAbove(age, Config.TimestampWindow) || FloatBelow(age, 0.0))
    && !(stored.Some? && FloatAtMost(sequence, stored.value))
  }

  /**
   * A message whose timestamp and sequence number are both NaN passes at any
   * time, and passes again once NaN is stored for its sensor: both the
   * freshness check and the replay protection let it through.
   */
  lemma NaNDefeatsReplayProtection(now: real, later: real)
    ensures FreshAndNewAsWritten(None, NaN, NaN, now)
    ensures FreshAndNewAsWritten(Some(NaN), NaN, NaN, later)
  {
  }

  /**
   * Steps 3 and 4 as intended: a non-finite timestamp or sequence number is
   * refused, and finite ones are tested as written.
   */
  function FreshAndNew(stored: Option<real>, timestamp: Float, sequence: Float, now: real): (ok: bool)
    ensures ok ==> timestamp.Finite? && sequence.Finite?
    ensures ok ==> 0.0 <= now - timestamp.x <= Config.TimestampWindow
    ensures ok ==> stored.None? || sequence.x > stored.value
  {
    && timestamp.Finite? && sequence.Finite?
    && FreshAndNewAsWritten(if stored.Some? then Some(Finite(stored.value)) else None, timestamp, sequence, now)
  }

  /** Under the intended test, a message that passed once fails when resubmitted, at any later time. */
  lemma FreshAndNewRejectsResubmission(stored: Option<real>, timestamp: Float, sequence: Float, now: real, later: real)
    requires FreshAndNew(stored, timestamp, sequence, now)
    ensures !FreshAndNew(Some(sequence.x), timestamp, sequence, later)
  {
  }

  /**
   * `Verify` applies the intended test: for a correctly signed message with
   * all fields, a string sensor id and numeric timestamp and sequence number,
   * it accepts exactly when `FreshAndNew` passes against the stored entry.
   */
  lemma VerifyIsFreshAndNew(seen: map<string, real>, m: Msg, now: real, p: Primitives, sensor: string, t: real, n: real)
    requires HasRequired(m)
    requires m[SignatureField] == Str(RecomputeHmac(p, m))
    requires m["sensor_id"] == Str(sensor) && m["timestamp"] == Num(t) && m["sequence_num"] == Num(n)
    ensures Verify(seen, m, now, p).Accepted? <==>
            FreshAndNew(if sensor in seen then Some(seen[sensor]) else None, Finite(t), Finite(n), now)
  {
    HexDigestIsAscii(RecomputeHmac(p, m));
  }

  /** The logger's verifier with its table of the highest sequence number seen per sensor. */
  class LogVerifier {
    var seenSequences: map<string, real>

    constructor ()
      ensures seenSequences == map[]
    {
      seenSequences := map[];
    }

    /**
     * Returns `(true, None)` and records the sequence number on acceptance,
     * `(false, reason)` and leaves the table as it was on rejection.
     */
    method VerifyMessage(message: Msg, now: real, p: Primitives) returns (ok: bool, reason: Option<Rejection>)
      modifies this
      ensures var v := Verify(old(seenSequences), message, now, p);
              && ok == v.Accepted?
              && reason == (if v.Accepted? then None else Some(v.reason))
              && seenSequences == Record(old(seenSequences), v)
    {
      var i := 0;
      while i < |Required|
        invariant 0 <= i <= |Required|
        invariant forall j :: 0 <= j < i ==> Required[j] in message
      {
        if Required[i] !in message {
          MissingFieldRejectedFirst(seenSequences, message, now, p, i);
          return false, Some(MissingField(Required[i]));
        }
        i := i + 1;
      }
      assert HasRequired(message);

      var expected := RecomputeHmac(p, message);
      var signature := message[SignatureField];
      if !signature.Str? || !IsAscii(signature.s) {
        return false, Some(Malformed(SignatureField));
      }
      if expected != signature.s {
        return false, Some(InvalidSignature);
      }

      var timestamp := NumberOf(message["timestamp"]);
      if timestamp.None? {
        return false, Some(Malformed("timestamp"));
      }
      var age := now - timestamp.value;
      if age > Config.TimestampWindow || age < 0.0 {
        return false, Some(StaleTimestamp(age));
      }

      var sensorId, sequenceNum := message["sensor_id"], NumberOf(message["sequence_num"]);
      if !sensorId.Str? {
        return false, Some(Malformed("sensor_id"));
      }
      if sequenceNum.None? {
        return false, Some(Malformed("sequence_num"));
      }
      if sensorId.s in seenSequences && sequenceNum.value <= seenSequences[sensorId.s] {
        return false, Some(ReplayDetected(sequenceNum.value, seenSequences[sensorId.s]));
      }

      seenSequences := seenSequences[sensorId.s := sequenceNum.value];
      return true, None;
    }
  }
}
