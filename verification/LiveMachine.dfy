/** The live-envelope ingest machine: compatibility, ordering, duplicate and invalidation policy. */
module LiveMachine {
  import opened Common
  import Ordering

  datatype Envelope = Envelope(
    companionVersion: string, runtimeGameVersion: string, rulesetGameVersion: string,
    rulesetFingerprint: string, mods: seq<string>, kernelIdentity: string)

  datatype Profile = PlayerLegal | OmniscientDebug

  datatype RecordType = STREAM_START | DECISION_READY | DECISION_INVALIDATED

  /** Producer records. `payload` stands for the payload's canonical JSON text. */
  datatype Record =
    | StreamStart(env: Envelope)
    | Invalidated(env: Envelope, battle: nat, generation: nat, reason: string)
    | Ready(env: Envelope, battle: nat, generation: nat, rawFingerprint: string, profile: Profile, payload: string)

  /** SHA-256 over distinct inputs, idealised: digests are equal only when their inputs are. */
  datatype Digest =
    | PayloadDigest(payload: string)
    | CaptureDigest(stream: string, battle: int, generation: int, rawFingerprint: string)

  datatype Compatibility = Compatibility(
    rulesetGameVersion: string, rulesetFingerprint: string, expectedMods: Option<seq<string>>,
    expectedCompanionVersion: Option<string>, expectedRuntimeGameVersion: Option<string>,
    expectedKernelIdentity: string, allowDebug: bool)

  datatype Decision = Decision(stream: string, rawCaptureId: Digest, payloadDigest: Digest, record: Record)

  datatype Status =
    STREAM_STARTED | READY | INVALIDATED | DUPLICATE | REJECTED_MALFORMED | REJECTED_INCOMPATIBLE
    | REJECTED_STALE | REJECTED_CONFLICT | STREAM_DISCONTINUITY

  datatype Event = Event(status: Status, decision: Option<Decision>, record: Option<Record>)

  datatype State = State(
    stream: Option<string>, battle: int, generation: int,
    rawCaptureId: Option<Digest>, payloadDigest: Option<Digest>,
    lastType: Option<RecordType>, decision: Option<Decision>)

  const CLEARED := State(None, -1, -1, None, None, None, None)

  // ----- Records -----

  predicate IsSha(s: string) {
    |s| == 64 && forall c :: c in s ==> '0' <= c <= '9' || 'a' <= c <= 'f'
  }

  /** Strict schema rules for a record, whoever built it. */
  predicate ValidRecord(r: Record) {
    && r.env.companionVersion != "" && r.env.runtimeGameVersion != "" && r.env.rulesetGameVersion != ""
    && IsSha(r.env.rulesetFingerprint)
    && (forall i :: 0 <= i < |r.env.mods| ==> r.env.mods[i] != "")
    && (forall i, j :: 0 <= i < j < |r.env.mods| ==> Ordering.LexLess(r.env.mods[i], r.env.mods[j]))
    && (r.Invalidated? ==> r.reason != "")
    && (r.Ready? ==> IsSha(r.rawFingerprint))
  }

  predicate Mismatch<T(==)>(expected: Option<T>, actual: T) {
    expected.Some? && expected.value != actual
  }

  predicate Compatible(r: Record, c: Compatibility) {
    && r.env.rulesetGameVersion == c.rulesetGameVersion
    && r.env.rulesetFingerprint == c.rulesetFingerprint
    && !Mismatch(c.expectedCompanionVersion, r.env.companionVersion)
    && !Mismatch(c.expectedRuntimeGameVersion, r.env.runtimeGameVersion)
    && !Mismatch(c.expectedMods, r.env.mods)
    && r.env.kernelIdentity == c.expectedKernelIdentity
    && (r.Ready? && r.profile == OmniscientDebug ==> c.allowDebug)
  }

  // ----- Keys -----

  predicate KeyLess(a: (int, int), b: (int, int)) {
    a.0 < b.0 || (a.0 == b.0 && a.1 < b.1)
  }

  function Key(s: State): (int, int) {
    (s.battle, s.generation)
  }

  function RecordKey(r: Record): (int, int)
    requires !r.StreamStart?
  {
    (r.battle, r.generation)
  }

  function CaptureId(stream: string, r: Record): Digest
    requires r.Ready?
  {
    CaptureDigest(stream, r.battle, r.generation, r.rawFingerprint)
  }

  function DecisionOf(stream: string, r: Record): Decision
    requires r.Ready?
  {
    Decision(stream, CaptureId(stream, r), PayloadDigest(r.payload), r)
  }

  // ----- One record -----

  /** The outcome of one call: `event` is None when the call raised, `drew` when a stream ID was drawn. */
  datatype Reply = Reply(state: State, event: Option<Event>, drew: bool)

  function Says(status: Status, r: Record): Option<Event> {
    Some(Event(status, None, Some(r)))
  }

  /** What accepting `r` does; `freshId` is what the stream-ID supply hands out if it is asked. */
  function AcceptStep(c: Compatibility, s: State, freshId: string, r: Record): Reply {
    if !Compatible(r, c) then
      Reply(if r.StreamStart? then CLEARED else s.(decision := None), Says(REJECTED_INCOMPATIBLE, r), false)
    else if r.StreamStart? then
      if freshId == "" then Reply(s, None, true)
      else Reply(CLEARED.(stream := Some(freshId)), Says(STREAM_STARTED, r), true)
    else if s.stream.None? || KeyLess(RecordKey(r), Key(s)) then
      Reply(s, Says(REJECTED_STALE, r), false)
    else if r.Invalidated? then
      Reply(Invalidate(s, r), Says(INVALIDATED, r), false)
    else if RecordKey(r) != Key(s) then
      var d := DecisionOf(s.stream.value, r);
      Reply(State(s.stream, r.battle, r.generation, Some(d.rawCaptureId), Some(d.payloadDigest),
                  Some(DECISION_READY), Some(d)),
            Some(Event(READY, Some(d), Some(r))), false)
    else if s.rawCaptureId.None? then
      Reply(s.(decision := None), Says(REJECTED_STALE, r), false)
    else if Some(CaptureId(s.stream.value, r)) != s.rawCaptureId
            || Some(PayloadDigest(r.payload)) != s.payloadDigest then
      Reply(s.(rawCaptureId := None, payloadDigest := None, decision := None), Says(REJECTED_CONFLICT, r), false)
    else
      var d := if s.decision.Some? then s.decision.value else DecisionOf(s.stream.value, r);
      Reply(s.(lastType := Some(DECISION_READY), decision := Some(d)),
            Some(Event(DUPLICATE, Some(d), Some(r))), false)
  }

  function Invalidate(s: State, r: Record): State
    requires r.Invalidated?
  {
    var newer := KeyLess(Key(s), RecordKey(r));
    State(s.stream, r.battle, r.generation,
          if newer then None else s.rawCaptureId, if newer then None else s.payloadDigest,
          Some(DECISION_INVALIDATED), None)
  }

  // ----- The machine as it is run -----

  class LiveIngestMachine {
    const compatibility: Compatibility
    const streamIds: nat -> string
    var drawn: nat
    var captureStreamId: Option<string>
    var battleSequence: int
    var sourceGeneration: int
    var currentRawCaptureId: Option<Digest>
    var currentPayloadDigest: Option<Digest>
    var lastRecordType: Option<RecordType>
    var currentDecision: Option<Decision>

    function Now(): State
      reads this
    {
      State(captureStreamId, battleSequence, sourceGeneration, currentRawCaptureId,
            currentPayloadDigest, lastRecordType, currentDecision)
    }

    constructor (compatibility: Compatibility, streamIds: nat -> string, drawn: nat, state: State)
      ensures this.compatibility == compatibility && this.streamIds == streamIds
      ensures this.drawn == drawn && Now() == state
    {
      this.compatibility, this.streamIds, this.drawn := compatibility, streamIds, drawn;
      captureStreamId, battleSequence, sourceGeneration := state.stream, state.battle, state.generation;
      currentRawCaptureId, currentPayloadDigest := state.rawCaptureId, state.payloadDigest;
      lastRecordType, currentDecision := state.lastType, state.decision;
    }

    method ClearStream()
      modifies this
      ensures Now() == CLEARED && drawn == old(drawn)
    {
      captureStreamId, battleSequence, sourceGeneration := None, -1, -1;
      currentRawCaptureId, currentPayloadDigest := None, None;
      lastRecordType, currentDecision := None, None;
    }

    method InvalidateForDiscontinuity()
      modifies this
      ensures Now() == CLEARED && drawn == old(drawn)
    {
      ClearStream();
    }

    method InvalidateCurrentReadiness()
      modifies `currentDecision
      ensures Now() == old(Now()).(decision := None)
    {
      currentDecision := None;
    }

    method Accept(r: Record) returns (event: Option<Event>)
      modifies this
      ensures var reply := AcceptStep(compatibility, old(Now()), streamIds(old(drawn)), r);
              && Now() == reply.state && event == reply.event
              && drawn == old(drawn) + (if reply.drew then 1 else 0)
    {
      if !Compatible(r, compatibility) {
        if r.StreamStart? {
          ClearStream();
        } else {
          InvalidateCurrentReadiness();
        }
        return Says(REJECTED_INCOMPATIBLE, r);
      }
      if r.StreamStart? {
        var id := streamIds(drawn);
        drawn := drawn + 1;
        if id == "" {
          return None;
        }
        ClearStream();
        captureStreamId := Some(id);
        return Says(STREAM_STARTED, r);
      }
      if captureStreamId.None? {
        return Says(REJECTED_STALE, r);
      }
      var key := RecordKey(r);
      var prior := (battleSequence, sourceGeneration);
      if KeyLess(key, prior) {
        return Says(REJECTED_STALE, r);
      }
      if r.Invalidated? {
        if KeyLess(prior, key) {
          currentRawCaptureId, currentPayloadDigest := None, None;
        }
        battleSequence, sourceGeneration := key.0, key.1;
        lastRecordType, currentDecision := Some(DECISION_INVALIDATED), None;
        return Says(INVALIDATED, r);
      }
      var payloadDigest := PayloadDigest(r.payload);
      var rawCaptureId := CaptureId(captureStreamId.value, r);
      if key == prior && currentRawCaptureId.None? {
        currentDecision := None;
        return Says(REJECTED_STALE, r);
      }
      if key == prior {
        if Some(rawCaptureId) != currentRawCaptureId {
          currentRawCaptureId, currentPayloadDigest, currentDecision := None, None, None;
          return Says(REJECTED_CONFLICT, r);
        }
        if Some(payloadDigest) != currentPayloadDigest {
          currentRawCaptureId, currentPayloadDigest, currentDecision := None, None, None;
          return Says(REJECTED_CONFLICT, r);
        }
        if currentDecision.None? {
          currentDecision := Some(Decision(captureStreamId.value, rawCaptureId, payloadDigest, r));
        }
        lastRecordType := Some(DECISION_READY);
        return Some(Event(DUPLICATE, currentDecision, Some(r)));
      }
      var decision := Decision(captureStreamId.value, rawCaptureId, payloadDigest, r);
      battleSequence, sourceGeneration := key.0, key.1;
      currentRawCaptureId, currentPayloadDigest := Some(rawCaptureId), Some(payloadDigest);
      lastRecordType, currentDecision := Some(DECISION_READY), Some(decision);
      return Some(Event(READY, Some(decision), Some(r)));
    }
  }
}
