/** The persisted form of the ingest machine and its fail-closed restoration. */
module LivePersist {
  import opened Common
  import opened LiveMachine
  import opened LiveRuns

  datatype Persisted = Persisted(
    stream: Option<string>, battle: int, generation: int,
    rawCaptureId: Option<Digest>, payloadDigest: Option<Digest>,
    lastType: Option<RecordType>, readyRecord: Option<Record>)

  function Persist(s: State): Persisted {
    Persisted(s.stream, s.battle, s.generation, s.rawCaptureId, s.payloadDigest, s.lastType,
              if s.decision.Some? then Some(s.decision.value.record) else None)
  }

  function Restore(c: Compatibility, p: Persisted): Result<State, string> {
    if p.stream == Some("") then Err("capture_stream_id must be a nonempty string")
    else if p.battle < -1 then Err("battle_sequence must be an integer >= -1")
    else if p.generation < -1 then Err("source_generation must be an integer >= -1")
    else if p.lastType == Some(STREAM_START) then Err("persisted last_record_type cannot be STREAM_START")
    else if p.stream.None?
            && (p.rawCaptureId.Some? || p.payloadDigest.Some? || p.lastType.Some?
                || (p.battle, p.generation) != (-1, -1)) then
      Err("empty stream cannot carry persisted decision identity")
    else if p.rawCaptureId.None? != p.payloadDigest.None? then
      Err("persisted current decision identity is incomplete")
    else
      match RestoreDecision(c, p)
      case Err(e) => Err(e)
      case Ok(decision) =>
        if p.lastType != Some(DECISION_READY) && decision.Some? then
          Err("persisted current READY contradicts last record type")
        else
          Ok(State(p.stream, p.battle, p.generation, p.rawCaptureId, p.payloadDigest, p.lastType, decision))
  }

  function RestoreDecision(c: Compatibility, p: Persisted): Result<Option<Decision>, string> {
    if p.readyRecord.None? then Ok(None)
    else
      var r := p.readyRecord.value;
      if !ValidRecord(r) then Err("persisted record is invalid")
      else if !r.Ready? then Err("persisted current_ready_record must be READY")
      else if !Compatible(r, c) then Err("persisted current READY is incompatible")
      else if p.stream.None? || p.rawCaptureId.None? || p.payloadDigest.None? then
        Err("persisted current READY identity is incomplete")
      else if RecordKey(r) != (p.battle, p.generation) then Err("persisted current READY generation mismatch")
      else
        var d := DecisionOf(p.stream.value, r);
        if Some(d.payloadDigest) != p.payloadDigest || Some(d.rawCaptureId) != p.rawCaptureId then
          Err("persisted current READY digest/identity mismatch")
        else Ok(Some(d))
  }

  /** A state survives being persisted and restored exactly when its parts agree. */
  lemma RoundTripIffConsistent(c: Compatibility, s: State)
    ensures Restore(c, Persist(s)) == Ok(s) <==> Consistent(c, s)
  {
  }

  /** Restoration never invents anything: what it accepts is consistent and persists to the same form. */
  lemma RestoreIsInverse(c: Compatibility, p: Persisted)
    requires Restore(c, p).Ok?
    ensures Persist(Restore(c, p).value) == p && Consistent(c, Restore(c, p).value)
  {
  }

  lemma {:induction false} RunSplits(g: Setting, m: Machine, ops: seq<Op>, more: seq<Op>, n: nat)
    requires n <= |more|
    ensures At(g, m, ops + more, |ops| + n) == At(g, At(g, m, ops, |ops|), more, n)
  {
    if n == 0 {
      RunPrefix(g, m, ops, more, |ops|);
    } else {
      RunSplits(g, m, ops, more, n - 1);
    }
  }

  lemma {:induction false} RunPrefix(g: Setting, m: Machine, ops: seq<Op>, more: seq<Op>, n: nat)
    requires n <= |ops|
    ensures At(g, m, ops + more, n) == At(g, m, ops, n)
  {
    if n > 0 {
      RunPrefix(g, m, ops, more, n - 1);
    }
  }

  /** A machine restarted after any run of valid records answers every later run as the original would have. */
  lemma RestartTransparent(g: Setting, ops: seq<Op>, more: seq<Op>, n: nat)
    requires ValidOps(ops) && n < |more|
    ensures var m := Machine(CLEARED, 0);
            var stopped := At(g, m, ops, |ops|);
            var restored := Restore(g.compatibility, Persist(stopped.state));
            && restored.Ok?
            && EventOf(g, Machine(restored.value, stopped.drawn), more, n) == EventOf(g, m, ops + more, |ops| + n)
  {
    var m := Machine(CLEARED, 0);
    RunConsistent(g, m, ops, |ops|);
    RoundTripIffConsistent(g.compatibility, At(g, m, ops, |ops|).state);
    RunSplits(g, m, ops, more, n);
  }
}
