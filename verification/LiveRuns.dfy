/** What holds over whole runs of the ingest machine. */
module LiveRuns {
  import opened Common
  import opened LiveMachine

  datatype Op = Accept(record: Record) | LoseReadiness | LoseLog

  /** A machine and how far its stream-ID supply has been drawn. */
  datatype Machine = Machine(state: State, drawn: nat)

  datatype Setting = Setting(compatibility: Compatibility, streamIds: nat -> string)

  function Apply(g: Setting, m: Machine, op: Op): (Machine, Option<Event>) {
    match op
    case Accept(r) =>
      var reply := AcceptStep(g.compatibility, m.state, g.streamIds(m.drawn), r);
      (Machine(reply.state, m.drawn + if reply.drew then 1 else 0), reply.event)
    case LoseReadiness => (m.(state := m.state.(decision := None)), None)
    case LoseLog => (m.(state := CLEARED), None)
  }

  /** The machine after the first `n` calls of a run that started at `m`. */
  function At(g: Setting, m: Machine, ops: seq<Op>, n: nat): Machine
    requires n <= |ops|
  {
    if n == 0 then m else Apply(g, At(g, m, ops, n - 1), ops[n - 1]).0
  }

  /** What call `n` of the run reported. */
  function EventOf(g: Setting, m: Machine, ops: seq<Op>, n: nat): Option<Event>
    requires n < |ops|
  {
    Apply(g, At(g, m, ops, n), ops[n]).1
  }

  // ----- The invariant -----

  /** The state's parts agree: this is exactly what a persisted state must satisfy to be restored. */
  ghost predicate Consistent(c: Compatibility, s: State) {
    && s.battle >= -1 && s.generation >= -1
    && (s.stream.None? ==> s == CLEARED)
    && (s.stream.Some? ==> s.stream.value != "")
    && (s.rawCaptureId.Some? <==> s.payloadDigest.Some?)
    && s.lastType != Some(STREAM_START)
    && (s.decision.Some? ==>
          && s.stream.Some? && s.lastType == Some(DECISION_READY)
          && s.decision.value.record.Ready? && ValidRecord(s.decision.value.record)
          && Compatible(s.decision.value.record, c)
          && s.decision.value == DecisionOf(s.stream.value, s.decision.value.record)
          && RecordKey(s.decision.value.record) == Key(s)
          && s.rawCaptureId == Some(s.decision.value.rawCaptureId)
          && s.payloadDigest == Some(s.decision.value.payloadDigest))
  }

  ghost predicate ValidOps(ops: seq<Op>) {
    forall i :: 0 <= i < |ops| && ops[i].Accept? ==> ValidRecord(ops[i].record)
  }

  lemma StepConsistent(g: Setting, m: Machine, op: Op)
    requires Consistent(g.compatibility, m.state)
    requires op.Accept? ==> ValidRecord(op.record)
    ensures Consistent(g.compatibility, Apply(g, m, op).0.state)
  {
  }

  lemma {:induction false} RunConsistent(g: Setting, m: Machine, ops: seq<Op>, n: nat)
    requires Consistent(g.compatibility, m.state) && ValidOps(ops) && n <= |ops|
    ensures Consistent(g.compatibility, At(g, m, ops, n).state)
  {
    if n > 0 {
      RunConsistent(g, m, ops, n - 1);
      StepConsistent(g, At(g, m, ops, n - 1), ops[n - 1]);
    }
  }

  // ----- One stream -----

  /** Call `op` ends the current stream (and perhaps starts another). */
  predicate EndsStream(g: Setting, m: Machine, op: Op) {
    || op.LoseLog?
    || (op.Accept? && op.record.StreamStart?
        && !(Compatible(op.record, g.compatibility) && g.streamIds(m.drawn) == ""))
  }

  /** No call from `i` up to but not including `j` ends the stream. */
  ghost predicate SameStream(g: Setting, m: Machine, ops: seq<Op>, i: nat, j: nat)
    requires j <= |ops|
  {
    forall k :: i <= k < j ==> !EndsStream(g, At(g, m, ops, k), ops[k])
  }

  /** `t` is `s` later in one stream: a newer key, or the same key with its identity kept or dropped for good. */
  ghost predicate Later(s: State, t: State) {
    || KeyLess(Key(s), Key(t))
    || (&& Key(s) == Key(t)
        && ((t.rawCaptureId == s.rawCaptureId && t.payloadDigest == s.payloadDigest)
            || (t.rawCaptureId.None? && t.payloadDigest.None?)))
  }

  lemma StepLater(g: Setting, m: Machine, op: Op)
    requires !EndsStream(g, m, op)
    ensures Later(m.state, Apply(g, m, op).0.state)
  {
  }

  lemma {:induction false} RunLater(g: Setting, m: Machine, ops: seq<Op>, i: nat, j: nat)
    requires i <= j <= |ops| && SameStream(g, m, ops, i, j)
    ensures Later(At(g, m, ops, i).state, At(g, m, ops, j).state)
    decreases j
  {
    hide Apply;
    if i < j {
      RunLater(g, m, ops, i, j - 1);
      StepLater(g, At(g, m, ops, j - 1), ops[j - 1]);
    }
  }

  /** Event `e` announces a usable decision. */
  predicate Announces(e: Option<Event>) {
    e.Some? && (e.value.status == READY || e.value.status == DUPLICATE)
  }

  predicate HasStatus(e: Option<Event>, status: Status) {
    e.Some? && e.value.status == status
  }

  lemma StepAnnounces(g: Setting, m: Machine, op: Op)
    requires Consistent(g.compatibility, m.state)
    requires Announces(Apply(g, m, op).1)
    ensures op.Accept? && op.record.Ready?
    ensures var s, e := Apply(g, m, op).0.state, Apply(g, m, op).1.value;
            && e.decision.Some? && s.decision == e.decision
            && Key(s) == RecordKey(op.record) == RecordKey(e.decision.value.record)
            && s.rawCaptureId == Some(e.decision.value.rawCaptureId)
            && s.payloadDigest == Some(e.decision.value.payloadDigest)
            && (e.status == READY ==> KeyLess(Key(m.state), Key(s)))
            && (e.status == DUPLICATE ==>
                  && Key(s) == Key(m.state)
                  && s.rawCaptureId == m.state.rawCaptureId && s.payloadDigest == m.state.payloadDigest)
  {
  }

  /** Within one stream, READY keys strictly increase. */
  lemma ReadyKeysIncrease(g: Setting, m: Machine, ops: seq<Op>, i: nat, j: nat)
    requires Consistent(g.compatibility, m.state) && ValidOps(ops)
    requires i < j < |ops| && SameStream(g, m, ops, i + 1, j)
    requires HasStatus(EventOf(g, m, ops, i), READY) && HasStatus(EventOf(g, m, ops, j), READY)
    ensures ops[i].Accept? && ops[i].record.Ready? && ops[j].Accept? && ops[j].record.Ready?
    ensures KeyLess(RecordKey(ops[i].record), RecordKey(ops[j].record))
  {
    hide Apply;
    RunConsistent(g, m, ops, i);
    RunConsistent(g, m, ops, j);
    StepAnnounces(g, At(g, m, ops, i), ops[i]);
    StepAnnounces(g, At(g, m, ops, j), ops[j]);
    RunLater(g, m, ops, i + 1, j);
  }

  /** Within one stream, a key is only ever announced with one decision identity. */
  lemma OneIdentityPerKey(g: Setting, m: Machine, ops: seq<Op>, i: nat, j: nat)
    requires Consistent(g.compatibility, m.state) && ValidOps(ops)
    requires i < j < |ops| && SameStream(g, m, ops, i + 1, j)
    requires Announces(EventOf(g, m, ops, i)) && Announces(EventOf(g, m, ops, j))
    ensures var d, e := EventOf(g, m, ops, i).value.decision, EventOf(g, m, ops, j).value.decision;
            && d.Some? && e.Some? && d.value.record.Ready? && e.value.record.Ready?
            && (RecordKey(d.value.record) == RecordKey(e.value.record) ==>
                  d.value.rawCaptureId == e.value.rawCaptureId && d.value.payloadDigest == e.value.payloadDigest)
  {
    hide Apply;
    RunConsistent(g, m, ops, i);
    RunConsistent(g, m, ops, j);
    StepAnnounces(g, At(g, m, ops, i), ops[i]);
    StepAnnounces(g, At(g, m, ops, j), ops[j]);
    RunLater(g, m, ops, i + 1, j);
    RunConsistent(g, m, ops, i + 1);
    RunConsistent(g, m, ops, j + 1);
  }

  lemma StepConflicts(g: Setting, m: Machine, op: Op)
    requires HasStatus(Apply(g, m, op).1, REJECTED_CONFLICT)
    ensures op.Accept? && op.record.Ready?
    ensures var s := Apply(g, m, op).0.state;
            Key(s) == RecordKey(op.record) && s.rawCaptureId.None? && s.payloadDigest.None?
  {
  }

  /** A conflict on a key forbids announcing that key again before a new stream. */
  lemma ConflictPoisons(g: Setting, m: Machine, ops: seq<Op>, i: nat, j: nat)
    requires Consistent(g.compatibility, m.state) && ValidOps(ops)
    requires i < j < |ops| && SameStream(g, m, ops, i + 1, j)
    requires HasStatus(EventOf(g, m, ops, i), REJECTED_CONFLICT)
    requires ops[j].Accept? && ops[j].record.Ready?
    requires ops[i].Accept? && ops[i].record.Ready? && RecordKey(ops[j].record) == RecordKey(ops[i].record)
    ensures !Announces(EventOf(g, m, ops, j))
  {
    hide Apply;
    StepConflicts(g, At(g, m, ops, i), ops[i]);
    RunLater(g, m, ops, i + 1, j);
    RunConsistent(g, m, ops, j);
    if Announces(EventOf(g, m, ops, j)) {
      StepAnnounces(g, At(g, m, ops, j), ops[j]);
    }
  }

  /** Step from `s` to `t` regains advice by repeating the identity that `base` established. */
  ghost predicate ReEmits(base: State, s: State, t: State, e: Option<Event>) {
    && HasStatus(e, DUPLICATE) && t.decision.Some?
    && Key(base) == Key(s) == Key(t)
    && base.rawCaptureId == Some(t.decision.value.rawCaptureId)
    && base.payloadDigest == Some(t.decision.value.payloadDigest)
  }

  /** Step to `t` gains advice for a key strictly newer than `base`'s. */
  ghost predicate ReadyNewer(base: State, t: State, e: Option<Event>) {
    HasStatus(e, READY) && KeyLess(Key(base), Key(t))
  }

  /** Call `k` regains advice: it re-emits the identity that `base` established, or is strictly newer. */
  ghost predicate Regains(g: Setting, m: Machine, ops: seq<Op>, base: State, k: nat)
    requires k < |ops|
  {
    var s, t, e := At(g, m, ops, k).state, At(g, m, ops, k + 1).state, EventOf(g, m, ops, k);
    ReEmits(base, s, t, e) || ReadyNewer(base, t, e)
  }

  lemma RegainsNow(g: Setting, m: Machine, ops: seq<Op>, i: nat)
    requires Consistent(g.compatibility, m.state) && ValidOps(ops) && i < |ops|
    requires At(g, m, ops, i).state.decision.None? && At(g, m, ops, i + 1).state.decision.Some?
    ensures Regains(g, m, ops, At(g, m, ops, i).state, i)
  {
    hide Apply;
    RunConsistent(g, m, ops, i);
    GainStep(g, At(g, m, ops, i), ops[i]);
  }

  lemma RegainsEarlier(g: Setting, m: Machine, ops: seq<Op>, i: nat, k: nat)
    requires Consistent(g.compatibility, m.state) && ValidOps(ops) && i < k < |ops|
    requires !EndsStream(g, At(g, m, ops, i), ops[i]) && At(g, m, ops, i + 1).state.decision.None?
    requires Regains(g, m, ops, At(g, m, ops, i + 1).state, k)
    ensures Regains(g, m, ops, At(g, m, ops, i).state, k)
  {
    hide Apply;
    RunConsistent(g, m, ops, i);
    StepLater(g, At(g, m, ops, i), ops[i]);
    QuietStep(g, At(g, m, ops, i), ops[i]);
    CarriesBack(At(g, m, ops, i).state, At(g, m, ops, i + 1).state,
                At(g, m, ops, k).state, At(g, m, ops, k + 1).state, EventOf(g, m, ops, k));
  }

  /** Cleared advice first returns at a call `k` that re-emits the established identity, or is strictly newer. */
  lemma {:induction false} AdviceReturns(g: Setting, m: Machine, ops: seq<Op>, i: nat, j: nat) returns (k: nat)
    requires Consistent(g.compatibility, m.state) && ValidOps(ops)
    requires i < j <= |ops| && SameStream(g, m, ops, i, j)
    requires At(g, m, ops, i).state.decision.None? && At(g, m, ops, j).state.decision.Some?
    ensures i <= k < j
    ensures forall n :: i <= n <= k ==> At(g, m, ops, n).state.decision.None?
    ensures Regains(g, m, ops, At(g, m, ops, i).state, k)
    decreases j - i
  {
    hide Apply, At, Regains;
    if At(g, m, ops, i + 1).state.decision.Some? {
      k := i;
      RegainsNow(g, m, ops, i);
    } else {
      k := AdviceReturns(g, m, ops, i + 1, j);
      RegainsEarlier(g, m, ops, i, k);
    }
  }

  /** What brings advice back relative to the next state does so relative to the one before it. */
  lemma CarriesBack(base: State, next: State, s: State, t: State, e: Option<Event>)
    requires Later(base, next)
    requires next.rawCaptureId.None?
          || (&& Key(next) == Key(base)
              && next.rawCaptureId == base.rawCaptureId && next.payloadDigest == base.payloadDigest)
    requires ReEmits(next, s, t, e) || ReadyNewer(next, t, e)
    ensures ReEmits(base, s, t, e) || ReadyNewer(base, t, e)
  {
  }

  /** A step that brings advice back repeats the established identity, or is strictly newer. */
  lemma GainStep(g: Setting, m: Machine, op: Op)
    requires Consistent(g.compatibility, m.state) && m.state.decision.None?
    requires Apply(g, m, op).0.state.decision.Some?
    ensures var (t, e) := Apply(g, m, op);
            ReEmits(m.state, m.state, t.state, e) || ReadyNewer(m.state, t.state, e)
  {
    StepAnnounces(g, m, op);
  }

  /** A step that leaves no advice either drops the identity or keeps key and identity as they were. */
  lemma QuietStep(g: Setting, m: Machine, op: Op)
    requires Consistent(g.compatibility, m.state) && !EndsStream(g, m, op)
    requires Apply(g, m, op).0.state.decision.None?
    ensures var t := Apply(g, m, op).0.state;
            t.rawCaptureId.None?
            || (&& Key(t) == Key(m.state)
                && t.rawCaptureId == m.state.rawCaptureId && t.payloadDigest == m.state.payloadDigest)
  {
  }

  /** With no stream open, nothing is announced before a call that starts one. */
  lemma {:induction false} SilentUntilStart(g: Setting, m: Machine, ops: seq<Op>, n: nat)
    requires m.state == CLEARED && n < |ops|
    requires forall k :: 0 <= k < n ==> !HasStatus(EventOf(g, m, ops, k), STREAM_STARTED)
    ensures At(g, m, ops, n).state == CLEARED && !Announces(EventOf(g, m, ops, n))
  {
    if n > 0 {
      SilentUntilStart(g, m, ops, n - 1);
      assert !HasStatus(EventOf(g, m, ops, n - 1), STREAM_STARTED);
    }
  }
}
