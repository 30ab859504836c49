/** What the machine answers, told from what it has been asked and has answered before. */
module LiveHistory {
  import opened Common
  import opened LiveMachine
  import opened LiveRuns
  import opened LiveAdvice

  // ----- Reading a history -----

  predicate Draws(c: Call) {
    c.op.Accept? && c.op.record.StreamStart? && (c.event.None? || c.event.value.status == STREAM_STARTED)
  }

  predicate Opens(c: Call) {
    Draws(c) && c.event.Some?
  }

  /** The call loses the log, or its start record was answered, be it with a new stream or a rejection. */
  predicate Ends(c: Call) {
    c.op.LoseLog? || (c.op.Accept? && c.op.record.StreamStart? && c.event.Some?)
  }

  /** How many stream IDs the first `n` calls drew. */
  function Drawn(h: seq<Call>, n: nat): nat
    requires n <= |h|
  {
    if n == 0 then 0 else Drawn(h, n - 1) + if Draws(h[n - 1]) then 1 else 0
  }

  /** The stream ID that call `k` drew, or would draw; the first `first` were used up before. */
  function StreamName(g: Setting, first: nat, h: seq<Call>, k: nat): string
    requires k <= |h|
  {
    g.streamIds(first + Drawn(h, k))
  }

  /** Call `k` opened the stream that is open now. */
  ghost predicate OpenSince(h: seq<Call>, k: nat) {
    k < |h| && Opens(h[k]) && forall j :: k < j < |h| ==> !Ends(h[j])
  }

  /** The call moved the stream to its record's generation. */
  predicate Moves(c: Call) {
    c.op.Accept? && !c.op.record.StreamStart? && (HasStatus(c.event, READY) || HasStatus(c.event, INVALIDATED))
  }

  predicate Settles(c: Call) {
    c.op.Accept? && c.op.record.Ready? && HasStatus(c.event, READY)
  }

  predicate Unsettles(c: Call, key: (int, int)) {
    HasStatus(c.event, REJECTED_CONFLICT) || (Moves(c) && RecordKey(c.op.record) != key)
  }

  /** Every generation the stream has moved to since call `k` is older. */
  ghost predicate NewerThanAll(h: seq<Call>, k: nat, key: (int, int)) {
    forall j :: k < j < |h| && Moves(h[j]) ==> KeyLess(RecordKey(h[j].op.record), key)
  }

  /** No generation the stream has moved to since call `k` is newer. */
  ghost predicate OlderThanNone(h: seq<Call>, k: nat, key: (int, int)) {
    forall j :: k < j < |h| && Moves(h[j]) ==> !KeyLess(key, RecordKey(h[j].op.record))
  }

  /** Call `i` established the generation's identity, and no conflict or other generation has come since. */
  ghost predicate SettledBy(h: seq<Call>, k: nat, i: nat) {
    k < i < |h| && Settles(h[i]) && forall j :: i < j < |h| ==> !Unsettles(h[j], RecordKey(h[i].op.record))
  }

  /** Both records are of one generation, with one fingerprint and one payload. */
  predicate SameCapture(r: Record, q: Record)
    requires r.Ready? && q.Ready?
  {
    RecordKey(r) == RecordKey(q) && r.rawFingerprint == q.rawFingerprint && r.payload == q.payload
  }

  // ----- The state mirrors the history -----

  ghost predicate MovedTo(h: seq<Call>, k: nat, j: nat, key: (int, int)) {
    k < j < |h| && Moves(h[j]) && RecordKey(h[j].op.record) == key
  }

  ghost predicate KeyMirrored(h: seq<Call>, k: nat, key: (int, int)) {
    && OlderThanNone(h, k, key)
    && ((key == (-1, -1) && forall j :: k < j < |h| ==> !Moves(h[j])) || exists j :: MovedTo(h, k, j, key))
  }

  ghost predicate IdentifiedBy(s: State, r: Record) {
    && r.Ready? && s.stream.Some? && RecordKey(r) == Key(s)
    && s.rawCaptureId == Some(CaptureId(s.stream.value, r)) && s.payloadDigest == Some(PayloadDigest(r.payload))
  }

  ghost predicate IdentityMirrored(h: seq<Call>, k: nat, s: State) {
    && (s.rawCaptureId.Some? ==> exists i: nat :: SettledBy(h, k, i))
    && forall i: nat :: SettledBy(h, k, i) ==> IdentifiedBy(s, h[i].op.record)
  }

  ghost predicate Mirrors(g: Setting, first: nat, h: seq<Call>, k: nat, s: State) {
    && OpenSince(h, k)
    && s.stream == Some(StreamName(g, first, h, k))
    && KeyMirrored(h, k, Key(s))
    && IdentityMirrored(h, k, s)
  }

  ghost predicate Reflects(g: Setting, first: nat, h: seq<Call>, m: Machine) {
    && m.drawn == first + Drawn(h, |h|)
    && if m.state.stream.None? then forall k: nat :: !OpenSince(h, k)
       else exists k: nat :: Mirrors(g, first, h, k, m.state)
  }

  lemma {:induction false} DrawnPrefix(h: seq<Call>, c: Call, n: nat)
    requires n <= |h|
    ensures Drawn(h + [c], n) == Drawn(h, n)
  {
    if n > 0 {
      DrawnPrefix(h, c, n - 1);
    }
  }

  lemma NamePrefix(g: Setting, first: nat, h: seq<Call>, c: Call, k: nat)
    requires k <= |h|
    ensures StreamName(g, first, h + [c], k) == StreamName(g, first, h, k)
  {
    DrawnPrefix(h, c, k);
  }

  lemma OpenStep(h: seq<Call>, c: Call, k: nat)
    ensures k < |h| ==> (OpenSince(h + [c], k) <==> OpenSince(h, k) && !Ends(c))
    ensures k == |h| ==> (OpenSince(h + [c], k) <==> Opens(c))
  {
    hide Opens, Ends;
    if k < |h| && OpenSince(h + [c], k) {
      assert (h + [c])[|h|] == c;
      assert forall j :: k <= j < |h| ==> (h + [c])[j] == h[j];
    }
  }

  lemma KeyStays(h: seq<Call>, c: Call, k: nat, key: (int, int))
    requires KeyMirrored(h, k, key) && !Moves(c)
    ensures KeyMirrored(h + [c], k, key)
  {
    hide Moves;
    if j :| MovedTo(h, k, j, key) {
      assert MovedTo(h + [c], k, j, key);
    }
  }

  lemma KeyMoves(h: seq<Call>, c: Call, k: nat)
    requires k < |h| && Moves(c) && OlderThanNone(h, k, RecordKey(c.op.record))
    ensures KeyMirrored(h + [c], k, RecordKey(c.op.record))
  {
    assert MovedTo(h + [c], k, |h|, RecordKey(c.op.record));
  }

  /** The newest generation decides what is newer than, or older than, all the stream has moved to. */
  lemma KeyDecides(h: seq<Call>, k: nat, key: (int, int), other: (int, int))
    requires KeyMirrored(h, k, key) && other.0 >= 0 && other.1 >= 0
    ensures NewerThanAll(h, k, other) <==> KeyLess(key, other)
    ensures OlderThanNone(h, k, other) <==> !KeyLess(other, key)
  {
    hide Moves;
  }

  lemma SettledStep(h: seq<Call>, c: Call, k: nat, i: nat)
    requires k < |h|
    ensures i < |h| ==> (SettledBy(h + [c], k, i) <==> SettledBy(h, k, i) && !Unsettles(c, RecordKey(h[i].op.record)))
    ensures i >= |h| ==> (SettledBy(h + [c], k, i) <==> i == |h| && Settles(c))
  {
    hide Settles, Unsettles;
    if i < |h| && SettledBy(h + [c], k, i) {
      assert (h + [c])[|h|] == c;
      assert forall j :: k <= j < |h| ==> (h + [c])[j] == h[j];
    }
  }

  /** What a call that ends no stream does to an open one. */
  ghost predicate GoesOn(s: State, c: Call, t: State) {
    && t.stream == s.stream
    && (if Moves(c) then Key(t) == RecordKey(c.op.record) && !KeyLess(Key(t), Key(s)) else Key(t) == Key(s))
    && (Settles(c) ==> Key(t) != Key(s) && IdentifiedBy(t, c.op.record))
    && (!Settles(c) && Unsettles(c, Key(s)) ==> t.rawCaptureId.None?)
    && (!Settles(c) && !Unsettles(c, Key(s)) ==>
          Key(t) == Key(s) && t.rawCaptureId == s.rawCaptureId && t.payloadDigest == s.payloadDigest)
  }

  lemma StepGoesOn(g: Setting, m: Machine, op: Op)
    requires Consistent(g.compatibility, m.state) && m.state.stream.Some?
    requires op.Accept? ==> ValidRecord(op.record)
    ensures var (t, e) := Apply(g, m, op); !Ends(Call(op, e)) ==> GoesOn(m.state, Call(op, e), t.state)
  {
  }

  lemma KeyGoesOn(h: seq<Call>, c: Call, k: nat, s: State, t: State)
    requires k < |h| && GoesOn(s, c, t) && KeyMirrored(h, k, Key(s))
    ensures KeyMirrored(h + [c], k, Key(t))
  {
    if Moves(c) {
      KeyDecides(h, k, Key(s), Key(t));
      KeyMoves(h, c, k);
    } else {
      KeyStays(h, c, k, Key(s));
    }
  }

  lemma IdentityGoesOn(h: seq<Call>, c: Call, k: nat, s: State, t: State)
    requires k < |h| && GoesOn(s, c, t) && IdentityMirrored(h, k, s)
    ensures IdentityMirrored(h + [c], k, t)
  {
    forall i: nat ensures SettledBy(h + [c], k, i) ==> IdentifiedBy(t, (h + [c])[i].op.record) {
      SettledStep(h, c, k, i);
    }
    if t.rawCaptureId.Some? {
      if Settles(c) {
        SettledStep(h, c, k, |h|);
        assert SettledBy(h + [c], k, |h|);
      } else {
        var i: nat :| SettledBy(h, k, i);
        SettledStep(h, c, k, i);
        assert SettledBy(h + [c], k, i);
      }
    }
  }

  lemma NothingOpens(h: seq<Call>, c: Call)
    requires !Opens(c) && (Ends(c) || forall k: nat :: !OpenSince(h, k))
    ensures forall k: nat :: !OpenSince(h + [c], k)
  {
    forall k: nat ensures !OpenSince(h + [c], k) {
      OpenStep(h, c, k);
    }
  }

  lemma StartIsBlank(h: seq<Call>, k: nat, t: State)
    requires k + 1 == |h| && t.rawCaptureId.None?
    ensures KeyMirrored(h, k, (-1, -1)) && IdentityMirrored(h, k, t)
  {
  }

  /** A start record that is answered with a new stream. */
  lemma StartMirrors(g: Setting, first: nat, h: seq<Call>, c: Call, t: State)
    requires Opens(c) && t == CLEARED.(stream := Some(StreamName(g, first, h, |h|)))
    ensures Mirrors(g, first, h + [c], |h|, t)
  {
    OpenStep(h, c, |h|);
    NamePrefix(g, first, h, c, |h|);
    StartIsBlank(h + [c], |h|, t);
    hide StreamName, OpenSince, KeyMirrored, IdentityMirrored, Opens;
  }

  lemma StreamGoesOn(g: Setting, first: nat, h: seq<Call>, c: Call, k: nat, s: State, t: State)
    requires Mirrors(g, first, h, k, s) && !Ends(c) && GoesOn(s, c, t)
    ensures Mirrors(g, first, h + [c], k, t)
  {
    OpenStep(h, c, k);
    NamePrefix(g, first, h, c, k);
    KeyGoesOn(h, c, k, s, t);
    IdentityGoesOn(h, c, k, s, t);
  }

  /** What a call does when no stream stays open. */
  lemma StepWithoutStream(g: Setting, m: Machine, op: Op)
    requires Consistent(g.compatibility, m.state)
    ensures var (t, e) := Apply(g, m, op); var c := Call(op, e);
            && t.drawn == m.drawn + (if Draws(c) then 1 else 0)
            && (Opens(c) ==> t.state == CLEARED.(stream := Some(g.streamIds(m.drawn))))
            && (!Opens(c) && (Ends(c) || m.state.stream.None?) ==> t.state.stream.None?)
  {
  }

  lemma StepReflects(g: Setting, first: nat, h: seq<Call>, m: Machine, op: Op)
    requires Consistent(g.compatibility, m.state) && (op.Accept? ==> ValidRecord(op.record))
    requires Reflects(g, first, h, m)
    ensures var (t, e) := Apply(g, m, op); Reflects(g, first, h + [Call(op, e)], t)
  {
    var (t, e) := Apply(g, m, op);
    var c := Call(op, e);
    StepWithoutStream(g, m, op);
    DrawnPrefix(h, c, |h|);
    if Opens(c) {
      StartMirrors(g, first, h, c, t.state);
    } else if Ends(c) || m.state.stream.None? {
      NothingOpens(h, c);
    } else {
      StepGoesOn(g, m, op);
      var k: nat :| Mirrors(g, first, h, k, m.state);
      StreamGoesOn(g, first, h, c, k, m.state, t.state);
    }
    hide Apply, Mirrors, Consistent, OpenSince, GoesOn, Ends;
  }

  lemma {:induction false} RunReflects(g: Setting, m: Machine, ops: seq<Op>, n: nat)
    requires m.state == CLEARED && ValidOps(ops) && n <= |ops|
    ensures Reflects(g, m.drawn, Told(g, m, ops, n), At(g, m, ops, n))
  {
    if n > 0 {
      RunReflects(g, m, ops, n - 1);
      RunConsistent(g, m, ops, n - 1);
      ToldStep(g, m, ops, n - 1);
      StepReflects(g, m.drawn, Told(g, m, ops, n - 1), At(g, m, ops, n - 1), ops[n - 1]);
      hide Apply, Reflects, Told, Consistent;
    }
  }

  // ----- What is answered -----

  /** A stream is open, and the generation is newer than all it has moved to. */
  ghost predicate Newest(h: seq<Call>, key: (int, int)) {
    exists k: nat :: OpenSince(h, k) && NewerThanAll(h, k, key)
  }

  /** A stream is open, and it has moved to no generation newer than this one. */
  ghost predicate InTime(h: seq<Call>, key: (int, int)) {
    exists k: nat :: OpenSince(h, k) && OlderThanNone(h, k, key)
  }

  ghost predicate EstablishedAs(h: seq<Call>, k: nat, i: nat, r: Record) {
    OpenSince(h, k) && SettledBy(h, k, i) && h[i].op.record == r
  }

  /** The open stream's newest generation has the identity that `r` established. */
  ghost predicate Established(h: seq<Call>, r: Record) {
    exists k: nat, i: nat :: EstablishedAs(h, k, i, r)
  }

  ghost predicate Repeats(h: seq<Call>, r: Record)
    requires r.Ready?
  {
    exists q: Record :: Established(h, q) && q.Ready? && SameCapture(q, r)
  }

  ghost predicate Contradicts(h: seq<Call>, r: Record)
    requires r.Ready?
  {
    exists q: Record :: Established(h, q) && q.Ready? && RecordKey(q) == RecordKey(r) && !SameCapture(q, r)
  }

  /** What a compatible record that starts no stream is due after the history `h`. */
  ghost function Verdict(h: seq<Call>, r: Record): Status
    requires !r.StreamStart?
  {
    if r.Invalidated? then if InTime(h, RecordKey(r)) then INVALIDATED else REJECTED_STALE
    else if Newest(h, RecordKey(r)) then READY
    else if Repeats(h, r) then DUPLICATE
    else if Contradicts(h, r) then REJECTED_CONFLICT
    else REJECTED_STALE
  }

  /** `d` advises on the capture that `r` reports, in the stream that is open after `h`. */
  ghost predicate AdvisesOn(g: Setting, first: nat, h: seq<Call>, r: Record, d: Decision) {
    && r.Ready? && d.record.Ready? && SameCapture(d.record, r)
    && forall k: nat :: OpenSince(h, k) ==>
         var stream := StreamName(g, first, h, k);
         && d.stream == stream
         && d.rawCaptureId == CaptureDigest(stream, r.battle, r.generation, r.rawFingerprint)
         && d.payloadDigest == PayloadDigest(r.payload)
  }

  /** The answer names its record, and brings a decision on it exactly if it announces one. */
  ghost predicate AdviceTold(g: Setting, first: nat, h: seq<Call>, r: Record, e: Option<Event>) {
    e.Some? ==>
      && e.value.record == Some(r)
      && (e.value.decision.Some? <==> Announces(e))
      && (e.value.decision.Some? ==> AdvisesOn(g, first, h, r, e.value.decision.value))
      && (e.value.status == READY ==> e.value.decision.value.record == r)
  }

  lemma OpenOnce(h: seq<Call>, k: nat, j: nat)
    requires OpenSince(h, k) && OpenSince(h, j)
    ensures k == j
  {
  }

  lemma OrderTold(g: Setting, first: nat, h: seq<Call>, k: nat, s: State, r: Record)
    requires Mirrors(g, first, h, k, s) && !r.StreamStart?
    ensures Newest(h, RecordKey(r)) <==> KeyLess(Key(s), RecordKey(r))
    ensures InTime(h, RecordKey(r)) <==> !KeyLess(RecordKey(r), Key(s))
  {
    KeyDecides(h, k, Key(s), RecordKey(r));
    forall j: nat | OpenSince(h, j) ensures j == k {
      OpenOnce(h, k, j);
    }
    hide OpenSince, NewerThanAll, OlderThanNone, KeyMirrored, IdentityMirrored;
  }

  /** The identity the state holds is the one some established record gave it. */
  lemma IdentityTold(g: Setting, first: nat, h: seq<Call>, k: nat, s: State, r: Record)
    requires Mirrors(g, first, h, k, s)
    ensures Established(h, r) ==> IdentifiedBy(s, r)
    ensures s.rawCaptureId.Some? ==> exists q: Record :: Established(h, q)
  {
    hide KeyMirrored, OpenSince, IdentifiedBy, Unsettles;
    if Established(h, r) {
      var j: nat, i: nat :| EstablishedAs(h, j, i, r);
      OpenOnce(h, k, j);
    }
    if s.rawCaptureId.Some? {
      var i: nat :| SettledBy(h, k, i);
      assert EstablishedAs(h, k, i, h[i].op.record);
      assert Established(h, h[i].op.record);
    }
  }

  lemma CaptureTold(g: Setting, first: nat, h: seq<Call>, k: nat, s: State, r: Record)
    requires Mirrors(g, first, h, k, s) && r.Ready?
    ensures Repeats(h, r) <==> IdentifiedBy(s, r)
    ensures Contradicts(h, r) <==> s.rawCaptureId.Some? && Key(s) == RecordKey(r) && !IdentifiedBy(s, r)
  {
    hide Mirrors, Established;
    forall q: Record ensures Established(h, q) ==> IdentifiedBy(s, q) {
      IdentityTold(g, first, h, k, s, q);
    }
    IdentityTold(g, first, h, k, s, r);
    if s.rawCaptureId.Some? {
      var q: Record :| Established(h, q);
      assert IdentifiedBy(s, q);
      assert s.stream.Some?;
    }
  }

  // ----- The machine's answers -----

  /** The envelope with every expectation filled in. */
  function AsExpected(c: Compatibility, env: Envelope): Envelope {
    Envelope(
      if c.expectedCompanionVersion.Some? then c.expectedCompanionVersion.value else env.companionVersion,
      if c.expectedRuntimeGameVersion.Some? then c.expectedRuntimeGameVersion.value else env.runtimeGameVersion,
      c.rulesetGameVersion, c.rulesetFingerprint,
      if c.expectedMods.Some? then c.expectedMods.value else env.mods,
      c.expectedKernelIdentity)
  }

  /** The record is as expected, and is not an omniscient capture where only player knowledge is allowed. */
  predicate Meets(c: Compatibility, r: Record) {
    r.env == AsExpected(c, r.env) && !(r.Ready? && r.profile == OmniscientDebug && !c.allowDebug)
  }

  /** What the record `r` is answered after the history `h`, the first `first` stream IDs being used up before it. */
  ghost predicate Answered(g: Setting, first: nat, h: seq<Call>, r: Record, e: Option<Event>) {
    if !Meets(g.compatibility, r) then HasStatus(e, REJECTED_INCOMPATIBLE)
    else if r.StreamStart? then
      if StreamName(g, first, h, |h|) == "" then e.None? else HasStatus(e, STREAM_STARTED)
    else HasStatus(e, Verdict(h, r))
  }

  lemma StepAnswers(g: Setting, first: nat, h: seq<Call>, m: Machine, r: Record)
    requires Consistent(g.compatibility, m.state) && Reflects(g, first, h, m)
    ensures Answered(g, first, h, r, Apply(g, m, Accept(r)).1)
  {
    if Meets(g.compatibility, r) && !r.StreamStart? {
      if m.state.stream.None? {
        NothingIsDue(h, r);
      } else {
        var k: nat :| Mirrors(g, first, h, k, m.state);
        OrderTold(g, first, h, k, m.state, r);
        if r.Ready? {
          CaptureTold(g, first, h, k, m.state, r);
        }
      }
    }
    hide Newest, InTime, Repeats, Contradicts, Mirrors, Drawn;
  }

  lemma NothingIsDue(h: seq<Call>, r: Record)
    requires !r.StreamStart? && forall k: nat :: !OpenSince(h, k)
    ensures Verdict(h, r) == REJECTED_STALE
  {
    hide OpenSince, NewerThanAll, OlderThanNone, SettledBy;
  }

  lemma StepAdvises(g: Setting, first: nat, h: seq<Call>, m: Machine, r: Record)
    requires Consistent(g.compatibility, m.state) && Reflects(g, first, h, m)
    ensures AdviceTold(g, first, h, r, Apply(g, m, Accept(r)).1)
  {
    if m.state.stream.Some? {
      var k: nat :| Mirrors(g, first, h, k, m.state);
      forall j: nat | OpenSince(h, j) ensures j == k {
        OpenOnce(h, k, j);
      }
    }
    hide OpenSince, KeyMirrored, IdentityMirrored, StreamName, Compatible, ValidRecord;
  }

  /**
   * Every answer of the machine to a valid record, over any run from a cleared machine, is the one its
   * earlier answers call for; it names the record, and brings a decision exactly if it announces one.
   */
  lemma AnswersFollowHistory(g: Setting, m: Machine, ops: seq<Op>, n: nat)
    requires m.state == CLEARED && ValidOps(ops) && n < |ops| && ops[n].Accept?
    ensures Answered(g, m.drawn, Told(g, m, ops, n), ops[n].record, EventOf(g, m, ops, n))
    ensures AdviceTold(g, m.drawn, Told(g, m, ops, n), ops[n].record, EventOf(g, m, ops, n))
  {
    RunConsistent(g, m, ops, n);
    RunReflects(g, m, ops, n);
    StepAnswers(g, m.drawn, Told(g, m, ops, n), At(g, m, ops, n), ops[n].record);
    StepAdvises(g, m.drawn, Told(g, m, ops, n), At(g, m, ops, n), ops[n].record);
    hide Apply, Told, Answered, AdviceTold, Reflects, Consistent;
  }

  // ----- The last record type -----

  /** The call took its record as the stream's latest word: READY again or anew, or invalidated. */
  predicate Heeds(c: Call) {
    && c.op.Accept? && !c.op.record.StreamStart?
    && (Announces(c.event) || HasStatus(c.event, INVALIDATED))
  }

  /** Calls that made a READY record, or else an invalidation, the stream's latest word. */
  function Heeding(ready: bool): Call -> bool {
    (c: Call) => Heeds(c) && c.op.record.Ready? == ready
  }

  predicate Unheeded(c: Call) {
    !Heeds(c) && !Ends(c)
  }

  function TypeFor(ready: bool): Option<RecordType> {
    Some(if ready then DECISION_READY else DECISION_INVALIDATED)
  }

  lemma StepTypes(g: Setting, m: Machine, op: Op, ready: bool)
    requires Consistent(g.compatibility, m.state)
    ensures var (t, e) := Apply(g, m, op); var c := Call(op, e);
            t.state.lastType == TypeFor(ready)
            <==> Heeding(ready)(c) || (Unheeded(c) && m.state.lastType == TypeFor(ready))
  {
  }

  /** The last record type is that of the last record heeded since the stream was opened. */
  lemma {:induction false} LastTypeIff(g: Setting, m: Machine, ops: seq<Op>, n: nat, ready: bool)
    requires m.state == CLEARED && ValidOps(ops) && n <= |ops|
    ensures At(g, m, ops, n).state.lastType == TypeFor(ready) <==> Stands(Told(g, m, ops, n), Heeding(ready), Unheeded)
  {
    if n > 0 {
      LastTypeIff(g, m, ops, n - 1, ready);
      RunConsistent(g, m, ops, n - 1);
      StepTypes(g, At(g, m, ops, n - 1), ops[n - 1], ready);
      ToldStep(g, m, ops, n - 1);
      StandsStep(Told(g, m, ops, n - 1), Call(ops[n - 1], EventOf(g, m, ops, n - 1)), Heeding(ready), Unheeded);
      hide Apply, Stands, Told, Consistent, Heeding, Unheeded;
    }
  }
}
