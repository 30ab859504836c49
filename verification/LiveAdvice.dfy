/** When advice stands: the machine's decision, told from what its calls have reported. */
module LiveAdvice {
  import opened Common
  import opened LiveMachine
  import opened LiveRuns

  /** A call of the machine and what it reported (None: the call raised, or reports nothing). */
  datatype Call = Call(op: Op, event: Option<Event>)

  /** What the first `n` calls of a run reported. */
  function Told(g: Setting, m: Machine, ops: seq<Op>, n: nat): seq<Call>
    requires n <= |ops|
  {
    seq(n, i requires 0 <= i < n => Call(ops[i], EventOf(g, m, ops, i)))
  }

  lemma ToldStep(g: Setting, m: Machine, ops: seq<Op>, n: nat)
    requires n < |ops|
    ensures Told(g, m, ops, n + 1) == Told(g, m, ops, n) + [Call(ops[n], EventOf(g, m, ops, n))]
  {
    hide EventOf;
  }

  /** The call reported that its record came too late, or raised. */
  predicate PassedOver(c: Call) {
    c.op.Accept? && (c.event.None? || c.event.value.status == REJECTED_STALE)
  }

  predicate Announced(c: Call, d: Decision) {
    Announces(c.event) && c.event.value.decision == Some(d)
  }

  /** Calls that announced just this decision. */
  function Announcing(d: Decision): Call -> bool {
    (c: Call) => Announced(c, d)
  }

  // ----- What was said and still stands -----

  /** `says` holds of item `k`, and `passes` of every later one. */
  ghost predicate StandsSince<T>(h: seq<T>, says: T -> bool, passes: T -> bool, k: nat) {
    k < |h| && says(h[k]) && forall j :: k < j < |h| ==> passes(h[j])
  }

  ghost predicate Stands<T>(h: seq<T>, says: T -> bool, passes: T -> bool) {
    exists k: nat :: StandsSince(h, says, passes, k)
  }

  lemma StandsStep<T>(h: seq<T>, c: T, says: T -> bool, passes: T -> bool)
    ensures Stands(h + [c], says, passes) <==> says(c) || (passes(c) && Stands(h, says, passes))
  {
    if k: nat :| StandsSince(h + [c], says, passes, k) {
      if k < |h| {
        assert (h + [c])[|h|] == c;
        assert forall j :: k <= j < |h| ==> (h + [c])[j] == h[j];
        assert StandsSince(h, says, passes, k);
      }
    }
    if says(c) {
      assert StandsSince(h + [c], says, passes, |h|);
    }
    if passes(c) && Stands(h, says, passes) {
      var k: nat :| StandsSince(h, says, passes, k);
      assert StandsSince(h + [c], says, passes, k);
    }
  }

  /** What one call does to the decision. */
  lemma StepDecides(g: Setting, m: Machine, op: Op)
    requires Consistent(g.compatibility, m.state)
    ensures var (t, e) := Apply(g, m, op);
            && (PassedOver(Call(op, e)) ==> t.state.decision == m.state.decision)
            && (Announces(e) ==> e.value.decision.Some? && t.state.decision == e.value.decision)
            && (!PassedOver(Call(op, e)) && !Announces(e) ==> t.state.decision.None?)
  {
  }

  /**
   * After any run of valid records and invalidations from a cleared machine: it holds the decision `d`
   * exactly if some call announced `d` and every call since was passed over. So an invalidation, a conflict,
   * an incompatible record, a malformed frame and a lost log each leave no decision.
   */
  lemma {:induction false} DecisionIff(g: Setting, m: Machine, ops: seq<Op>, n: nat, d: Decision)
    requires m.state == CLEARED && ValidOps(ops) && n <= |ops|
    ensures At(g, m, ops, n).state.decision == Some(d) <==> Stands(Told(g, m, ops, n), Announcing(d), PassedOver)
  {
    if n > 0 {
      DecisionIff(g, m, ops, n - 1, d);
      RunConsistent(g, m, ops, n - 1);
      StepDecides(g, At(g, m, ops, n - 1), ops[n - 1]);
      ToldStep(g, m, ops, n - 1);
      StandsStep(Told(g, m, ops, n - 1), Call(ops[n - 1], EventOf(g, m, ops, n - 1)), Announcing(d), PassedOver);
      hide Apply, Stands, Told, Consistent;
    }
  }
}
