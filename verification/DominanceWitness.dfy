/** Three feature records whose scores show that dominance is not transitive. */
module DominanceWitness {
  import opened Common
  import opened Dominance
  import opened MetricRanges
  import opened Reals
  import opened Scoring
  import opened Sums

  const NOTHING := ExactRange(0.0)

  /** An action that deals `damage`, risks the actor's life with probability `risk`, and does nothing else. */
  function Plain(id: string, damage: real, risk: real): Features {
    Features(
      id, ExactRange(damage), NOTHING, NOTHING, NOTHING, NOTHING, ExactRange(risk), NOTHING, NOTHING, NOTHING, NOTHING,
      NOTHING, NOTHING, NOTHING, NOTHING, NOTHING, NOTHING, NOTHING, NOTHING, NOTHING, NOTHING, 0, 0, 0,
      NOTHING, NOTHING, NOTHING)
  }

  const PLAIN_PROFILE := Profile(
    Weights(3.0, 0.0, 0.0, 0.0, 0.0, 0.0), Scales(1.0, 1.0, 1.0, 1.0, 1.0, 1.0, 1.0, 1.0, 1.0, 1.0, 1.0, 1.0),
    1.0, 0.0, 0.0, None)

  lemma {:induction false} LoneSum(vs: seq<MetricRange>, f: MetricRange -> real)
    requires vs != [] && forall i :: 0 < i < |vs| ==> f(vs[i]) == 0.0
    ensures Sum(vs, f) == f(vs[0])
  {
    if |vs| == 1 {
      assert vs == [vs[0]];
      SumOne(vs[0], f);
    } else {
      LoneSum(vs[..|vs| - 1], f);
    }
  }

  /** All ranges but the first are exactly 0, and the first is exactly `x`. */
  predicate Lone(vs: seq<MetricRange>, x: real) {
    vs != [] && vs[0] == ExactRange(x) && forall i :: 0 < i < |vs| ==> vs[i] == NOTHING
  }

  lemma LonePool(vs: seq<MetricRange>, x: real, n: real)
    requires Lone(vs, x) && n > 0.0
    ensures Pooled(vs, n) == Ok(ExactRange(x / n))
  {
    LoneSum(vs, Low(Raw));
    LoneSum(vs, High(Raw));
    LoneSum(vs, Low(Selection));
    LoneSum(vs, High(Selection));
    LoneSum(vs, Low(Epistemic));
    LoneSum(vs, High(Epistemic));
    LoneSum(vs, Expectation);
  }

  lemma ExactTerm(t: Term, x: real)
    requires t.metric == ExactRange(x) && t.factor >= 0.0 && t.scale > 0.0
    ensures EvaluateTerm(t) == Ok(ExactRange(Scaled(Times(x, t.factor), t.scale, t.direction)))
  {
    assert Multiply(t.metric, t.factor) == Ok(ExactRange(Times(x, t.factor)));
  }

  predicate IsZero(t: Term) {
    t.metric == NOTHING && t.factor >= 0.0 && t.scale > 0.0
  }

  lemma ZeroTerm(t: Term)
    requires IsZero(t)
    ensures EvaluateTerm(t) == Ok(NOTHING)
  {
    ExactTerm(t, 0.0);
    assert Times(0.0, t.factor) == 0.0;
    assert Times(t.direction, 0.0) / t.scale == 0.0;
  }

  /** Only the first term is not zero, and it comes out as `x`. */
  predicate LoneTerms(ts: seq<Term>, x: real) {
    ts != [] && EvaluateTerm(ts[0]) == Ok(ExactRange(x)) && forall i :: 0 < i < |ts| ==> IsZero(ts[i])
  }

  lemma {:induction false} LoneEvaluates(ts: seq<Term>, x: real)
    requires LoneTerms(ts, x)
    ensures EvaluateTerms(ts).Ok? && |EvaluateTerms(ts).value| == |ts| && Lone(EvaluateTerms(ts).value, x)
  {
    var front, last := ts[..|ts| - 1], ts[|ts| - 1];
    if front == [] {
      assert EvaluateTerms(front) == Ok([]);
    } else {
      LoneEvaluates(front, x);
      ZeroTerm(last);
    }
  }

  lemma LoneComponent(c: Component, x: real)
    requires LoneTerms(c.terms, x)
    ensures EvaluateComponent(c) == Ok(ExactRange(Times(x / |c.terms| as real, c.weight)))
  {
    LoneEvaluates(c.terms, x);
    LonePool(EvaluateTerms(c.terms).value, x, |c.terms| as real);
  }

  lemma ZeroComponent(c: Component)
    requires c.terms != [] && forall i :: 0 <= i < |c.terms| ==> IsZero(c.terms[i])
    ensures EvaluateComponent(c) == Ok(NOTHING)
  {
    ZeroTerm(c.terms[0]);
    LoneComponent(c, 0.0);
    assert Times(0.0 / |c.terms| as real, c.weight) == 0.0;
  }

  /** Only the first component is not zero, and it comes out as `x`. */
  predicate LoneComponents(cs: seq<Component>, x: real) {
    && cs != [] && EvaluateComponent(cs[0]) == Ok(ExactRange(x))
    && forall i :: 0 < i < |cs| ==> EvaluateComponent(cs[i]) == Ok(NOTHING)
  }

  lemma {:induction false} LoneComponentsEvaluate(cs: seq<Component>, x: real)
    requires LoneComponents(cs, x)
    ensures EvaluateComponents(cs).Ok? && Lone(EvaluateComponents(cs).value, x)
  {
    var front := cs[..|cs| - 1];
    if front == [] {
      assert EvaluateComponents(front) == Ok([]);
    } else {
      LoneComponentsEvaluate(front, x);
    }
  }

  /** A component of weight 3 whose three terms are one gain and two zeros is worth that gain. */
  lemma LoneGain(c: Component, x: real)
    requires |c.terms| == 3 && c.weight == 3.0 && -1.0 <= x <= 1.0
    requires c.terms[0] == Gain(ExactRange(x), 1.0) && IsZero(c.terms[1]) && IsZero(c.terms[2])
    ensures EvaluateComponent(c) == Ok(ExactRange(x))
  {
    ExactTerm(c.terms[0], x);
    LoneComponent(c, x);
    assert Times(x / 3.0, 3.0) == x;
  }

  lemma PlainFirst(id: string, damage: real, risk: real)
    requires -1.0 <= damage <= 1.0
    ensures EvaluateComponent(Components(Plain(id, damage, risk), PLAIN_PROFILE, 1.0, 1.0)[0]) == Ok(ExactRange(damage))
  {
    LoneGain(Components(Plain(id, damage, risk), PLAIN_PROFILE, 1.0, 1.0)[0], damage);
  }

  lemma PlainOthers(id: string, damage: real, risk: real, i: nat)
    ensures var cs := Components(Plain(id, damage, risk), PLAIN_PROFILE, 1.0, 1.0);
            0 < i < |cs| ==> EvaluateComponent(cs[i]) == Ok(NOTHING)
  {
    var cs := Components(Plain(id, damage, risk), PLAIN_PROFILE, 1.0, 1.0);
    if 0 < i < |cs| {
      ZeroComponent(cs[i]);
    }
  }

  lemma PlainComponents(id: string, damage: real, risk: real)
    requires -1.0 <= damage <= 1.0
    ensures LoneComponents(Components(Plain(id, damage, risk), PLAIN_PROFILE, 1.0, 1.0), damage)
  {
    PlainFirst(id, damage, risk);
    var cs := Components(Plain(id, damage, risk), PLAIN_PROFILE, 1.0, 1.0);
    forall i: nat | 0 < i < |cs| ensures EvaluateComponent(cs[i]) == Ok(NOTHING) {
      PlainOthers(id, damage, risk, i);
    }
  }

  /** A plain action is worth its damage and costs its risk. */
  lemma PlainScore(id: string, damage: real, risk: real)
    requires -1.0 <= damage <= 1.0
    ensures var r := Score(Plain(id, damage, risk), PLAIN_PROFILE, 1.0, 1.0);
            && r.Ok? && Reconciled(r.value)
            && r.value.tacticalRange == ExactRange(damage) && r.value.penalty == ExactRange(risk)
  {
    var f := Plain(id, damage, risk);
    PlainComponents(id, damage, risk);
    PlainScoreWith(f, Components(f, PLAIN_PROFILE, 1.0, 1.0), damage, risk);
    ScoreSound(f, PLAIN_PROFILE, 1.0, 1.0);
  }

  lemma ExactPenalty(risk: real)
    ensures Multiply(ExactRange(risk), Times(1.0, 1.0)) == Ok(ExactRange(risk))
  {
  }

  lemma PlainScoreWith(f: Features, components: seq<Component>, damage: real, risk: real)
    requires f.selfDeathProbability == ExactRange(risk) && LoneComponents(components, damage)
    ensures var r := ScoreWith(f, PLAIN_PROFILE, Times(1.0, 1.0), components);
            r.Ok? ==> r.value.tacticalRange == ExactRange(damage) && r.value.penalty == ExactRange(risk)
  {
    LoneComponentsEvaluate(components, damage);
    var weighted := EvaluateComponents(components).value;
    LonePool(weighted, damage, 1.0);
    ExactPenalty(risk);
    ScoredByParts(f, PLAIN_PROFILE, Times(1.0, 1.0), components);
    PartsRecord(f, PLAIN_PROFILE, components, weighted, ExactRange(damage), ExactRange(risk));
  }

  /** What scoring makes of a plain action. */
  function Scores(id: string, damage: real, risk: real): (c: Candidate)
    requires -1.0 <= damage <= 1.0
    ensures Score(Plain(id, damage, risk), PLAIN_PROFILE, 1.0, 1.0) == Ok(c)
    ensures Reconciled(c) && c.tacticalRange == ExactRange(damage) && c.penalty == ExactRange(risk)
  {
    PlainScore(id, damage, risk);
    Score(Plain(id, damage, risk), PLAIN_PROFILE, 1.0, 1.0).value
  }

  /** Three scored actions: the first dominates the second, the second the third, but the first not the third. */
  lemma DominanceIsNotTransitive(i: string, j: string, k: string)
    ensures var a, b, c := Scores(i, 0.0, 0.0), Scores(j, TOLERANCE, 0.5), Scores(k, 2.0 * TOLERANCE, 1.0);
            Dominates(a, b) && Dominates(b, c) && !Dominates(a, c)
  {
    var a, b, c := Scores(i, 0.0, 0.0), Scores(j, TOLERANCE, 0.5), Scores(k, 2.0 * TOLERANCE, 1.0);
    DominatesByLead(a, b);
    DominatesByLead(b, c);
    DominatesByLead(a, c);
  }
}
