/** Which way each metric pulls: more of a gain, or less of a loss, never scores lower. */
module ScoringMonotone {
  import opened Reals
  import opened Sums
  import opened MetricRanges
  import opened Scoring

  /** Every bound of `v`, and the expectation if known, is at least the one of `w`. */
  predicate AtLeast(v: MetricRange, w: MetricRange) {
    && v.minimum >= w.minimum && v.maximum >= w.maximum
    && v.selectionMinimum >= w.selectionMinimum && v.selectionMaximum >= w.selectionMaximum
    && v.epistemicMinimum >= w.epistemicMinimum && v.epistemicMaximum >= w.epistemicMaximum
    && v.expected.Some? == w.expected.Some?
    && (v.expected.Some? ==> v.expected.value >= w.expected.value)
  }

  /** `f` gains at least as much as `g` everywhere and loses no more anywhere. */
  predicate NoWorse(f: Features, g: Features) {
    && AtLeast(f.enemyHpDamage, g.enemyHpDamage) && AtLeast(f.enemyArmorDamage, g.enemyArmorDamage)
    && AtLeast(f.killProbability, g.killProbability)
    && AtLeast(g.selfHpDamage, f.selfHpDamage) && AtLeast(g.allyHpDamage, f.allyHpDamage)
    && AtLeast(g.selfDeathProbability, f.selfDeathProbability)
    && AtLeast(g.interruptionProbability, f.interruptionProbability)
    && AtLeast(g.adjacentHostilePressure, f.adjacentHostilePressure)
    && AtLeast(g.hostileZocPressure, f.hostileZocPressure) && AtLeast(g.rangedLosExposure, f.rangedLosExposure)
    && AtLeast(f.elevationChange, g.elevationChange) && AtLeast(f.elevationAdvantage, g.elevationAdvantage)
    && AtLeast(g.elevationDisadvantage, f.elevationDisadvantage)
    && AtLeast(f.createdScreenLinks, g.createdScreenLinks) && AtLeast(g.lostScreenLinks, f.lostScreenLinks)
    && AtLeast(f.flankedHostiles, g.flankedHostiles) && AtLeast(f.openRepositionTiles, g.openRepositionTiles)
    && AtLeast(f.remainingActionPoints, g.remainingActionPoints) && AtLeast(f.fatigueHeadroom, g.fatigueHeadroom)
    && AtLeast(f.feasibleTemplates, g.feasibleTemplates) && f.templateCount == g.templateCount
    && f.ammoConsumed <= g.ammoConsumed && f.chargesConsumed <= g.chargesConsumed
    && AtLeast(f.actorHasWaited, g.actorHasWaited) && AtLeast(f.actorMayWait, g.actorMayWait)
    && AtLeast(g.turnEnded, f.turnEnded)
  }

  lemma WeightedMonotone(v: MetricRange, w: MetricRange, k: real)
    requires AtLeast(v, w) && k >= 0.0 && Weighted(v, k).Ok? && Weighted(w, k).Ok?
    ensures AtLeast(Weighted(v, k).value, Weighted(w, k).value)
  {
    TimesRises(w.minimum, v.minimum, k);
    TimesRises(w.maximum, v.maximum, k);
    TimesRises(w.selectionMinimum, v.selectionMinimum, k);
    TimesRises(w.selectionMaximum, v.selectionMaximum, k);
    TimesRises(w.epistemicMinimum, v.epistemicMinimum, k);
    TimesRises(w.epistemicMaximum, v.epistemicMaximum, k);
    if v.expected.Some? {
      TimesRises(w.expected.value, v.expected.value, k);
    }
  }

  /** `f` carries larger inputs to larger outputs. */
  ghost predicate Rising(f: real -> real) {
    forall x, y :: x <= y ==> f(x) <= f(y)
  }

  ghost predicate Falling(f: real -> real) {
    forall x, y :: x <= y ==> f(x) >= f(y)
  }

  /** What the bounds of an image are made of, compared. */
  lemma BoundsRise(a: real, b: real, c: real, d: real)
    requires a >= c && b >= d
    ensures RMin(a, b) >= RMin(c, d) && RMax(a, b) >= RMax(c, d)
  {
  }

  /** `f` is at least as large at every bound of `v` as it is at the same bound of `w`. */
  predicate ImagesRise(v: MetricRange, w: MetricRange, f: real -> real) {
    && f(v.minimum) >= f(w.minimum) && f(v.maximum) >= f(w.maximum)
    && f(v.selectionMinimum) >= f(w.selectionMinimum) && f(v.selectionMaximum) >= f(w.selectionMaximum)
    && f(v.epistemicMinimum) >= f(w.epistemicMinimum) && f(v.epistemicMaximum) >= f(w.epistemicMaximum)
    && v.expected.Some? == w.expected.Some?
    && (v.expected.Some? ==> f(v.expected.value) >= f(w.expected.value))
  }

  lemma ImageMonotone(v: MetricRange, w: MetricRange, f: real -> real)
    requires ImagesRise(v, w, f) && Image(v, f).Ok? && Image(w, f).Ok?
    ensures AtLeast(Image(v, f).value, Image(w, f).value)
  {
    BoundsRise(f(v.minimum), f(v.maximum), f(w.minimum), f(w.maximum));
    BoundsRise(f(v.selectionMinimum), f(v.selectionMaximum), f(w.selectionMinimum), f(w.selectionMaximum));
    BoundsRise(f(v.epistemicMinimum), f(v.epistemicMaximum), f(w.epistemicMinimum), f(w.epistemicMaximum));
  }

  lemma ImageRises(v: MetricRange, w: MetricRange, f: real -> real)
    requires AtLeast(v, w) && Rising(f) && Image(v, f).Ok? && Image(w, f).Ok?
    ensures AtLeast(Image(v, f).value, Image(w, f).value)
  {
    assert ImagesRise(v, w, f);
    ImageMonotone(v, w, f);
  }

  lemma ImageFalls(v: MetricRange, w: MetricRange, f: real -> real)
    requires AtLeast(v, w) && Falling(f) && Image(v, f).Ok? && Image(w, f).Ok?
    ensures AtLeast(Image(w, f).value, Image(v, f).value)
  {
    assert ImagesRise(w, v, f);
    ImageMonotone(w, v, f);
  }

  lemma ScalingIsMonotone(scale: real, direction: real)
    requires scale > 0.0
    ensures direction >= 0.0 ==> Rising(Scaling(scale, direction))
    ensures direction <= 0.0 ==> Falling(Scaling(scale, direction))
  {
    forall x: real, y: real | x <= y
      ensures direction >= 0.0 ==> Scaled(x, scale, direction) <= Scaled(y, scale, direction)
      ensures direction <= 0.0 ==> Scaled(x, scale, direction) >= Scaled(y, scale, direction)
    {
      ScaledMonotone(x, y, scale, direction);
    }
  }

  /** Term by term: the same weighing of a metric that is at least as favourable. */
  predicate TermNoWorse(t: Term, u: Term) {
    && t.factor == u.factor && t.scale == u.scale && t.direction == u.direction
    && (t.direction == 1.0 || t.direction == -1.0)
    && (if t.direction == 1.0 then AtLeast(t.metric, u.metric) else AtLeast(u.metric, t.metric))
  }

  lemma TermMonotone(t: Term, u: Term)
    requires ValidTerm(t) && ValidTerm(u) && TermNoWorse(t, u)
    ensures EvaluateTerm(t).Ok? && EvaluateTerm(u).Ok?
    ensures AtLeast(EvaluateTerm(t).value, EvaluateTerm(u).value)
  {
    TermSound(t);
    TermSound(u);
    ScalingIsMonotone(t.scale, t.direction);
    var v, w := Multiply(t.metric, t.factor).value, Multiply(u.metric, u.factor).value;
    var f := Scaling(t.scale, t.direction);
    if t.direction == 1.0 {
      WeightedMonotone(t.metric, u.metric, t.factor);
      ImageRises(v, w, f);
    } else {
      WeightedMonotone(u.metric, t.metric, t.factor);
      ImageFalls(w, v, f);
    }
  }

  predicate ListAtLeast(vs: seq<MetricRange>, ws: seq<MetricRange>) {
    |vs| == |ws| && forall i :: 0 <= i < |vs| ==> AtLeast(vs[i], ws[i])
  }

  lemma {:induction false} TermsMonotone(ts: seq<Term>, us: seq<Term>)
    requires |ts| == |us|
    requires forall i :: 0 <= i < |ts| ==> ValidTerm(ts[i]) && ValidTerm(us[i]) && TermNoWorse(ts[i], us[i])
    ensures EvaluateTerms(ts).Ok? && EvaluateTerms(us).Ok?
    ensures ListAtLeast(EvaluateTerms(ts).value, EvaluateTerms(us).value)
  {
    if ts != [] {
      TermsMonotone(ts[..|ts| - 1], us[..|us| - 1]);
      TermMonotone(ts[|ts| - 1], us[|us| - 1]);
    }
  }

  lemma {:induction false} SumAtLeast(vs: seq<MetricRange>, ws: seq<MetricRange>, f: MetricRange -> real)
    requires |vs| == |ws| && forall i :: 0 <= i < |vs| ==> f(vs[i]) >= f(ws[i])
    ensures Sum(vs, f) >= Sum(ws, f)
  {
    if vs != [] {
      SumAtLeast(vs[..|vs| - 1], ws[..|ws| - 1], f);
    }
  }

  lemma QuotientAtLeast(vs: seq<MetricRange>, ws: seq<MetricRange>, f: MetricRange -> real, n: real)
    requires |vs| == |ws| && n > 0.0 && forall i :: 0 <= i < |vs| ==> f(vs[i]) >= f(ws[i])
    ensures Sum(vs, f) / n >= Sum(ws, f) / n
  {
    SumAtLeast(vs, ws, f);
    Divide(Sum(ws, f), Sum(vs, f), n);
  }

  lemma PooledMonotone(vs: seq<MetricRange>, ws: seq<MetricRange>, n: real)
    requires ListAtLeast(vs, ws) && n > 0.0 && Pooled(vs, n).Ok? && Pooled(ws, n).Ok?
    ensures AtLeast(Pooled(vs, n).value, Pooled(ws, n).value)
  {
    QuotientAtLeast(vs, ws, Low(Raw), n);
    QuotientAtLeast(vs, ws, High(Raw), n);
    QuotientAtLeast(vs, ws, Low(Selection), n);
    QuotientAtLeast(vs, ws, High(Selection), n);
    QuotientAtLeast(vs, ws, Low(Epistemic), n);
    QuotientAtLeast(vs, ws, High(Epistemic), n);
    assert AllExpected(vs) == AllExpected(ws);
    if AllExpected(vs) {
      QuotientAtLeast(vs, ws, Expectation, n);
    }
  }

  predicate ComponentNoWorse(c: Component, d: Component) {
    && c.weight == d.weight && |c.terms| == |d.terms|
    && forall i :: 0 <= i < |c.terms| ==> TermNoWorse(c.terms[i], d.terms[i])
  }

  lemma ComponentMonotone(c: Component, d: Component)
    requires ValidComponents([c]) && ValidComponents([d]) && ComponentNoWorse(c, d)
    ensures EvaluateComponent(c).Ok? && EvaluateComponent(d).Ok?
    ensures AtLeast(EvaluateComponent(c).value, EvaluateComponent(d).value)
  {
    assert [c][0] == c && [d][0] == d;
    ComponentSound(c);
    ComponentSound(d);
    TermsMonotone(c.terms, d.terms);
    var vs, ws := EvaluateTerms(c.terms).value, EvaluateTerms(d.terms).value;
    if vs != [] {
      PooledMonotone(vs, ws, |vs| as real);
    }
    WeightedMonotone(Average(vs).value, Average(ws).value, c.weight);
  }

  lemma {:induction false} ComponentsMonotone(cs: seq<Component>, ds: seq<Component>)
    requires ValidComponents(cs) && ValidComponents(ds) && |cs| == |ds|
    requires forall i :: 0 <= i < |cs| ==> ComponentNoWorse(cs[i], ds[i])
    ensures EvaluateComponents(cs).Ok? && EvaluateComponents(ds).Ok?
    ensures ListAtLeast(EvaluateComponents(cs).value, EvaluateComponents(ds).value)
  {
    if cs != [] {
      var n := |cs| - 1;
      ComponentsMonotone(cs[..n], ds[..n]);
      assert [cs[n]][0] == cs[n] && [ds[n]][0] == ds[n];
      ComponentMonotone(cs[n], ds[n]);
    }
  }

  lemma NoWorseComponents(f: Features, g: Features, p: Profile, actorValue: real, allyValue: real)
    requires NoWorse(f, g)
    ensures var cs, ds := Components(f, p, actorValue, allyValue), Components(g, p, actorValue, allyValue);
            |cs| == |ds| && forall i :: 0 <= i < |cs| ==> ComponentNoWorse(cs[i], ds[i])
  {
  }

  /** What a successful scoring records. */
  lemma ScoreRecords(f: Features, p: Profile, multiplier: real, cs: seq<Component>)
    ensures var r := ScoreWith(f, p, multiplier, cs);
            r.Ok? ==>
              && EvaluateComponents(cs).Ok? && Multiply(f.selfDeathProbability, multiplier).Ok?
              && r.value.weighted == EvaluateComponents(cs).value
              && r.value.baseSelection == Sum(r.value.weighted, SelectionValue)
              && r.value.selectionPenalty == PenaltySelection(Multiply(f.selfDeathProbability, multiplier).value)
              && r.value.irreversibleCost == f.ammoConsumed + f.chargesConsumed
              && r.value.guardrailExcluded == (p.maxSelfDeathProbability.Some?
                                               && f.selfDeathProbability.maximum > p.maxSelfDeathProbability.value)
  {
    ScoredByParts(f, p, multiplier, cs);
  }

  lemma PenaltyMonotone(v: MetricRange, w: MetricRange, k: real)
    requires AtLeast(v, w) && k >= 0.0 && Multiply(v, k).Ok? && Multiply(w, k).Ok?
    ensures PenaltySelection(Multiply(v, k).value) >= PenaltySelection(Multiply(w, k).value)
  {
    WeightedMonotone(v, w, k);
  }

  /** What scoring the same profile with better components guarantees. */
  predicate Outscores(c: Candidate, d: Candidate) {
    && ListAtLeast(c.weighted, d.weighted)
    && c.baseSelection >= d.baseSelection && c.selectionPenalty <= d.selectionPenalty
    && c.irreversibleCost <= d.irreversibleCost
    && (c.guardrailExcluded ==> d.guardrailExcluded)
  }

  lemma SelectionsAtLeast(vs: seq<MetricRange>, ws: seq<MetricRange>)
    requires ListAtLeast(vs, ws)
    ensures Sum(vs, SelectionValue) >= Sum(ws, SelectionValue)
  {
    SumAtLeast(vs, ws, SelectionValue);
  }

  lemma GuardrailCloses(v: MetricRange, w: MetricRange)
    requires AtLeast(w, v)
    ensures v.maximum <= w.maximum
  {
  }

  lemma BetterComponentsOutscore(
      f: Features, g: Features, p: Profile, multiplier: real, cs: seq<Component>, ds: seq<Component>)
    requires Valid(f.selfDeathProbability) && Valid(g.selfDeathProbability)
    requires p.uncertaintyWeight >= 0.0 && multiplier >= 0.0
    requires AtLeast(g.selfDeathProbability, f.selfDeathProbability)
    requires f.ammoConsumed <= g.ammoConsumed && f.chargesConsumed <= g.chargesConsumed
    requires ValidComponents(cs) && ValidComponents(ds) && |cs| == |ds|
    requires forall i :: 0 <= i < |cs| ==> ComponentNoWorse(cs[i], ds[i])
    ensures ScoreWith(f, p, multiplier, cs).Ok? && ScoreWith(g, p, multiplier, ds).Ok?
    ensures Outscores(ScoreWith(f, p, multiplier, cs).value, ScoreWith(g, p, multiplier, ds).value)
  {
    hide ScoreWith, AtLeast, ListAtLeast, Valid, ValidComponents, ComponentNoWorse, EvaluateComponents, Sum;
    ScoreWithSucceeds(f, p, multiplier, cs);
    ScoreWithSucceeds(g, p, multiplier, ds);
    ComponentsMonotone(cs, ds);
    ScoreRecords(f, p, multiplier, cs);
    ScoreRecords(g, p, multiplier, ds);
    SelectionsAtLeast(EvaluateComponents(cs).value, EvaluateComponents(ds).value);
    GuardrailCloses(f.selfDeathProbability, g.selfDeathProbability);
    PenaltyMonotone(g.selfDeathProbability, f.selfDeathProbability, multiplier);
  }

  /**
   * Features that are no worse in any metric score at least as much before the uncertainty adjustment,
   * component by component and after the tail-risk penalty.
   */
  lemma NoWorseScoresNoLower(f: Features, g: Features, p: Profile, actorValue: real, allyValue: real)
    requires ValidFeatures(f) && ValidFeatures(g) && ValidProfile(p) && actorValue > 0.0 && allyValue > 0.0
    requires NoWorse(f, g)
    ensures Score(f, p, actorValue, allyValue).Ok? && Score(g, p, actorValue, allyValue).Ok?
    ensures Outscores(Score(f, p, actorValue, allyValue).value, Score(g, p, actorValue, allyValue).value)
  {
    NoWorseComponents(f, g, p, actorValue, allyValue);
    ComponentsValid(f, p, actorValue, allyValue);
    ComponentsValid(g, p, actorValue, allyValue);
    TimesNonnegative(p.tailRiskWeight, actorValue);
    BetterComponentsOutscore(f, g, p, Times(p.tailRiskWeight, actorValue),
                             Components(f, p, actorValue, allyValue), Components(g, p, actorValue, allyValue));
  }
}
