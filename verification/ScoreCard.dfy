/** What a candidate's score is made of, written out: every metric with its scale, its sign and its unit value. */
module ScoreCard {
  import opened Common
  import opened Reals
  import opened Sums
  import opened MetricRanges
  import opened Scoring
  import opened ScoringMonotone

  // ----- Written out -----

  /** What a gain counts for: its expectation if that is used, else the low end of its selection range. */
  function GainOf(m: MetricRange, sure: bool): real {
    if sure && m.expected.Some? then m.expected.value else m.selectionMinimum
  }

  /** What a loss counts for: its expectation if that is used, else the high end of its selection range. */
  function LossOf(m: MetricRange, sure: bool): real {
    if sure && m.expected.Some? then m.expected.value else m.selectionMaximum
  }

  /** `x` as a part of `scale`, at most the whole either way. */
  function Share(x: real, scale: real): real
    requires scale > 0.0
  {
    if x <= -scale then -1.0 else if x >= scale then 1.0 else x / scale
  }

  predicate Sure(ms: seq<MetricRange>) {
    forall i :: 0 <= i < |ms| ==> ms[i].expected.Some?
  }

  function EnemyEffect(f: Features, s: Scales): real
    requires s.hpDamage > 0.0 && s.armorDamage > 0.0
  {
    var sure := Sure([f.enemyHpDamage, f.enemyArmorDamage, f.killProbability]);
    (Share(GainOf(f.enemyHpDamage, sure), s.hpDamage)
     + Share(GainOf(f.enemyArmorDamage, sure), s.armorDamage)
     + Share(GainOf(f.killProbability, sure), 1.0)) / 3.0
  }

  function FriendlyHarm(f: Features, s: Scales, actorValue: real, allyValue: real): real
    requires s.hpDamage > 0.0
  {
    var sure := Sure([f.selfHpDamage, f.allyHpDamage, f.interruptionProbability]);
    (Share(Times(LossOf(f.selfHpDamage, sure), actorValue), s.hpDamage)
     + Share(Times(LossOf(f.allyHpDamage, sure), allyValue), s.hpDamage)
     + Share(LossOf(f.interruptionProbability, sure), 1.0)) / 3.0
  }

  function Exposure(f: Features, s: Scales): real
    requires s.hostilePressure > 0.0 && s.rangedExposure > 0.0
  {
    var sure := Sure([f.adjacentHostilePressure, f.hostileZocPressure, f.rangedLosExposure]);
    (Share(LossOf(f.adjacentHostilePressure, sure), s.hostilePressure)
     + Share(LossOf(f.hostileZocPressure, sure), s.hostilePressure)
     + Share(LossOf(f.rangedLosExposure, sure), s.rangedExposure)) / 3.0
  }

  function Position(f: Features, s: Scales): real
    requires s.elevationDelta > 0.0 && s.elevationContacts > 0.0 && s.formationLinks > 0.0
    requires s.flankedHostiles > 0.0 && s.openRepositionTiles > 0.0
  {
    var sure := Sure([f.elevationChange, f.elevationAdvantage, f.elevationDisadvantage, f.createdScreenLinks,
                      f.lostScreenLinks, f.flankedHostiles, f.openRepositionTiles]);
    (Share(GainOf(f.elevationChange, sure), s.elevationDelta)
     + Share(GainOf(f.elevationAdvantage, sure), s.elevationContacts)
     - Share(LossOf(f.elevationDisadvantage, sure), s.elevationContacts)
     + Share(GainOf(f.createdScreenLinks, sure), s.formationLinks)
     - Share(LossOf(f.lostScreenLinks, sure), s.formationLinks)
     + Share(GainOf(f.flankedHostiles, sure), s.flankedHostiles)
     + Share(GainOf(f.openRepositionTiles, sure), s.openRepositionTiles)) / 7.0
  }

  function Resources(f: Features, s: Scales): real
    requires s.actionPoints > 0.0 && s.fatigueHeadroom > 0.0 && s.resourceUnits > 0.0
  {
    var sure := Sure([f.remainingActionPoints, f.fatigueHeadroom, f.feasibleTemplates]);
    (Share(GainOf(f.remainingActionPoints, sure), s.actionPoints)
     + Share(GainOf(f.fatigueHeadroom, sure), s.fatigueHeadroom)
     + Share(GainOf(f.feasibleTemplates, sure), if f.templateCount == 0 then 1.0 else f.templateCount as real)
     - Share(f.ammoConsumed as real, s.resourceUnits)
     - Share(f.chargesConsumed as real, s.resourceUnits)) / 5.0
  }

  function Tempo(f: Features): real {
    var sure := Sure([f.actorHasWaited, f.actorMayWait, f.turnEnded]);
    (Share(GainOf(f.actorHasWaited, sure), 1.0) + Share(GainOf(f.actorMayWait, sure), 1.0)
     - Share(LossOf(f.turnEnded, sure), 1.0)) / 3.0
  }

  /** The weighted whole, before tail risk and uncertainty. */
  function Worth(f: Features, p: Profile, actorValue: real, allyValue: real): real
    requires ValidProfile(p)
  {
    Times(EnemyEffect(f, p.scales), p.weights.enemyEffect)
    - Times(FriendlyHarm(f, p.scales, actorValue, allyValue), p.weights.friendlyHarm)
    - Times(Exposure(f, p.scales), p.weights.exposure)
    + Times(Position(f, p.scales), p.weights.position)
    + Times(Resources(f, p.scales), p.weights.resources)
    + Times(Tempo(f), p.weights.tempo)
  }

  // ----- One term -----

  function TermShare(t: Term, sure: bool): real
    requires t.scale > 0.0
  {
    if t.direction > 0.0 then Share(Times(GainOf(t.metric, sure), t.factor), t.scale)
    else -Share(Times(LossOf(t.metric, sure), t.factor), t.scale)
  }

  lemma ScaledIsShare(x: real, scale: real)
    requires scale > 0.0
    ensures Scaled(x, scale, 1.0) == Share(x, scale) && Scaled(x, scale, -1.0) == -Share(x, scale)
  {
    SelfQuotient(scale);
    assert Times(1.0, x) / scale == x / scale && Times(-1.0, x) / scale == -(x / scale);
    if x <= -scale {
      Divide(x, -scale, scale);
      assert -scale / scale == -1.0;
    } else {
      Divide(-scale, x, scale);
      assert -scale / scale == -1.0;
    }
    if x >= scale {
      Divide(scale, x, scale);
    } else {
      Divide(x, scale, scale);
    }
  }

  predicate Signed(t: Term) {
    ValidTerm(t) && (t.direction == 1.0 || t.direction == -1.0)
  }

  lemma MultiplyParts(m: MetricRange, k: real)
    requires Multiply(m, k).Ok?
    ensures var v := Multiply(m, k).value;
            && v.selectionMinimum == Times(m.selectionMinimum, k) && v.selectionMaximum == Times(m.selectionMaximum, k)
            && (v.expected.Some? <==> m.expected.Some?)
            && (v.expected.Some? ==> v.expected.value == Times(m.expected.value, k))
  {
  }

  lemma NormalizedParts(v: MetricRange, scale: real, direction: real)
    requires scale > 0.0 && Normalized(v, scale, direction).Ok?
    ensures var u := Normalized(v, scale, direction).value;
            && u.selectionMinimum
               == RMin(Scaled(v.selectionMinimum, scale, direction), Scaled(v.selectionMaximum, scale, direction))
            && (u.expected.Some? <==> v.expected.Some?)
            && (u.expected.Some? ==> u.expected.value == Scaled(v.expected.value, scale, direction))
  {
    hide Scaled;
  }

  /** Which end of the selection range is the low one after scaling. */
  lemma LowEnd(x: real, y: real, scale: real)
    requires scale > 0.0 && x <= y
    ensures RMin(Scaled(x, scale, 1.0), Scaled(y, scale, 1.0)) == Share(x, scale)
    ensures RMin(Scaled(x, scale, -1.0), Scaled(y, scale, -1.0)) == -Share(y, scale)
  {
    ScaledIsShare(x, scale);
    ScaledIsShare(y, scale);
    ScaledMonotone(x, y, scale, 1.0);
    hide Scaled, Share;
  }

  /** A term's expectation and its low selection end. */
  lemma TermIsShare(t: Term)
    requires Signed(t)
    ensures EvaluateTerm(t).Ok?
    ensures var v := EvaluateTerm(t).value;
            && v.selectionMinimum == TermShare(t, false)
            && (v.expected.Some? <==> t.metric.expected.Some?)
            && (v.expected.Some? ==> v.expected.value == TermShare(t, true))
  {
    TermSound(t);
    var v := Multiply(t.metric, t.factor).value;
    MultiplyParts(t.metric, t.factor);
    NormalizedParts(v, t.scale, t.direction);
    TimesRises(t.metric.selectionMinimum, t.metric.selectionMaximum, t.factor);
    LowEnd(v.selectionMinimum, v.selectionMaximum, t.scale);
    if v.expected.Some? {
      ScaledIsShare(v.expected.value, t.scale);
    }
    hide Share, Scaled, Times, Multiply, Normalized;
  }

  // ----- One component -----

  function SharesOf(sure: bool): Term -> real {
    (t: Term) => if t.scale > 0.0 then TermShare(t, sure) else 0.0
  }

  predicate AllSigned(ts: seq<Term>) {
    forall i :: 0 <= i < |ts| ==> Signed(ts[i])
  }

  predicate SureTerms(ts: seq<Term>) {
    forall i :: 0 <= i < |ts| ==> ts[i].metric.expected.Some?
  }

  lemma {:induction false} TermsAreEvaluated(ts: seq<Term>)
    requires EvaluateTerms(ts).Ok?
    ensures |EvaluateTerms(ts).value| == |ts|
    ensures forall i :: 0 <= i < |ts| ==> EvaluateTerm(ts[i]) == Ok(EvaluateTerms(ts).value[i])
  {
    hide EvaluateTerm;
    if ts != [] {
      TermsAreEvaluated(ts[..|ts| - 1]);
    }
  }

  ghost predicate IsShare(v: MetricRange, t: Term) {
    && t.scale > 0.0 && v.selectionMinimum == TermShare(t, false)
    && (v.expected.Some? <==> t.metric.expected.Some?)
    && (v.expected.Some? ==> v.expected.value == TermShare(t, true))
  }

  lemma TermsAreShares(ts: seq<Term>, vs: seq<MetricRange>)
    requires AllSigned(ts) && EvaluateTerms(ts) == Ok(vs)
    ensures |vs| == |ts| && forall i :: 0 <= i < |ts| ==> IsShare(vs[i], ts[i])
  {
    TermsAreEvaluated(ts);
    forall i | 0 <= i < |ts| ensures IsShare(vs[i], ts[i]) {
      TermIsShare(ts[i]);
    }
    hide EvaluateTerm, EvaluateTerms, TermShare;
  }

  /** The shares are what the evaluated terms expect, or their low selection ends. */
  lemma TermSums(ts: seq<Term>, vs: seq<MetricRange>)
    requires AllSigned(ts) && EvaluateTerms(ts) == Ok(vs)
    ensures |vs| == |ts| && (AllExpected(vs) <==> SureTerms(ts))
    ensures Sum(vs, Low(Selection)) == Sum(ts, SharesOf(false))
    ensures AllExpected(vs) ==> Sum(vs, Expectation) == Sum(ts, SharesOf(true))
  {
    TermsAreShares(ts, vs);
    hide EvaluateTerms, TermShare, Signed, Sum;
    assert AllExpected(vs) <==> SureTerms(ts) by {
      assert forall i :: 0 <= i < |ts| ==> (vs[i].expected.Some? <==> ts[i].metric.expected.Some?);
    }
    SumMatches(vs, Low(Selection), ts, SharesOf(false));
    if AllExpected(vs) {
      SumMatches(vs, Expectation, ts, SharesOf(true));
    }
  }

  lemma PooledParts(vs: seq<MetricRange>, n: real, w: real)
    requires n > 0.0 && Pooled(vs, n).Ok? && Weighted(Pooled(vs, n).value, w).Ok?
    ensures SelectionValue(Weighted(Pooled(vs, n).value, w).value)
            == Times((if AllExpected(vs) then Sum(vs, Expectation) else Sum(vs, Low(Selection))) / n, w)
  {
    hide Times, Sum, AllExpected;
  }

  function Mean(c: Component): real
    requires c.terms != []
  {
    Sum(c.terms, SharesOf(SureTerms(c.terms))) / (|c.terms| as real)
  }

  /** A component contributes the mean of its terms' shares, weighted. */
  lemma ComponentIsMean(c: Component)
    requires c.terms != [] && AllSigned(c.terms) && c.weight >= 0.0
    ensures EvaluateComponent(c).Ok?
    ensures SelectionValue(EvaluateComponent(c).value) == Times(Mean(c), c.weight)
  {
    ComponentSound(c);
    var vs := EvaluateTerms(c.terms).value;
    TermSums(c.terms, vs);
    PooledParts(vs, |vs| as real, c.weight);
    hide EvaluateTerms, Pooled, Weighted, Sum, SelectionValue, SharesOf, AllSigned, Times;
  }

  // ----- The whole score -----

  function Weigh(c: Component): real {
    if c.terms == [] then 0.0 else Times(Mean(c), c.weight)
  }

  lemma {:induction false} ComponentsAreMeans(cs: seq<Component>)
    requires EvaluateComponents(cs).Ok?
    requires forall i :: 0 <= i < |cs| ==> cs[i].terms != [] && AllSigned(cs[i].terms) && cs[i].weight >= 0.0
    ensures Sum(EvaluateComponents(cs).value, SelectionValue) == Sum(cs, Weigh)
  {
    hide EvaluateComponent, SelectionValue, AllSigned, Mean, Times;
    if cs != [] {
      var n := |cs| - 1;
      ComponentsAreMeans(cs[..n]);
      ComponentIsMean(cs[n]);
      var front, last := EvaluateComponents(cs[..n]).value, EvaluateComponent(cs[n]).value;
      assert (front + [last])[..|front|] == front;
    }
  }

  // ----- Component by component -----

  lemma TimesOne(x: real)
    ensures Times(x, 1.0) == x
  {
  }

  /** What a term that gains, or loses, one unit for one adds. */
  lemma UnitShare(m: MetricRange, scale: real, sure: bool)
    requires scale > 0.0
    ensures SharesOf(sure)(Gain(m, scale)) == Share(GainOf(m, sure), scale)
    ensures SharesOf(sure)(Loss(m, scale)) == -Share(LossOf(m, sure), scale)
  {
    TimesOne(GainOf(m, sure));
    TimesOne(LossOf(m, sure));
    hide Share, GainOf, LossOf, Times;
  }

  lemma SumOfThree<T>(a: T, b: T, c: T, w: T -> real)
    ensures Sum([a, b, c], w) == w(a) + w(b) + w(c)
  {
    assert [a, b] == [a] + [b] && [a, b, c] == [a, b] + [c];
    SumOne(a, w);
    SumNext([a], b, w);
    SumNext([a, b], c, w);
  }

  lemma SumNext<T>(xs: seq<T>, x: T, w: T -> real)
    ensures Sum(xs + [x], w) == Sum(xs, w) + w(x)
  {
    SumAppend(xs, [x], w);
    SumOne(x, w);
  }

  /** The component at `i` is well formed, and its terms' mean is `x`. */
  ghost predicate Averages(c: Component, weight: real, x: real) {
    c.terms != [] && AllSigned(c.terms) && c.weight == weight && Mean(c) == x
  }

  lemma SureMetrics(ts: seq<Term>, ms: seq<MetricRange>)
    requires |ts| == |ms| && forall i :: 0 <= i < |ts| ==> ms[i] == ts[i].metric
    ensures SureTerms(ts) <==> Sure(ms)
  {
  }

  lemma ThreeAverage(c: Component, a: Term, b: Term, d: Term)
    requires c.terms == [a, b, d] && Signed(a) && Signed(b) && Signed(d)
    ensures var w := SharesOf(Sure([a.metric, b.metric, d.metric]));
            Averages(c, c.weight, (w(a) + w(b) + w(d)) / 3.0)
  {
    SureMetrics(c.terms, [a.metric, b.metric, d.metric]);
    SumOfThree(a, b, d, SharesOf(SureTerms(c.terms)));
    hide Signed, Sum, SharesOf, Sure, SureTerms;
  }

  lemma EnemyAverages(f: Features, p: Profile, actorValue: real, allyValue: real)
    requires ValidFeatures(f) && ValidProfile(p)
    ensures Averages(Components(f, p, actorValue, allyValue)[0], p.weights.enemyEffect, EnemyEffect(f, p.scales))
  {
    var c := Components(f, p, actorValue, allyValue)[0];
    var sure := Sure([f.enemyHpDamage, f.enemyArmorDamage, f.killProbability]);
    ThreeAverage(c, c.terms[0], c.terms[1], c.terms[2]);
    UnitShare(f.enemyHpDamage, p.scales.hpDamage, sure);
    UnitShare(f.enemyArmorDamage, p.scales.armorDamage, sure);
    UnitShare(f.killProbability, 1.0, sure);
    hide Averages, SharesOf, Share, GainOf, Sure;
  }

  lemma Negated(x: real, n: real)
    requires n > 0.0
    ensures (-x) / n == -(x / n)
  {
  }

  lemma HarmAverages(f: Features, p: Profile, actorValue: real, allyValue: real)
    requires ValidFeatures(f) && ValidProfile(p) && actorValue > 0.0 && allyValue > 0.0
    ensures Averages(Components(f, p, actorValue, allyValue)[1], p.weights.friendlyHarm,
                     -FriendlyHarm(f, p.scales, actorValue, allyValue))
  {
    var c := Components(f, p, actorValue, allyValue)[1];
    var sure := Sure([f.selfHpDamage, f.allyHpDamage, f.interruptionProbability]);
    ThreeAverage(c, c.terms[0], c.terms[1], c.terms[2]);
    UnitShare(f.interruptionProbability, 1.0, sure);
    Negated(Share(Times(LossOf(f.selfHpDamage, sure), actorValue), p.scales.hpDamage)
            + Share(Times(LossOf(f.allyHpDamage, sure), allyValue), p.scales.hpDamage)
            + Share(LossOf(f.interruptionProbability, sure), 1.0), 3.0);
    hide Averages, Share, LossOf, Sure;
  }

  lemma ExposureAverages(f: Features, p: Profile, actorValue: real, allyValue: real)
    requires ValidFeatures(f) && ValidProfile(p)
    ensures Averages(Components(f, p, actorValue, allyValue)[2], p.weights.exposure, -Exposure(f, p.scales))
  {
    var c := Components(f, p, actorValue, allyValue)[2];
    var sure := Sure([f.adjacentHostilePressure, f.hostileZocPressure, f.rangedLosExposure]);
    ThreeAverage(c, c.terms[0], c.terms[1], c.terms[2]);
    UnitShare(f.adjacentHostilePressure, p.scales.hostilePressure, sure);
    UnitShare(f.hostileZocPressure, p.scales.hostilePressure, sure);
    UnitShare(f.rangedLosExposure, p.scales.rangedExposure, sure);
    Negated(Share(LossOf(f.adjacentHostilePressure, sure), p.scales.hostilePressure)
            + Share(LossOf(f.hostileZocPressure, sure), p.scales.hostilePressure)
            + Share(LossOf(f.rangedLosExposure, sure), p.scales.rangedExposure), 3.0);
    hide Averages, SharesOf, Share, LossOf, Sure;
  }

  lemma TempoAverages(f: Features, p: Profile, actorValue: real, allyValue: real)
    requires ValidFeatures(f) && ValidProfile(p)
    ensures Averages(Components(f, p, actorValue, allyValue)[5], p.weights.tempo, Tempo(f))
  {
    var c := Components(f, p, actorValue, allyValue)[5];
    var sure := Sure([f.actorHasWaited, f.actorMayWait, f.turnEnded]);
    ThreeAverage(c, c.terms[0], c.terms[1], c.terms[2]);
    UnitShare(f.actorHasWaited, 1.0, sure);
    UnitShare(f.actorMayWait, 1.0, sure);
    UnitShare(f.turnEnded, 1.0, sure);
    hide Averages, SharesOf, Share, GainOf, LossOf, Sure;
  }

  lemma SumOfFive<T>(a: T, b: T, c: T, d: T, e: T, w: T -> real)
    ensures Sum([a, b, c, d, e], w) == w(a) + w(b) + w(c) + w(d) + w(e)
  {
    assert [a, b, c, d] == [a, b, c] + [d] && [a, b, c, d, e] == [a, b, c, d] + [e];
    SumOfThree(a, b, c, w);
    SumNext([a, b, c], d, w);
    SumNext([a, b, c, d], e, w);
  }

  lemma SumOfSeven<T>(a: T, b: T, c: T, d: T, e: T, x: T, y: T, w: T -> real)
    ensures Sum([a, b, c, d, e, x, y], w) == w(a) + w(b) + w(c) + w(d) + w(e) + w(x) + w(y)
  {
    assert [a, b, c, d, e, x] == [a, b, c, d, e] + [x] && [a, b, c, d, e, x, y] == [a, b, c, d, e, x] + [y];
    SumOfFive(a, b, c, d, e, w);
    SumNext([a, b, c, d, e], x, w);
    SumNext([a, b, c, d, e, x], y, w);
  }

  lemma PositionAverages(f: Features, p: Profile, actorValue: real, allyValue: real)
    requires ValidFeatures(f) && ValidProfile(p)
    ensures Averages(Components(f, p, actorValue, allyValue)[3], p.weights.position, Position(f, p.scales))
  {
    var c, s := Components(f, p, actorValue, allyValue)[3], p.scales;
    var ms := [f.elevationChange, f.elevationAdvantage, f.elevationDisadvantage, f.createdScreenLinks,
               f.lostScreenLinks, f.flankedHostiles, f.openRepositionTiles];
    var sure := Sure(ms);
    SureMetrics(c.terms, ms);
    SumOfSeven(c.terms[0], c.terms[1], c.terms[2], c.terms[3], c.terms[4], c.terms[5], c.terms[6], SharesOf(sure));
    UnitShare(f.elevationChange, s.elevationDelta, sure);
    UnitShare(f.elevationAdvantage, s.elevationContacts, sure);
    UnitShare(f.elevationDisadvantage, s.elevationContacts, sure);
    UnitShare(f.createdScreenLinks, s.formationLinks, sure);
    UnitShare(f.lostScreenLinks, s.formationLinks, sure);
    UnitShare(f.flankedHostiles, s.flankedHostiles, sure);
    UnitShare(f.openRepositionTiles, s.openRepositionTiles, sure);
    hide SharesOf, Share, GainOf, LossOf, Sure, SureTerms, Sum;
  }

  lemma SureBesides(ms: seq<MetricRange>, a: MetricRange, b: MetricRange)
    requires a.expected.Some? && b.expected.Some?
    ensures Sure(ms + [a, b]) <==> Sure(ms)
  {
    assert forall i :: 0 <= i < |ms| ==> (ms + [a, b])[i] == ms[i];
  }

  lemma FiveAverage(c: Component, ms: seq<MetricRange>)
    requires |c.terms| == 5 && AllSigned(c.terms)
    requires |ms| == 3 && forall i :: 0 <= i < 3 ==> ms[i] == c.terms[i].metric
    requires c.terms[3].metric.expected.Some? && c.terms[4].metric.expected.Some?
    ensures var w := SharesOf(Sure(ms));
            Averages(c, c.weight,
                     (w(c.terms[0]) + w(c.terms[1]) + w(c.terms[2]) + w(c.terms[3]) + w(c.terms[4])) / 5.0)
  {
    var all := ms + [c.terms[3].metric, c.terms[4].metric];
    SureMetrics(c.terms, all);
    SureBesides(ms, c.terms[3].metric, c.terms[4].metric);
    hide Signed, Sum, SharesOf, Sure, SureTerms;
    SumOfFive(c.terms[0], c.terms[1], c.terms[2], c.terms[3], c.terms[4], SharesOf(SureTerms(c.terms)));
    assert c.terms == [c.terms[0], c.terms[1], c.terms[2], c.terms[3], c.terms[4]];
  }

  lemma ResourcesAverages(f: Features, p: Profile, actorValue: real, allyValue: real)
    requires ValidFeatures(f) && ValidProfile(p)
    ensures Averages(Components(f, p, actorValue, allyValue)[4], p.weights.resources, Resources(f, p.scales))
  {
    var c, s := Components(f, p, actorValue, allyValue)[4], p.scales;
    var ammo, charges := ExactRange(f.ammoConsumed as real), ExactRange(f.chargesConsumed as real);
    var ms := [f.remainingActionPoints, f.fatigueHeadroom, f.feasibleTemplates];
    var sure := Sure(ms);
    ExactLoss(f.ammoConsumed as real, sure);
    ExactLoss(f.chargesConsumed as real, sure);
    FiveAverage(c, ms);
    hide Averages, SharesOf, Share, GainOf, LossOf, Sure;
    UnitShare(f.remainingActionPoints, s.actionPoints, sure);
    UnitShare(f.fatigueHeadroom, s.fatigueHeadroom, sure);
    UnitShare(f.feasibleTemplates, RMax(1.0, f.templateCount as real), sure);
    UnitShare(ammo, s.resourceUnits, sure);
    UnitShare(charges, s.resourceUnits, sure);
  }

  lemma ExactLoss(x: real, sure: bool)
    ensures LossOf(ExactRange(x), sure) == x && Valid(ExactRange(x))
  {
  }

  ghost predicate AllAverage(cs: seq<Component>, p: Profile, xs: seq<real>)
    requires |cs| == 6 && |xs| == 6
  {
    && Averages(cs[0], p.weights.enemyEffect, xs[0])
    && Averages(cs[1], p.weights.friendlyHarm, xs[1])
    && Averages(cs[2], p.weights.exposure, xs[2])
    && Averages(cs[3], p.weights.position, xs[3])
    && Averages(cs[4], p.weights.resources, xs[4])
    && Averages(cs[5], p.weights.tempo, xs[5])
  }

  lemma SixAverage(cs: seq<Component>, p: Profile, xs: seq<real>)
    requires |cs| == 6 && |xs| == 6 && AllAverage(cs, p, xs) && ValidProfile(p) && EvaluateComponents(cs).Ok?
    ensures Sum(EvaluateComponents(cs).value, SelectionValue)
            == Times(xs[0], p.weights.enemyEffect) + Times(xs[1], p.weights.friendlyHarm)
             + Times(xs[2], p.weights.exposure) + Times(xs[3], p.weights.position)
             + Times(xs[4], p.weights.resources) + Times(xs[5], p.weights.tempo)
  {
    hide Mean, AllSigned, Times, Sum, EvaluateComponents, SelectionValue;
    ComponentsAreMeans(cs);
    assert cs == [cs[0], cs[1], cs[2], cs[3], cs[4]] + [cs[5]];
    SumNext([cs[0], cs[1], cs[2], cs[3], cs[4]], cs[5], Weigh);
    SumOfFive(cs[0], cs[1], cs[2], cs[3], cs[4], Weigh);
  }

  /** The six means, signed as they count. */
  function Means(f: Features, p: Profile, actorValue: real, allyValue: real): seq<real>
    requires ValidProfile(p)
  {
    [EnemyEffect(f, p.scales), -FriendlyHarm(f, p.scales, actorValue, allyValue), -Exposure(f, p.scales),
     Position(f, p.scales), Resources(f, p.scales), Tempo(f)]
  }

  lemma AllMeans(f: Features, p: Profile, actorValue: real, allyValue: real)
    requires ValidFeatures(f) && ValidProfile(p) && actorValue > 0.0 && allyValue > 0.0
    ensures |Components(f, p, actorValue, allyValue)| == 6
    ensures AllAverage(Components(f, p, actorValue, allyValue), p, Means(f, p, actorValue, allyValue))
  {
    SixComponents(f, p, actorValue, allyValue);
    hide Components, Averages, EnemyEffect, FriendlyHarm, Exposure, Position, Resources, Tempo, ValidFeatures;
    EnemyAverages(f, p, actorValue, allyValue);
    HarmAverages(f, p, actorValue, allyValue);
    ExposureAverages(f, p, actorValue, allyValue);
    PositionAverages(f, p, actorValue, allyValue);
    ResourcesAverages(f, p, actorValue, allyValue);
    TempoAverages(f, p, actorValue, allyValue);
  }

  lemma WorthOfMeans(f: Features, p: Profile, actorValue: real, allyValue: real)
    requires ValidProfile(p)
    ensures var xs := Means(f, p, actorValue, allyValue);
            Worth(f, p, actorValue, allyValue)
            == Times(xs[0], p.weights.enemyEffect) + Times(xs[1], p.weights.friendlyHarm)
             + Times(xs[2], p.weights.exposure) + Times(xs[3], p.weights.position)
             + Times(xs[4], p.weights.resources) + Times(xs[5], p.weights.tempo)
  {
    NegatedTimes(FriendlyHarm(f, p.scales, actorValue, allyValue), p.weights.friendlyHarm);
    NegatedTimes(Exposure(f, p.scales), p.weights.exposure);
    hide EnemyEffect, FriendlyHarm, Exposure, Position, Resources, Tempo, Times;
  }

  lemma BaseIsWorth(f: Features, p: Profile, actorValue: real, allyValue: real)
    requires ValidFeatures(f) && ValidProfile(p) && actorValue > 0.0 && allyValue > 0.0
    requires EvaluateComponents(Components(f, p, actorValue, allyValue)).Ok?
    ensures Sum(EvaluateComponents(Components(f, p, actorValue, allyValue)).value, SelectionValue)
            == Worth(f, p, actorValue, allyValue)
  {
    hide Components, Times, Sum, EvaluateComponents, ValidFeatures, AllAverage, Worth;
    AllMeans(f, p, actorValue, allyValue);
    SixAverage(Components(f, p, actorValue, allyValue), p, Means(f, p, actorValue, allyValue));
    WorthOfMeans(f, p, actorValue, allyValue);
  }

  lemma SixComponents(f: Features, p: Profile, actorValue: real, allyValue: real)
    ensures |Components(f, p, actorValue, allyValue)| == 6
  {
  }

  lemma PenaltyIsLoss(v: MetricRange, k: real)
    requires Multiply(v, k).Ok?
    ensures PenaltySelection(Multiply(v, k).value) == Times(LossOf(v, true), k)
  {
    MultiplyParts(v, k);
    hide Multiply, Times;
  }

  /** The death probability may exceed the profile's limit, if it sets one. */
  predicate TooDeadly(f: Features, p: Profile) {
    p.maxSelfDeathProbability.Some? && p.maxSelfDeathProbability.value < f.selfDeathProbability.maximum
  }

  /**
   * The score of valid features, written out: the base value weighs the six means of scaled metrics, the tail
   * risk is charged at the actor's value, and the guardrail looks at the worst chance of dying.
   */
  lemma ScoreIsWorth(f: Features, p: Profile, actorValue: real, allyValue: real)
    requires ValidFeatures(f) && ValidProfile(p) && actorValue > 0.0 && allyValue > 0.0
    ensures var r := Score(f, p, actorValue, allyValue);
            && r.Ok?
            && r.value.baseSelection == Worth(f, p, actorValue, allyValue)
            && r.value.selectionPenalty
               == Times(LossOf(f.selfDeathProbability, true), Times(p.tailRiskWeight, actorValue))
            && r.value.irreversibleCost == f.ammoConsumed + f.chargesConsumed
            && (r.value.guardrailExcluded <==> TooDeadly(f, p))
  {
    var multiplier, cs := Times(p.tailRiskWeight, actorValue), Components(f, p, actorValue, allyValue);
    ScoreSound(f, p, actorValue, allyValue);
    ScoreRecords(f, p, multiplier, cs);
    BaseIsWorth(f, p, actorValue, allyValue);
    PenaltyIsLoss(f.selfDeathProbability, multiplier);
    hide ScoreWith, Components, Sum, Scored, Worth, EvaluateComponents, LossOf, Times, ValidFeatures, AllValid;
  }

  lemma NegatedTimes(x: real, y: real)
    ensures Times(-x, y) == -Times(x, y)
  {
  }

  // ----- The explanation -----

  lemma {:induction false} ComponentsAreEvaluated(cs: seq<Component>)
    requires EvaluateComponents(cs).Ok?
    ensures forall i :: 0 <= i < |cs| ==> EvaluateComponent(cs[i]) == Ok(EvaluateComponents(cs).value[i])
  {
    hide EvaluateComponent;
    if cs != [] {
      ComponentsAreEvaluated(cs[..|cs| - 1]);
    }
  }

  /** The facts of an explanation, in the order they are given. */
  function Facts(xs: seq<real>, w: Weights, risk: real, doubt: real): seq<Fact>
    requires |xs| == 6
  {
    [Fact("enemy_effect", Times(xs[0], w.enemyEffect)),
     Fact("immediate_friendly_harm", Times(xs[1], w.friendlyHarm)),
     Fact("post_action_exposure", Times(xs[2], w.exposure)),
     Fact("position_control_ally_protection", Times(xs[3], w.position)),
     Fact("resource_fat_future_capacity", Times(xs[4], w.resources)),
     Fact("tempo_turn_order", Times(xs[5], w.tempo)),
     Fact("tail_risk_penalty", -risk), Fact("uncertainty_robustness_adjustment", -doubt)]
  }

  lemma OneExplained(cs: seq<Component>, i: nat, weight: real, x: real)
    requires EvaluateComponents(cs).Ok? && i < |cs| && Averages(cs[i], weight, x) && weight >= 0.0
    ensures SelectionValue(EvaluateComponents(cs).value[i]) == Times(x, weight)
  {
    ComponentsAreEvaluated(cs);
    hide Mean, AllSigned, Times, EvaluateComponents, EvaluateComponent, SelectionValue;
    ComponentIsMean(cs[i]);
  }

  /** The six selected values are the six means, weighted. */
  ghost predicate SelectsMeans(vs: seq<MetricRange>, xs: seq<real>, w: Weights)
    requires |vs| == 6 && |xs| == 6
  {
    && SelectionValue(vs[0]) == Times(xs[0], w.enemyEffect) && SelectionValue(vs[1]) == Times(xs[1], w.friendlyHarm)
    && SelectionValue(vs[2]) == Times(xs[2], w.exposure) && SelectionValue(vs[3]) == Times(xs[3], w.position)
    && SelectionValue(vs[4]) == Times(xs[4], w.resources) && SelectionValue(vs[5]) == Times(xs[5], w.tempo)
  }

  lemma MeansAreSelected(cs: seq<Component>, p: Profile, xs: seq<real>)
    requires |cs| == 6 && |xs| == 6 && AllAverage(cs, p, xs) && ValidProfile(p) && EvaluateComponents(cs).Ok?
    ensures SelectsMeans(EvaluateComponents(cs).value, xs, p.weights)
  {
    hide Averages, Times, EvaluateComponents, SelectionValue;
    OneExplained(cs, 0, p.weights.enemyEffect, xs[0]);
    OneExplained(cs, 1, p.weights.friendlyHarm, xs[1]);
    OneExplained(cs, 2, p.weights.exposure, xs[2]);
    OneExplained(cs, 3, p.weights.position, xs[3]);
    OneExplained(cs, 4, p.weights.resources, xs[4]);
    OneExplained(cs, 5, p.weights.tempo, xs[5]);
  }

  lemma ScoreRecordsFacts(f: Features, p: Profile, multiplier: real, cs: seq<Component>)
    ensures var r := ScoreWith(f, p, multiplier, cs);
            r.Ok? ==>
              && EvaluateComponents(cs).Ok?
              && r.value.explanation
              == Explain(cs, EvaluateComponents(cs).value)
                 + [Fact("tail_risk_penalty", -r.value.selectionPenalty),
                    Fact("uncertainty_robustness_adjustment", -r.value.uncertaintyPenalty)]
  {
    ScoredByParts(f, p, multiplier, cs);
    hide ScoreWith, Explain, EvaluateComponents, Add, Multiply, Subtract, Shift, Sum, PenaltySelection, Times;
  }

  predicate Named(cs: seq<Component>) {
    && |cs| == 6
    && cs[0].componentId == "enemy_effect" && cs[1].componentId == "immediate_friendly_harm"
    && cs[2].componentId == "post_action_exposure" && cs[3].componentId == "position_control_ally_protection"
    && cs[4].componentId == "resource_fat_future_capacity" && cs[5].componentId == "tempo_turn_order"
  }

  lemma NamesOfComponents(f: Features, p: Profile, actorValue: real, allyValue: real)
    ensures Named(Components(f, p, actorValue, allyValue))
  {
  }

  lemma FactsOfMeans(cs: seq<Component>, vs: seq<MetricRange>, xs: seq<real>, w: Weights, risk: real, doubt: real)
    requires Named(cs) && |vs| == 6 && |xs| == 6 && SelectsMeans(vs, xs, w)
    ensures Explain(cs, vs) + [Fact("tail_risk_penalty", -risk), Fact("uncertainty_robustness_adjustment", -doubt)]
            == Facts(xs, w, risk, doubt)
  {
    hide Times, SelectionValue;
  }

  /** The explanation names each component with its weighted mean, and what is charged for risk and for doubt. */
  lemma ScoreIsExplained(f: Features, p: Profile, actorValue: real, allyValue: real)
    requires ValidFeatures(f) && ValidProfile(p) && actorValue > 0.0 && allyValue > 0.0
    ensures var r := Score(f, p, actorValue, allyValue);
            r.Ok? && r.value.explanation == Facts(Means(f, p, actorValue, allyValue), p.weights,
                                                  r.value.selectionPenalty, r.value.uncertaintyPenalty)
  {
    hide Components, Means, ScoreWith, EvaluateComponents, Explain, Facts, SelectsMeans, Named, AllAverage, Scored,
      AllValid, ValidFeatures, Sum;
    var multiplier, cs := Times(p.tailRiskWeight, actorValue), Components(f, p, actorValue, allyValue);
    ScoreSound(f, p, actorValue, allyValue);
    ScoreRecordsFacts(f, p, multiplier, cs);
    AllMeans(f, p, actorValue, allyValue);
    SixMeans(f, p, actorValue, allyValue);
    NamesOfComponents(f, p, actorValue, allyValue);
    MeansAreSelected(cs, p, Means(f, p, actorValue, allyValue));
    var c := ScoreWith(f, p, multiplier, cs).value;
    FactsOfMeans(cs, EvaluateComponents(cs).value, Means(f, p, actorValue, allyValue), p.weights,
                 c.selectionPenalty, c.uncertaintyPenalty);
  }

  lemma SixMeans(f: Features, p: Profile, actorValue: real, allyValue: real)
    requires ValidProfile(p)
    ensures |Means(f, p, actorValue, allyValue)| == 6
  {
  }
}
