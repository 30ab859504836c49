/** Scoring one candidate: six weighted components, tail risk and the uncertainty adjustment. */
module Scoring {
  import opened Common
  import opened Reals
  import opened Sums
  import opened MetricRanges

  /** The feature metrics that scoring reads. */
  datatype Features = Features(
    actionId: string,
    enemyHpDamage: MetricRange, enemyArmorDamage: MetricRange, killProbability: MetricRange,
    selfHpDamage: MetricRange, allyHpDamage: MetricRange,
    selfDeathProbability: MetricRange, interruptionProbability: MetricRange,
    adjacentHostilePressure: MetricRange, hostileZocPressure: MetricRange, rangedLosExposure: MetricRange,
    elevationChange: MetricRange, elevationAdvantage: MetricRange, elevationDisadvantage: MetricRange,
    createdScreenLinks: MetricRange, lostScreenLinks: MetricRange,
    flankedHostiles: MetricRange, openRepositionTiles: MetricRange,
    remainingActionPoints: MetricRange, fatigueHeadroom: MetricRange,
    feasibleTemplates: MetricRange, templateCount: nat, ammoConsumed: int, chargesConsumed: int,
    actorHasWaited: MetricRange, actorMayWait: MetricRange, turnEnded: MetricRange)

  datatype Weights = Weights(
    enemyEffect: real, friendlyHarm: real, exposure: real, position: real, resources: real, tempo: real)

  datatype Scales = Scales(
    hpDamage: real, armorDamage: real, hostilePressure: real, rangedExposure: real, elevationDelta: real,
    elevationContacts: real, formationLinks: real, flankedHostiles: real, openRepositionTiles: real,
    actionPoints: real, fatigueHeadroom: real, resourceUnits: real)

  datatype Profile = Profile(
    weights: Weights, scales: Scales, tailRiskWeight: real, uncertaintyWeight: real,
    nearTieMargin: real, maxSelfDeathProbability: Option<real>)

  /** What the profile's own construction checks. */
  predicate ValidProfile(p: Profile) {
    && p.weights.enemyEffect >= 0.0 && p.weights.friendlyHarm >= 0.0 && p.weights.exposure >= 0.0
    && p.weights.position >= 0.0 && p.weights.resources >= 0.0 && p.weights.tempo >= 0.0
    && p.tailRiskWeight >= 0.0 && p.uncertaintyWeight >= 0.0 && p.nearTieMargin >= 0.0
    && p.scales.hpDamage > 0.0 && p.scales.armorDamage > 0.0 && p.scales.hostilePressure > 0.0
    && p.scales.rangedExposure > 0.0 && p.scales.elevationDelta > 0.0 && p.scales.elevationContacts > 0.0
    && p.scales.formationLinks > 0.0 && p.scales.flankedHostiles > 0.0 && p.scales.openRepositionTiles > 0.0
    && p.scales.actionPoints > 0.0 && p.scales.fatigueHeadroom > 0.0 && p.scales.resourceUnits > 0.0
    && (p.maxSelfDeathProbability.Some? ==> 0.0 <= p.maxSelfDeathProbability.value <= 1.0)
  }

  predicate ValidFeatures(f: Features) {
    && Valid(f.enemyHpDamage) && Valid(f.enemyArmorDamage) && Valid(f.killProbability)
    && Valid(f.selfHpDamage) && Valid(f.allyHpDamage)
    && Valid(f.selfDeathProbability) && Valid(f.interruptionProbability)
    && Valid(f.adjacentHostilePressure) && Valid(f.hostileZocPressure) && Valid(f.rangedLosExposure)
    && Valid(f.elevationChange) && Valid(f.elevationAdvantage) && Valid(f.elevationDisadvantage)
    && Valid(f.createdScreenLinks) && Valid(f.lostScreenLinks)
    && Valid(f.flankedHostiles) && Valid(f.openRepositionTiles)
    && Valid(f.remainingActionPoints) && Valid(f.fatigueHeadroom) && Valid(f.feasibleTemplates)
    && Valid(f.actorHasWaited) && Valid(f.actorMayWait) && Valid(f.turnEnded)
  }

  /** One normalised term: the metric times `factor`, over `scale`, signed by `direction`. */
  datatype Term = Term(metric: MetricRange, factor: real, scale: real, direction: real)

  datatype Component = Component(componentId: string, terms: seq<Term>, weight: real)

  predicate ValidTerm(t: Term) {
    Valid(t.metric) && t.factor >= 0.0 && t.scale > 0.0
  }

  function Gain(metric: MetricRange, scale: real): Term {
    Term(metric, 1.0, scale, 1.0)
  }

  function Loss(metric: MetricRange, scale: real): Term {
    Term(metric, 1.0, scale, -1.0)
  }

  function Components(f: Features, p: Profile, actorValue: real, allyValue: real): seq<Component> {
    var s := p.scales;
    [Component("enemy_effect",
       [Gain(f.enemyHpDamage, s.hpDamage), Gain(f.enemyArmorDamage, s.armorDamage), Gain(f.killProbability, 1.0)],
       p.weights.enemyEffect),
     Component("immediate_friendly_harm",
       [Term(f.selfHpDamage, actorValue, s.hpDamage, -1.0), Term(f.allyHpDamage, allyValue, s.hpDamage, -1.0),
        Loss(f.interruptionProbability, 1.0)],
       p.weights.friendlyHarm),
     Component("post_action_exposure",
       [Loss(f.adjacentHostilePressure, s.hostilePressure), Loss(f.hostileZocPressure, s.hostilePressure),
        Loss(f.rangedLosExposure, s.rangedExposure)],
       p.weights.exposure),
     Component("position_control_ally_protection",
       [Gain(f.elevationChange, s.elevationDelta), Gain(f.elevationAdvantage, s.elevationContacts),
        Loss(f.elevationDisadvantage, s.elevationContacts), Gain(f.createdScreenLinks, s.formationLinks),
        Loss(f.lostScreenLinks, s.formationLinks), Gain(f.flankedHostiles, s.flankedHostiles),
        Gain(f.openRepositionTiles, s.openRepositionTiles)],
       p.weights.position),
     Component("resource_fat_future_capacity",
       [Gain(f.remainingActionPoints, s.actionPoints), Gain(f.fatigueHeadroom, s.fatigueHeadroom),
        Gain(f.feasibleTemplates, RMax(1.0, f.templateCount as real)),
        Loss(ExactRange(f.ammoConsumed as real), s.resourceUnits),
        Loss(ExactRange(f.chargesConsumed as real), s.resourceUnits)],
       p.weights.resources),
     Component("tempo_turn_order",
       [Gain(f.actorHasWaited, 1.0), Gain(f.actorMayWait, 1.0), Loss(f.turnEnded, 1.0)],
       p.weights.tempo)]
  }

  function EvaluateTerm(t: Term): Result<MetricRange, string> {
    if t.scale <= 0.0 then Err("scale must be positive")
    else match Multiply(t.metric, t.factor)
      case Err(e) => Err(e)
      case Ok(scaled) => Normalized(scaled, t.scale, t.direction)
  }

  function EvaluateTerms(ts: seq<Term>): Result<seq<MetricRange>, string> {
    if ts == [] then Ok([])
    else match EvaluateTerms(ts[..|ts| - 1])
      case Err(e) => Err(e)
      case Ok(front) =>
        match EvaluateTerm(ts[|ts| - 1])
        case Err(e) => Err(e)
        case Ok(last) => Ok(front + [last])
  }

  /** A component's weighted range. */
  function EvaluateComponent(c: Component): Result<MetricRange, string> {
    match EvaluateTerms(c.terms)
    case Err(e) => Err(e)
    case Ok(ranges) =>
      match Average(ranges)
      case Err(e) => Err(e)
      case Ok(average) => Weighted(average, c.weight)
  }

  function EvaluateComponents(cs: seq<Component>): (r: Result<seq<MetricRange>, string>)
    ensures r.Ok? ==> |r.value| == |cs|
  {
    if cs == [] then Ok([])
    else match EvaluateComponents(cs[..|cs| - 1])
      case Err(e) => Err(e)
      case Ok(front) =>
        match EvaluateComponent(cs[|cs| - 1])
        case Err(e) => Err(e)
        case Ok(last) => Ok(front + [last])
  }

  /** The expectation where there is one, else the cautious end. */
  function SelectionValue(v: MetricRange): real {
    if v.expected.Some? then v.expected.value else v.selectionMinimum
  }

  function PenaltySelection(v: MetricRange): real {
    if v.expected.Some? then v.expected.value else v.selectionMaximum
  }

  datatype Fact = Fact(componentId: string, contribution: real)

  datatype Candidate = Candidate(
    actionId: string, weighted: seq<MetricRange>, tacticalRange: MetricRange, baseSelection: real,
    penalty: MetricRange, selectionPenalty: real, uncertaintySpan: real, uncertaintyPenalty: real,
    rankingValue: real, rankingRange: MetricRange, irreversibleCost: int,
    guardrailExcluded: bool, explanation: seq<Fact>, dominatedBy: Option<string>)

  function Explain(cs: seq<Component>, vs: seq<MetricRange>): seq<Fact>
    requires |cs| == |vs|
  {
    seq(|cs|, i requires 0 <= i < |cs| => Fact(cs[i].componentId, SelectionValue(vs[i])))
  }

  function Score(f: Features, p: Profile, actorValue: real, allyValue: real): Result<Candidate, string> {
    ScoreWith(f, p, Times(p.tailRiskWeight, actorValue), Components(f, p, actorValue, allyValue))
  }

  /** Scoring, given the candidate's components and its tail-risk multiplier. */
  function ScoreWith(f: Features, p: Profile, multiplier: real, components: seq<Component>): Result<Candidate, string> {
    match EvaluateComponents(components)
    case Err(e) => Err(e)
    case Ok(weighted) =>
      match (Add(weighted), Multiply(f.selfDeathProbability, multiplier))
      case (Ok(tactical), Ok(penalty)) => ScoreParts(f, p, components, weighted, tactical, penalty)
      case (Err(e), _) => Err(e)
      case (_, Err(e)) => Err(e)
  }

  function ScoreParts(f: Features, p: Profile, components: seq<Component>, weighted: seq<MetricRange>,
                      tactical: MetricRange, penalty: MetricRange): Result<Candidate, string>
    requires |components| == |weighted|
  {
    var base := Sum(weighted, SelectionValue);
    match Subtract(tactical, penalty)
    case Err(e) => Err(e)
    case Ok(before) =>
      var span := before.epistemicMaximum - before.epistemicMinimum;
      var uncertainty := Times(p.uncertaintyWeight, span);
      match Shift(before, -uncertainty)
      case Err(e) => Err(e)
      case Ok(ranking) =>
        Ok(Candidate(
          f.actionId, weighted, tactical, base, penalty, PenaltySelection(penalty), span, uncertainty,
          base - PenaltySelection(penalty) - uncertainty, ranking, f.ammoConsumed + f.chargesConsumed,
          p.maxSelfDeathProbability.Some? && f.selfDeathProbability.maximum > p.maxSelfDeathProbability.value,
          Explain(components, weighted)
          + [Fact("tail_risk_penalty", -PenaltySelection(penalty)),
             Fact("uncertainty_robustness_adjustment", -uncertainty)],
          None))
  }

  // ----- Scoring is sound -----

  lemma TermSound(t: Term)
    requires ValidTerm(t)
    ensures EvaluateTerm(t).Ok? && Valid(EvaluateTerm(t).value)
    ensures -1.0 <= EvaluateTerm(t).value.minimum && EvaluateTerm(t).value.maximum <= 1.0
  {
    WeightedSound(t.metric, t.factor);
    NormalizedSound(Multiply(t.metric, t.factor).value, t.scale, t.direction);
  }

  /** Every range is valid and lies within [-1, 1]. */
  predicate UnitRanges(vs: seq<MetricRange>) {
    forall i :: 0 <= i < |vs| ==> Valid(vs[i]) && -1.0 <= vs[i].minimum && vs[i].maximum <= 1.0
  }

  lemma {:induction false} TermsSound(ts: seq<Term>)
    requires forall i :: 0 <= i < |ts| ==> ValidTerm(ts[i])
    ensures EvaluateTerms(ts).Ok? && |EvaluateTerms(ts).value| == |ts| && UnitRanges(EvaluateTerms(ts).value)
  {
    if ts != [] {
      TermsSound(ts[..|ts| - 1]);
      TermSound(ts[|ts| - 1]);
    }
  }

  lemma {:induction false} UnitSums(vs: seq<MetricRange>)
    requires UnitRanges(vs)
    ensures -(|vs| as real) <= Sum(vs, Low(Raw)) && Sum(vs, High(Raw)) <= |vs| as real
  {
    if vs != [] {
      UnitSums(vs[..|vs| - 1]);
    }
  }

  lemma UnitQuotient(x: real, y: real, n: real)
    requires n > 0.0 && -n <= x && y <= n
    ensures -1.0 <= x / n && y / n <= 1.0
  {
    Divide(-n, x, n);
    Divide(y, n, n);
    SelfQuotient(n);
    assert -n / n == -1.0;
  }

  lemma AverageSound(vs: seq<MetricRange>)
    requires UnitRanges(vs)
    ensures Average(vs).Ok? && UnitRanges([Average(vs).value])
  {
    if vs != [] {
      PooledSound(vs, |vs| as real);
      UnitSums(vs);
      UnitQuotient(Sum(vs, Low(Raw)), Sum(vs, High(Raw)), |vs| as real);
    }
  }

  /** A component's range is valid and no wider than its weight either way. */
  lemma ComponentSound(c: Component)
    requires c.weight >= 0.0 && forall i :: 0 <= i < |c.terms| ==> ValidTerm(c.terms[i])
    ensures EvaluateComponent(c).Ok? && Valid(EvaluateComponent(c).value)
    ensures -c.weight <= EvaluateComponent(c).value.minimum && EvaluateComponent(c).value.maximum <= c.weight
  {
    TermsSound(c.terms);
    var ranges := EvaluateTerms(c.terms).value;
    AverageSound(ranges);
    var average := Average(ranges).value;
    assert UnitRanges([average]) && [average][0] == average;
    WeightedUnit(average, c.weight);
  }

  lemma WeightedUnit(v: MetricRange, w: real)
    requires Valid(v) && -1.0 <= v.minimum && v.maximum <= 1.0 && w >= 0.0
    ensures Weighted(v, w).Ok? && Valid(Weighted(v, w).value)
    ensures -w <= Weighted(v, w).value.minimum && Weighted(v, w).value.maximum <= w
  {
    WeightedIsValid(v, w);
    UnitTimes(v.minimum, w);
    UnitTimes(v.maximum, w);
  }

  lemma UnitTimes(x: real, w: real)
    requires w >= 0.0
    ensures x >= -1.0 ==> -w <= Times(x, w)
    ensures x <= 1.0 ==> Times(x, w) <= w
  {
    TimesOrdered(w, -1.0, RMax(x, -1.0));
    TimesOrdered(w, RMin(x, 1.0), 1.0);
    Commute(x, w);
  }

  predicate ValidComponents(cs: seq<Component>) {
    forall i :: 0 <= i < |cs| ==>
      cs[i].weight >= 0.0 && forall j :: 0 <= j < |cs[i].terms| ==> ValidTerm(cs[i].terms[j])
  }

  function WeightOf(c: Component): real {
    c.weight
  }

  lemma {:induction false} ComponentsSound(cs: seq<Component>)
    requires ValidComponents(cs)
    ensures EvaluateComponents(cs).Ok?
    ensures var vs := EvaluateComponents(cs).value;
            && |vs| == |cs| && AllValid(vs)
            && Sum(vs, Low(Raw)) <= Sum(vs, SelectionValue) <= Sum(vs, High(Raw))
            && -Sum(cs, WeightOf) <= Sum(vs, SelectionValue) <= Sum(cs, WeightOf)
  {
    if cs != [] {
      ComponentsSound(cs[..|cs| - 1]);
      ComponentSound(cs[|cs| - 1]);
      var front, last := EvaluateComponents(cs[..|cs| - 1]).value, EvaluateComponent(cs[|cs| - 1]).value;
      assert (front + [last])[..|front|] == front;
    }
  }

  lemma ComponentsValid(f: Features, p: Profile, actorValue: real, allyValue: real)
    requires ValidFeatures(f) && ValidProfile(p) && actorValue > 0.0 && allyValue > 0.0
    ensures ValidComponents(Components(f, p, actorValue, allyValue))
  {
    ExactIsConstructed(f.ammoConsumed as real);
    ExactIsConstructed(f.chargesConsumed as real);
  }

  /** What scoring guarantees about a candidate, and all that comparing candidates relies on. */
  predicate Scored(c: Candidate) {
    && Valid(c.tacticalRange) && Valid(c.penalty) && Valid(c.rankingRange)
    && Within(c.tacticalRange, Raw, c.baseSelection)
    && Within(c.penalty, Raw, c.selectionPenalty)
    && Within(c.rankingRange, Raw, c.rankingValue)
    && c.uncertaintySpan >= 0.0
    && c.rankingValue == c.baseSelection - c.selectionPenalty - c.uncertaintyPenalty
  }

  function Contribution(f: Fact): real {
    f.contribution
  }

  /** Scoring valid components succeeds; every range built on the way is valid. */
  lemma ScoreWithSound(f: Features, p: Profile, multiplier: real, components: seq<Component>)
    requires Valid(f.selfDeathProbability) && p.uncertaintyWeight >= 0.0
    requires multiplier >= 0.0 && ValidComponents(components)
    ensures ScoreWith(f, p, multiplier, components).Ok?
    ensures var c := ScoreWith(f, p, multiplier, components).value;
            && Scored(c) && AllValid(c.weighted)
            && -Sum(components, WeightOf) <= c.baseSelection <= Sum(components, WeightOf)
            && Sum(c.explanation, Contribution) == c.rankingValue
  {
    ComponentsSound(components);
    var weighted := EvaluateComponents(components).value;
    AddSound(weighted);
    WeightedIsValid(f.selfDeathProbability, multiplier);
    ScorePartsSound(
      f, p, components, weighted, Add(weighted).value, Multiply(f.selfDeathProbability, multiplier).value);
  }

  lemma ScoreWithSucceeds(f: Features, p: Profile, multiplier: real, components: seq<Component>)
    requires Valid(f.selfDeathProbability) && p.uncertaintyWeight >= 0.0
    requires multiplier >= 0.0 && ValidComponents(components)
    ensures ScoreWith(f, p, multiplier, components).Ok?
  {
    ScoreWithSound(f, p, multiplier, components);
  }

  function TotalWeight(w: Weights): real {
    w.enemyEffect + w.friendlyHarm + w.exposure + w.position + w.resources + w.tempo
  }

  lemma ComponentWeights(f: Features, p: Profile, actorValue: real, allyValue: real)
    ensures Sum(Components(f, p, actorValue, allyValue), WeightOf) == TotalWeight(p.weights)
  {
    var cs := Components(f, p, actorValue, allyValue);
    var weights := [p.weights.enemyEffect, p.weights.friendlyHarm, p.weights.exposure,
                    p.weights.position, p.weights.resources, p.weights.tempo];
    SumMatches(cs, WeightOf, weights, Same);
    SixSum(weights);
  }

  lemma SumUpTo(w: seq<real>, k: nat)
    requires 0 < k <= |w|
    ensures Sum(w[..k], Same) == Sum(w[..k - 1], Same) + w[k - 1]
  {
    assert w[..k][..k - 1] == w[..k - 1];
  }

  lemma SixSum(w: seq<real>)
    requires |w| == 6
    ensures Sum(w, Same) == w[0] + w[1] + w[2] + w[3] + w[4] + w[5]
  {
    SumUpTo(w, 1);
    SumUpTo(w, 2);
    SumUpTo(w, 3);
    SumUpTo(w, 4);
    SumUpTo(w, 5);
    SumUpTo(w, 6);
    assert w[..6] == w && w[..0] == [];
  }

  /**
   * Valid features always score: every range built on the way is valid, the ranking value lies in its
   * range, the base value is bounded by the weights, and the explanation adds up to the ranking value.
   */
  lemma ScoreSound(f: Features, p: Profile, actorValue: real, allyValue: real)
    requires ValidFeatures(f) && ValidProfile(p) && actorValue > 0.0 && allyValue > 0.0
    ensures Score(f, p, actorValue, allyValue).Ok?
    ensures var c := Score(f, p, actorValue, allyValue).value;
            && Scored(c) && AllValid(c.weighted)
            && -TotalWeight(p.weights) <= c.baseSelection <= TotalWeight(p.weights)
            && Sum(c.explanation, Contribution) == c.rankingValue
  {
    ComponentsValid(f, p, actorValue, allyValue);
    ComponentWeights(f, p, actorValue, allyValue);
    TimesNonnegative(p.tailRiskWeight, actorValue);
    ScoreWithSound(f, p, Times(p.tailRiskWeight, actorValue), Components(f, p, actorValue, allyValue));
  }

  lemma AddSound(vs: seq<MetricRange>)
    requires AllValid(vs)
    ensures Add(vs).Ok? && Valid(Add(vs).value)
    ensures Add(vs).value.minimum == Sum(vs, Low(Raw)) && Add(vs).value.maximum == Sum(vs, High(Raw))
  {
    if vs != [] {
      PooledSound(vs, 1.0);
    }
  }

  lemma DifferenceInside(l: MetricRange, r: MetricRange, x: real, y: real)
    requires Valid(l) && Valid(r) && Within(l, Raw, x) && Within(r, Raw, y)
    ensures Subtract(l, r).Ok? && Valid(Subtract(l, r).value) && Within(Subtract(l, r).value, Raw, x - y)
  {
    SubtractSound(l, r);
  }

  lemma ShiftInside(v: MetricRange, x: real, amount: real)
    requires Valid(v) && Within(v, Raw, x)
    ensures Shift(v, amount).Ok? && Valid(Shift(v, amount).value) && Within(Shift(v, amount).value, Raw, x + amount)
  {
    ShiftSound(v, amount);
  }

  lemma PenaltyInside(v: MetricRange)
    requires Valid(v)
    ensures Within(v, Raw, PenaltySelection(v))
  {
  }

  /** The ranking range is valid and holds the ranking value, whatever is charged for uncertainty. */
  lemma RankingInside(tactical: MetricRange, penalty: MetricRange, base: real, charge: real)
    requires Valid(tactical) && Valid(penalty) && Within(tactical, Raw, base)
    ensures Subtract(tactical, penalty).Ok? && Valid(Subtract(tactical, penalty).value)
    ensures var r := Shift(Subtract(tactical, penalty).value, -charge);
            r.Ok? && Valid(r.value) && Within(r.value, Raw, base - PenaltySelection(penalty) - charge)
  {
    PenaltyInside(penalty);
    DifferenceInside(tactical, penalty, base, PenaltySelection(penalty));
    ShiftInside(Subtract(tactical, penalty).value, base - PenaltySelection(penalty), -charge);
  }

  lemma ScorePartsSound(f: Features, p: Profile, components: seq<Component>, weighted: seq<MetricRange>,
                        tactical: MetricRange, penalty: MetricRange)
    requires |components| == |weighted| && Valid(tactical) && Valid(penalty)
    requires Within(tactical, Raw, Sum(weighted, SelectionValue))
    ensures ScoreParts(f, p, components, weighted, tactical, penalty).Ok?
    ensures var c := ScoreParts(f, p, components, weighted, tactical, penalty).value;
            && Scored(c) && c.weighted == weighted && c.baseSelection == Sum(weighted, SelectionValue)
            && Sum(c.explanation, Contribution) == c.rankingValue
  {
    hide Sum, Shift, Subtract, Explain, PenaltySelection, Valid;
    PenaltyInside(penalty);
    DifferenceInside(tactical, penalty, Sum(weighted, SelectionValue), PenaltySelection(penalty));
    var charge := Times(p.uncertaintyWeight, EpistemicSpread(Subtract(tactical, penalty).value));
    RankingInside(tactical, penalty, Sum(weighted, SelectionValue), charge);
    ExplanationAddsUp(components, weighted, -PenaltySelection(penalty), -charge);
  }

  function EpistemicSpread(v: MetricRange): real {
    v.epistemicMaximum - v.epistemicMinimum
  }

  /** The span is what is not known about the value and about the risk together, and it is what is charged for. */
  predicate SpreadCharged(c: Candidate, weight: real) {
    && c.uncertaintySpan == EpistemicSpread(c.tacticalRange) + EpistemicSpread(c.penalty)
    && c.uncertaintyPenalty == Times(weight, c.uncertaintySpan)
    && c.rankingRange.minimum == c.tacticalRange.minimum - c.penalty.maximum - c.uncertaintyPenalty
    && c.rankingRange.maximum == c.tacticalRange.maximum - c.penalty.minimum - c.uncertaintyPenalty
  }

  lemma PartsCharge(f: Features, p: Profile, components: seq<Component>, weighted: seq<MetricRange>,
                    tactical: MetricRange, penalty: MetricRange)
    requires |components| == |weighted| && ScoreParts(f, p, components, weighted, tactical, penalty).Ok?
    ensures SpreadCharged(ScoreParts(f, p, components, weighted, tactical, penalty).value, p.uncertaintyWeight)
  {
    var before := Subtract(tactical, penalty).value;
    assert EpistemicSpread(before) == EpistemicSpread(tactical) + EpistemicSpread(penalty);
    assert before.minimum == tactical.minimum - penalty.maximum && before.maximum == tactical.maximum - penalty.minimum;
  }

  lemma PartsRecord(f: Features, p: Profile, components: seq<Component>, weighted: seq<MetricRange>,
                    tactical: MetricRange, penalty: MetricRange)
    requires |components| == |weighted|
    ensures var r := ScoreParts(f, p, components, weighted, tactical, penalty);
            r.Ok? ==> r.value.tacticalRange == tactical && r.value.penalty == penalty && r.value.weighted == weighted
  {
  }

  lemma ScoredByParts(f: Features, p: Profile, multiplier: real, components: seq<Component>)
    ensures ScoreWith(f, p, multiplier, components).Ok? ==>
              && EvaluateComponents(components).Ok?
              && Add(EvaluateComponents(components).value).Ok? && Multiply(f.selfDeathProbability, multiplier).Ok?
              && ScoreWith(f, p, multiplier, components)
                 == ScoreParts(f, p, components, EvaluateComponents(components).value,
                                Add(EvaluateComponents(components).value).value,
                                Multiply(f.selfDeathProbability, multiplier).value)
  {
  }

  lemma UncertaintyAddsUp(f: Features, p: Profile, actorValue: real, allyValue: real)
    ensures var r := Score(f, p, actorValue, allyValue);
            r.Ok? ==> SpreadCharged(r.value, p.uncertaintyWeight)
  {
    var multiplier, components := Times(p.tailRiskWeight, actorValue), Components(f, p, actorValue, allyValue);
    ScoredByParts(f, p, multiplier, components);
    if Score(f, p, actorValue, allyValue).Ok? {
      var weighted := EvaluateComponents(components).value;
      PartsCharge(f, p, components, weighted, Add(weighted).value, Multiply(f.selfDeathProbability, multiplier).value);
    }
  }

  lemma ExplanationAddsUp(components: seq<Component>, weighted: seq<MetricRange>, tail: real, doubt: real)
    requires |components| == |weighted|
    ensures Sum(Explain(components, weighted)
                + [Fact("tail_risk_penalty", tail), Fact("uncertainty_robustness_adjustment", doubt)], Contribution)
            == Sum(weighted, SelectionValue) + tail + doubt
  {
    var facts := Explain(components, weighted);
    var t, d := Fact("tail_risk_penalty", tail), Fact("uncertainty_robustness_adjustment", doubt);
    SumMatches(facts, Contribution, weighted, SelectionValue);
    SumAppend(facts, [t, d], Contribution);
    assert [t, d] == [t] + [d];
    SumAppend([t], [d], Contribution);
    SumOne(t, Contribution);
    SumOne(d, Contribution);
  }
}
