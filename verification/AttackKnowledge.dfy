/** Attacking a target whose hit points and armour are only partly known. */
module AttackKnowledge {
  import opened Common
  import opened Reals
  import opened AttackOutcomes
  import opened Sorting

  /** What is known of one integer: its value, a distribution, or an unweighted domain. */
  datatype Known =
    | Exact(value: int)
    | Distribution(items: seq<(int, real)>)
    | Candidates(values: seq<int>)
    | Range(minimum: int, maximum: int)
    | Unknown

  /** One possible value, weighted only when a probability is justified. */
  datatype Possible = Possible(value: int, weight: Option<real>)

  predicate Less(x: int, y: int) {
    x < y
  }

  /** A justified distribution or an unweighted domain; None when nothing is known. */
  function Values(k: Known): Option<seq<Possible>> {
    match k
    case Exact(v) => Some([Possible(v, Some(1.0))])
    case Distribution(items) =>
      Some(seq(|items|, i requires 0 <= i < |items| => Possible(items[i].0, Some(items[i].1))))
    case Candidates(vs) =>
      var sorted := SortBy(Less, vs);
      Some(seq(|sorted|, i requires 0 <= i < |sorted| => Possible(sorted[i], None)))
    case Range(lo, hi) =>
      Some(if hi < lo then [] else seq(hi - lo + 1, i => Possible(lo + i, None)))
    case Unknown => None
  }

  datatype Scenario = Scenario(target: Target, branches: seq<OutcomeBranch>)

  datatype AttackOutcome = AttackOutcome(branches: seq<OutcomeBranch>, scenarios: seq<Scenario>, epistemic: bool)

  datatype Failure = ValueUnknown | MixedKnowledge

  /** One combination of hit points, head armour and body armour, with its joint weight. */
  datatype Case = Case(target: Target, weight: Option<real>)

  function Joint(hp: Possible, head: Possible, body: Possible): Case {
    Case(Target(hp.value, head.value, body.value),
         if hp.weight.Some? && head.weight.Some? && body.weight.Some?
         then Some(Times(Times(hp.weight.value, head.weight.value), body.weight.value)) else None)
  }

  /** All combinations, hit points varying slowest. */
  function Cases(hps: seq<Possible>, heads: seq<Possible>, bodies: seq<Possible>): seq<Case> {
    if hps == [] then [] else Cases(hps[..|hps| - 1], heads, bodies) + CasesAt(hps[|hps| - 1], heads, bodies)
  }

  function CasesAt(hp: Possible, heads: seq<Possible>, bodies: seq<Possible>): seq<Case> {
    if heads == [] then []
    else CasesAt(hp, heads[..|heads| - 1], bodies) + CasesIn(hp, heads[|heads| - 1], bodies)
  }

  function CasesIn(hp: Possible, head: Possible, bodies: seq<Possible>): seq<Case> {
    if bodies == [] then []
    else CasesIn(hp, head, bodies[..|bodies| - 1]) + [Joint(hp, head, bodies[|bodies| - 1])]
  }

  function Weigh(bs: seq<OutcomeBranch>, w: real): seq<OutcomeBranch> {
    if bs == [] then []
    else
      var b := bs[|bs| - 1];
      Weigh(bs[..|bs| - 1], w) + [b.(probability := b.probability * w)]
  }

  /** What evaluating `a` against such a target yields. */
  function Outcome(a: Attack, hp: Known, head: Known, body: Known, playerLegal: bool): Result<AttackOutcome, Failure> {
    var hps, heads, bodies := Values(hp), Values(head), Values(body);
    if hps.None? || heads.None? || bodies.None? then Err(ValueUnknown)
    else
      var cases := Cases(hps.value, heads.value, bodies.value);
      var integrated, scenarios := IntegratedOf(a, cases), ScenariosOf(a, cases);
      if scenarios != [] && integrated != [] then Err(MixedKnowledge)
      else Ok(AttackOutcome(integrated, scenarios,
        scenarios != [] || (playerLegal && !(hp.Exact? && head.Exact? && body.Exact?))))
  }

  /** Integrate the weighted cases and keep the unweighted ones apart. */
  method Evaluate(a: Attack, hp: Known, head: Known, body: Known, playerLegal: bool)
    returns (r: Result<AttackOutcome, Failure>)
    ensures r == Outcome(a, hp, head, body, playerLegal)
    ensures r == Err(ValueUnknown) <==> hp.Unknown? || head.Unknown? || body.Unknown?
    ensures r != Err(MixedKnowledge)
  {
    var hps, heads, bodies := Values(hp), Values(head), Values(body);
    if hps.None? || heads.None? || bodies.None? {
      return Err(ValueUnknown);
    }
    var cases := Cases(hps.value, heads.value, bodies.value);
    var integrated, scenarios := EvaluateCases(a, cases);
    NeverMixed(a, hp, head, body);
    if scenarios != [] && integrated != [] {
      return Err(MixedKnowledge);
    }
    r := Ok(AttackOutcome(integrated, scenarios,
      scenarios != [] || (playerLegal && (!hp.Exact? || !head.Exact? || !body.Exact?))));
  }

  method EvaluateCases(a: Attack, cases: seq<Case>)
    returns (integrated: seq<OutcomeBranch>, scenarios: seq<Scenario>)
    ensures integrated == IntegratedOf(a, cases) && scenarios == ScenariosOf(a, cases)
  {
    integrated, scenarios := [], [];
    for i := 0 to |cases|
      invariant integrated == IntegratedOf(a, cases[..i])
      invariant scenarios == ScenariosOf(a, cases[..i])
    {
      assert cases[..i + 1][..i] == cases[..i];
      var branches := Branches(a.(target := cases[i].target));
      if cases[i].weight.None? {
        scenarios := scenarios + [Scenario(cases[i].target, branches)];
      } else {
        integrated := integrated + Weigh(branches, cases[i].weight.value);
      }
    }
    assert cases[..|cases|] == cases;
  }

  function IntegratedOf(a: Attack, cases: seq<Case>): seq<OutcomeBranch> {
    if cases == [] then []
    else
      var c := cases[|cases| - 1];
      IntegratedOf(a, cases[..|cases| - 1])
      + if c.weight.None? then [] else Weigh(BranchesOf(a.(target := c.target)), c.weight.value)
  }

  function ScenariosOf(a: Attack, cases: seq<Case>): seq<Scenario> {
    if cases == [] then []
    else
      var c := cases[|cases| - 1];
      ScenariosOf(a, cases[..|cases| - 1])
      + if c.weight.None? then [Scenario(c.target, BranchesOf(a.(target := c.target)))] else []
  }

  // ----- Weighted and unweighted knowledge never mix -----

  predicate AllWeighted(ps: seq<Possible>) {
    forall i :: 0 <= i < |ps| ==> ps[i].weight.Some?
  }

  predicate NoneWeighted(ps: seq<Possible>) {
    forall i :: 0 <= i < |ps| ==> ps[i].weight.None?
  }

  predicate CasesWeighted(cases: seq<Case>, weighted: bool) {
    forall i :: 0 <= i < |cases| ==> cases[i].weight.Some? == weighted
  }

  predicate Weighted(k: Known) {
    k.Exact? || k.Distribution?
  }

  /** Knowledge of one field is weighted throughout or not at all, so the same goes for the combinations. */
  lemma CasesUniform(hps: seq<Possible>, heads: seq<Possible>, bodies: seq<Possible>)
    requires AllWeighted(hps) || NoneWeighted(hps)
    requires AllWeighted(heads) || NoneWeighted(heads)
    requires AllWeighted(bodies) || NoneWeighted(bodies)
    ensures CasesWeighted(Cases(hps, heads, bodies), AllWeighted(hps) && AllWeighted(heads) && AllWeighted(bodies))
  {
    if AllWeighted(hps) && AllWeighted(heads) && AllWeighted(bodies) {
      JointsCover(hps, heads, bodies, IsWeighted);
      EachCase(Cases(hps, heads, bodies), IsWeighted);
    } else {
      SomeUnweighted(hps, heads, bodies);
    }
  }

  lemma EachCase(cases: seq<Case>, good: Case -> bool)
    requires forall c :: c in cases ==> good(c)
    ensures forall i :: 0 <= i < |cases| ==> good(cases[i])
  {
  }

  /** One unweighted field is enough to leave every combination unweighted. */
  lemma SomeUnweighted(hps: seq<Possible>, heads: seq<Possible>, bodies: seq<Possible>)
    requires NoneWeighted(hps) || NoneWeighted(heads) || NoneWeighted(bodies)
    ensures CasesWeighted(Cases(hps, heads, bodies), false)
  {
    JointsCover(hps, heads, bodies, IsUnweighted);
    EachCase(Cases(hps, heads, bodies), IsUnweighted);
  }

  /** What holds of every joint possibility holds of every case. */
  lemma {:induction false} JointsCover(
      hps: seq<Possible>, heads: seq<Possible>, bodies: seq<Possible>, good: Case -> bool)
    requires forall hp, head, body :: hp in hps && head in heads && body in bodies ==> good(Joint(hp, head, body))
    ensures forall c :: c in Cases(hps, heads, bodies) ==> good(c)
  {
    if hps != [] {
      JointsCover(hps[..|hps| - 1], heads, bodies, good);
      JointsCoverAt(hps[|hps| - 1], heads, bodies, good);
    }
  }

  lemma {:induction false} JointsCoverAt(hp: Possible, heads: seq<Possible>, bodies: seq<Possible>, good: Case -> bool)
    requires forall head, body :: head in heads && body in bodies ==> good(Joint(hp, head, body))
    ensures forall c :: c in CasesAt(hp, heads, bodies) ==> good(c)
  {
    if heads != [] {
      JointsCoverAt(hp, heads[..|heads| - 1], bodies, good);
      JointsCoverIn(hp, heads[|heads| - 1], bodies, good);
    }
  }

  lemma {:induction false} JointsCoverIn(hp: Possible, head: Possible, bodies: seq<Possible>, good: Case -> bool)
    requires forall body :: body in bodies ==> good(Joint(hp, head, body))
    ensures forall c :: c in CasesIn(hp, head, bodies) ==> good(c)
  {
    if bodies != [] {
      JointsCoverIn(hp, head, bodies[..|bodies| - 1], good);
    }
  }

  predicate IsWeighted(c: Case) {
    c.weight.Some?
  }

  predicate IsUnweighted(c: Case) {
    c.weight.None?
  }

  lemma {:induction false} WeightedLeavesNoScenario(a: Attack, cases: seq<Case>)
    requires CasesWeighted(cases, true)
    ensures ScenariosOf(a, cases) == []
  {
    if cases != [] {
      WeightedLeavesNoScenario(a, cases[..|cases| - 1]);
    }
  }

  lemma {:induction false} UnweightedIntegratesNothing(a: Attack, cases: seq<Case>)
    requires CasesWeighted(cases, false)
    ensures IntegratedOf(a, cases) == []
  {
    if cases != [] {
      UnweightedIntegratesNothing(a, cases[..|cases| - 1]);
    }
  }

  predicate AllFieldsWeighted(hp: Known, head: Known, body: Known) {
    Weighted(hp) && Weighted(head) && Weighted(body)
  }

  /**
   * Weighted knowledge throughout leaves no scenario apart, and any unweighted field leaves nothing
   * integrated: the mixed-knowledge failure cannot happen.
   */
  lemma NeverMixed(a: Attack, hp: Known, head: Known, body: Known)
    requires !hp.Unknown? && !head.Unknown? && !body.Unknown?
    ensures var cases := Cases(Values(hp).value, Values(head).value, Values(body).value);
            && (AllFieldsWeighted(hp, head, body) ==> ScenariosOf(a, cases) == [])
            && (!AllFieldsWeighted(hp, head, body) ==> IntegratedOf(a, cases) == [])
  {
    var hps, heads, bodies := Values(hp).value, Values(head).value, Values(body).value;
    if AllFieldsWeighted(hp, head, body) {
      CasesUniform(hps, heads, bodies);
      WeightedLeavesNoScenario(a, Cases(hps, heads, bodies));
    } else {
      SomeUnweighted(hps, heads, bodies);
      UnweightedIntegratesNothing(a, Cases(hps, heads, bodies));
    }
  }

  // ----- Integration is total expectation -----

  /** `f` looks at what a branch does, not at how likely it is. */
  ghost predicate IgnoresChance(f: OutcomeBranch -> real) {
    forall b: OutcomeBranch, p: real :: f(b.(probability := p)) == f(b)
  }

  /** The case weights' average of the per-case totals of `f`. */
  function CaseTotal(a: Attack, cases: seq<Case>, f: OutcomeBranch -> real): real
    requires CasesWeighted(cases, true)
  {
    if cases == [] then 0.0
    else
      var c := cases[|cases| - 1];
      CaseTotal(a, cases[..|cases| - 1], f) + Times(c.weight.value, Total(BranchesOf(a.(target := c.target)), f))
  }

  lemma WeighTerm(b: OutcomeBranch, w: real, f: OutcomeBranch -> real)
    requires IgnoresChance(f)
    ensures Term(b.(probability := b.probability * w), f) == Times(w, Term(b, f))
  {
    assert f(b.(probability := b.probability * w)) == f(b);
    Rearrange(b.probability, w, f(b));
  }

  lemma {:induction false} WeighTotal(bs: seq<OutcomeBranch>, w: real, f: OutcomeBranch -> real)
    requires IgnoresChance(f)
    ensures Total(Weigh(bs, w), f) == Times(w, Total(bs, f))
  {
    if bs != [] {
      var b, front := bs[|bs| - 1], bs[..|bs| - 1];
      WeighTotal(front, w, f);
      WeighTerm(b, w, f);
      TimesAdd(w, Total(front, f), Term(b, f));
      TotalSnoc(Weigh(front, w), b.(probability := b.probability * w), f);
    }
  }

  lemma TotalSnoc(bs: seq<OutcomeBranch>, b: OutcomeBranch, f: OutcomeBranch -> real)
    ensures Total(bs + [b], f) == Total(bs, f) + Term(b, f)
  {
    assert (bs + [b])[..|bs|] == bs;
  }

  /** Integrated totals are the weighted average of what each possible target would give. */
  lemma {:induction false} IntegratedTotal(a: Attack, cases: seq<Case>, f: OutcomeBranch -> real)
    requires CasesWeighted(cases, true) && IgnoresChance(f)
    ensures Total(IntegratedOf(a, cases), f) == CaseTotal(a, cases, f)
  {
    if cases != [] {
      var c := cases[|cases| - 1];
      IntegratedTotal(a, cases[..|cases| - 1], f);
      TotalAppend(IntegratedOf(a, cases[..|cases| - 1]), Weigh(BranchesOf(a.(target := c.target)), c.weight.value), f);
      WeighTotal(BranchesOf(a.(target := c.target)), c.weight.value, f);
    }
  }

  // ----- Probability is conserved -----

  function Mass(ps: seq<Possible>): real
    requires AllWeighted(ps)
  {
    if ps == [] then 0.0 else Mass(ps[..|ps| - 1]) + ps[|ps| - 1].weight.value
  }

  function CaseMass(cases: seq<Case>): real
    requires CasesWeighted(cases, true)
  {
    if cases == [] then 0.0 else CaseMass(cases[..|cases| - 1]) + cases[|cases| - 1].weight.value
  }

  lemma {:induction false} CaseMassAppend(x: seq<Case>, y: seq<Case>)
    requires CasesWeighted(x, true) && CasesWeighted(y, true)
    ensures CasesWeighted(x + y, true) && CaseMass(x + y) == CaseMass(x) + CaseMass(y)
  {
    if y == [] {
      assert x + y == x;
    } else {
      assert (x + y)[..|x + y| - 1] == x + y[..|y| - 1];
      CaseMassAppend(x, y[..|y| - 1]);
    }
  }

  lemma SingleCaseMass(c: Case)
    requires c.weight.Some?
    ensures CaseMass([c]) == c.weight.value
  {
    assert [c][..0] == [];
  }

  lemma JointWeight(hp: Possible, head: Possible, body: Possible)
    requires hp.weight.Some? && head.weight.Some? && body.weight.Some?
    ensures Joint(hp, head, body).weight
            == Some(Times(body.weight.value, Times(head.weight.value, hp.weight.value)))
  {
    Commute(hp.weight.value, head.weight.value);
    Commute(Times(hp.weight.value, head.weight.value), body.weight.value);
  }

  lemma {:induction false} CasesInMass(hp: Possible, head: Possible, bodies: seq<Possible>)
    requires hp.weight.Some? && head.weight.Some? && AllWeighted(bodies)
    ensures CasesWeighted(CasesIn(hp, head, bodies), true)
    ensures CaseMass(CasesIn(hp, head, bodies)) == Times(Mass(bodies), Times(head.weight.value, hp.weight.value))
  {
    if bodies != [] {
      var front, last := bodies[..|bodies| - 1], bodies[|bodies| - 1];
      CasesInMass(hp, head, front);
      CaseMassAppend(CasesIn(hp, head, front), [Joint(hp, head, last)]);
      SingleCaseMass(Joint(hp, head, last));
      JointWeight(hp, head, last);
      AddTimes(Mass(front), last.weight.value, Times(head.weight.value, hp.weight.value));
    }
  }

  lemma {:induction false} CasesAtMass(hp: Possible, heads: seq<Possible>, bodies: seq<Possible>)
    requires hp.weight.Some? && AllWeighted(heads) && AllWeighted(bodies)
    ensures CasesWeighted(CasesAt(hp, heads, bodies), true)
    ensures CaseMass(CasesAt(hp, heads, bodies)) == Times(Mass(heads), Times(Mass(bodies), hp.weight.value))
  {
    if heads != [] {
      var front, last := heads[..|heads| - 1], heads[|heads| - 1];
      CasesAtMass(hp, front, bodies);
      CasesInMass(hp, last, bodies);
      CaseMassAppend(CasesAt(hp, front, bodies), CasesIn(hp, last, bodies));
      PullOut(last.weight.value, Mass(bodies), hp.weight.value);
      AddTimes(Mass(front), last.weight.value, Times(Mass(bodies), hp.weight.value));
    }
  }

  lemma {:induction false} CasesMass(hps: seq<Possible>, heads: seq<Possible>, bodies: seq<Possible>)
    requires AllWeighted(hps) && AllWeighted(heads) && AllWeighted(bodies)
    ensures CasesWeighted(Cases(hps, heads, bodies), true)
    ensures CaseMass(Cases(hps, heads, bodies)) == Times(Mass(hps), Times(Mass(heads), Mass(bodies)))
  {
    if hps != [] {
      var front, last := hps[..|hps| - 1], hps[|hps| - 1];
      CasesMass(front, heads, bodies);
      CasesAtMass(last, heads, bodies);
      CaseMassAppend(Cases(front, heads, bodies), CasesAt(last, heads, bodies));
      Commute(Mass(bodies), last.weight.value);
      PullOut(last.weight.value, Mass(heads), Mass(bodies));
      AddTimes(Mass(front), last.weight.value, Times(Mass(heads), Mass(bodies)));
    }
  }

  lemma {:induction false} UnitCases(a: Attack, cases: seq<Case>)
    requires CasesWeighted(cases, true) && a.profile.low <= a.profile.high
    ensures CaseTotal(a, cases, One) == CaseMass(cases)
  {
    if cases != [] {
      UnitCases(a, cases[..|cases| - 1]);
      MassIsOneIff(a.(target := cases[|cases| - 1].target));
    }
  }

  /** A known field whose probabilities, if it has any, are nonnegative and add up to exactly 1. */
  predicate Normalised(k: Known) {
    Weighted(k) ==>
      && AllWeighted(Values(k).value) && Mass(Values(k).value) == 1.0
      && forall i :: 0 <= i < |Values(k).value| ==> Values(k).value[i].weight.value >= 0.0
  }

  /**
   * With an orderly damage range: weighted knowledge gives integrated branches of total probability 1
   * and no scenario; any unweighted field gives no integrated branch, and every scenario has mass 1.
   */
  lemma KnowledgeConservesMass(a: Attack, hp: Known, head: Known, body: Known)
    requires !hp.Unknown? && !head.Unknown? && !body.Unknown?
    requires Normalised(hp) && Normalised(head) && Normalised(body)
    requires a.profile.low <= a.profile.high
    ensures var cases := Cases(Values(hp).value, Values(head).value, Values(body).value);
            && (AllFieldsWeighted(hp, head, body) ==>
                  ScenariosOf(a, cases) == [] && Total(IntegratedOf(a, cases), One) == 1.0)
            && (!AllFieldsWeighted(hp, head, body) ==> IntegratedOf(a, cases) == [])
            && forall i :: 0 <= i < |ScenariosOf(a, cases)| ==> Total(ScenariosOf(a, cases)[i].branches, One) == 1.0
  {
    var hps, heads, bodies := Values(hp).value, Values(head).value, Values(body).value;
    var cases := Cases(hps, heads, bodies);
    NeverMixed(a, hp, head, body);
    if Weighted(hp) && Weighted(head) && Weighted(body) {
      CasesMass(hps, heads, bodies);
      IntegratedTotal(a, cases, One);
      UnitCases(a, cases);
    }
    ScenarioMass(a, cases);
  }

  lemma {:induction false} ScenarioMass(a: Attack, cases: seq<Case>)
    requires a.profile.low <= a.profile.high
    ensures forall i :: 0 <= i < |ScenariosOf(a, cases)| ==> Total(ScenariosOf(a, cases)[i].branches, One) == 1.0
  {
    if cases != [] {
      ScenarioMass(a, cases[..|cases| - 1]);
      MassIsOneIff(a.(target := cases[|cases| - 1].target));
    }
  }
}
