/** Which targets an attack on a partly known target is evaluated against, and how they weigh. */
module AttackTargets {
  import opened Common
  import opened Reals
  import opened AttackOutcomes
  import opened AttackKnowledge
  import opened Sorting

  // ----- Which values are considered -----

  /** The known field may have this value. */
  ghost predicate MayBe(k: Known, v: int) {
    match k
    case Exact(x) => v == x
    case Distribution(items) => exists i :: 0 <= i < |items| && items[i].0 == v
    case Candidates(vs) => v in vs
    case Range(lo, hi) => lo <= v <= hi
    case Unknown => false
  }

  /** How many values are considered. */
  function Span(k: Known): nat {
    match k
    case Exact(_) => 1
    case Distribution(items) => |items|
    case Candidates(vs) => |vs|
    case Range(lo, hi) => if lo <= hi then hi - lo + 1 else 0
    case Unknown => 0
  }

  ghost predicate Among(ps: seq<Possible>, v: int) {
    exists p :: p in ps && p.value == v
  }

  lemma ValuesAreAll(k: Known, v: int)
    requires !k.Unknown?
    ensures Among(Values(k).value, v) <==> MayBe(k, v)
    ensures |Values(k).value| == Span(k)
  {
    var ps := Values(k).value;
    match k
    case Exact(x) => assert Possible(x, Some(1.0)) in ps;
    case Distribution(items) =>
      if i :| 0 <= i < |items| && items[i].0 == v {
        assert ps[i] in ps;
      }
    case Candidates(vs) =>
      SortMembers(Less, vs);
      var sorted := SortBy(Less, vs);
      MembersAgree(sorted, vs);
      if v in vs {
        var i :| 0 <= i < |sorted| && sorted[i] == v;
        assert ps[i] in ps;
      }
      if p :| p in ps && p.value == v {
        assert v in sorted;
      }
    case Range(lo, hi) =>
      if lo <= v <= hi {
        assert ps[v - lo] in ps && ps[v - lo].value == v;
      }
  }

  // ----- Which combinations are considered -----

  ghost predicate Joined(hps: seq<Possible>, heads: seq<Possible>, bodies: seq<Possible>, t: Target) {
    Among(hps, t.hp) && Among(heads, t.head) && Among(bodies, t.body)
  }

  ghost predicate HasTarget(cases: seq<Case>, t: Target) {
    exists c :: c in cases && c.target == t
  }

  lemma {:induction false} JointFoundIn(hp: Possible, head: Possible, bodies: seq<Possible>, body: Possible)
    requires body in bodies
    ensures Joint(hp, head, body) in CasesIn(hp, head, bodies)
  {
    var last := |bodies| - 1;
    if body != bodies[last] {
      JointFoundIn(hp, head, bodies[..last], body);
    }
  }

  lemma {:induction false} JointFoundAt(
      hp: Possible, heads: seq<Possible>, head: Possible, bodies: seq<Possible>, body: Possible)
    requires head in heads && body in bodies
    ensures Joint(hp, head, body) in CasesAt(hp, heads, bodies)
  {
    var last := |heads| - 1;
    if head == heads[last] {
      JointFoundIn(hp, head, bodies, body);
    } else {
      JointFoundAt(hp, heads[..last], head, bodies, body);
    }
  }

  lemma {:induction false} JointFound(
      hps: seq<Possible>, hp: Possible, heads: seq<Possible>, head: Possible, bodies: seq<Possible>, body: Possible)
    requires hp in hps && head in heads && body in bodies
    ensures Joint(hp, head, body) in Cases(hps, heads, bodies)
  {
    var last := |hps| - 1;
    if hp == hps[last] {
      JointFoundAt(hp, heads, head, bodies, body);
    } else {
      JointFound(hps[..last], hp, heads, head, bodies, body);
    }
  }

  lemma CasesAreAll(hps: seq<Possible>, heads: seq<Possible>, bodies: seq<Possible>, t: Target)
    ensures HasTarget(Cases(hps, heads, bodies), t) <==> Joined(hps, heads, bodies, t)
  {
    if Joined(hps, heads, bodies, t) {
      var hp :| hp in hps && hp.value == t.hp;
      var head :| head in heads && head.value == t.head;
      var body :| body in bodies && body.value == t.body;
      JointFound(hps, hp, heads, head, bodies, body);
    }
    if HasTarget(Cases(hps, heads, bodies), t) {
      var good := (c: Case) => c.target == t ==> Joined(hps, heads, bodies, t);
      JointsCover(hps, heads, bodies, good);
    }
  }

  function Product(m: nat, n: nat): nat {
    m * n
  }

  lemma ProductGrows(m: nat, n: nat)
    ensures Product(m + 1, n) == Product(m, n) + n && Product(0, n) == 0
  {
  }

  lemma {:induction false} CasesInCount(hp: Possible, head: Possible, bodies: seq<Possible>)
    ensures |CasesIn(hp, head, bodies)| == |bodies|
  {
    if bodies != [] {
      CasesInCount(hp, head, bodies[..|bodies| - 1]);
    }
  }

  lemma {:induction false} CasesAtCount(hp: Possible, heads: seq<Possible>, bodies: seq<Possible>)
    ensures |CasesAt(hp, heads, bodies)| == Product(|heads|, |bodies|)
  {
    ProductGrows(if heads == [] then 0 else |heads| - 1, |bodies|);
    hide Product;
    if heads != [] {
      CasesAtCount(hp, heads[..|heads| - 1], bodies);
      CasesInCount(hp, heads[|heads| - 1], bodies);
    }
  }

  lemma {:induction false} CasesCount(hps: seq<Possible>, heads: seq<Possible>, bodies: seq<Possible>)
    ensures |Cases(hps, heads, bodies)| == Product(|hps|, Product(|heads|, |bodies|))
  {
    ProductGrows(if hps == [] then 0 else |hps| - 1, Product(|heads|, |bodies|));
    hide Product;
    if hps != [] {
      CasesCount(hps[..|hps| - 1], heads, bodies);
      CasesAtCount(hps[|hps| - 1], heads, bodies);
    }
  }

  // ----- The scenarios -----

  function ScenarioFor(a: Attack, t: Target): Scenario {
    Scenario(t, BranchesOf(a.(target := t)))
  }

  lemma {:induction false} ScenariosOfCases(a: Attack, cases: seq<Case>)
    requires CasesWeighted(cases, false)
    ensures |ScenariosOf(a, cases)| == |cases|
    ensures forall i :: 0 <= i < |cases| ==> ScenariosOf(a, cases)[i] == ScenarioFor(a, cases[i].target)
  {
    if cases != [] {
      ScenariosOfCases(a, cases[..|cases| - 1]);
    }
  }

  predicate NothingUnknown(hp: Known, head: Known, body: Known) {
    !hp.Unknown? && !head.Unknown? && !body.Unknown?
  }

  function CasesFor(hp: Known, head: Known, body: Known): seq<Case>
    requires NothingUnknown(hp, head, body)
  {
    Cases(Values(hp).value, Values(head).value, Values(body).value)
  }

  ghost predicate MayBeTarget(hp: Known, head: Known, body: Known, t: Target) {
    MayBe(hp, t.hp) && MayBe(head, t.head) && MayBe(body, t.body)
  }

  lemma CasesForAreAll(hp: Known, head: Known, body: Known)
    requires NothingUnknown(hp, head, body)
    ensures |CasesFor(hp, head, body)| == Product(Span(hp), Product(Span(head), Span(body)))
    ensures forall t :: HasTarget(CasesFor(hp, head, body), t) <==> MayBeTarget(hp, head, body, t)
  {
    var hps, heads, bodies := Values(hp).value, Values(head).value, Values(body).value;
    CasesCount(hps, heads, bodies);
    forall v: int
      ensures Among(hps, v) <==> MayBe(hp, v)
      ensures Among(heads, v) <==> MayBe(head, v)
      ensures Among(bodies, v) <==> MayBe(body, v)
    {
      ValuesAreAll(hp, v);
      ValuesAreAll(head, v);
      ValuesAreAll(body, v);
    }
    ValuesAreAll(hp, 0);
    ValuesAreAll(head, 0);
    ValuesAreAll(body, 0);
    forall t ensures HasTarget(CasesFor(hp, head, body), t) <==> MayBeTarget(hp, head, body, t) {
      CasesAreAll(hps, heads, bodies, t);
    }
    hide Cases, Values, Among, MayBe, Span, Product, HasTarget;
  }

  /** What is kept apart and what is integrated; whichever is not called for is empty. */
  lemma OutcomeOfCases(a: Attack, hp: Known, head: Known, body: Known, playerLegal: bool)
    requires NothingUnknown(hp, head, body)
    ensures var r, cases := Outcome(a, hp, head, body, playerLegal), CasesFor(hp, head, body);
            && r.Ok? && r.value.branches == IntegratedOf(a, cases) && r.value.scenarios == ScenariosOf(a, cases)
            && (AllFieldsWeighted(hp, head, body) ==> r.value.scenarios == [])
            && (!AllFieldsWeighted(hp, head, body) ==> r.value.branches == [] && CasesWeighted(cases, false))
  {
    NeverMixed(a, hp, head, body);
    if !AllFieldsWeighted(hp, head, body) {
      CasesUnweighted(hp, head, body);
    }
    ValuesKnown(hp);
    ValuesKnown(head);
    ValuesKnown(body);
    hide Values, Cases, ScenariosOf, IntegratedOf, CasesWeighted, AllFieldsWeighted;
  }

  lemma ValuesKnown(k: Known)
    ensures Values(k).Some? <==> !k.Unknown?
  {
  }

  lemma CasesUnweighted(hp: Known, head: Known, body: Known)
    requires NothingUnknown(hp, head, body) && !AllFieldsWeighted(hp, head, body)
    ensures CasesWeighted(CasesFor(hp, head, body), false)
  {
    SomeUnweighted(Values(hp).value, Values(head).value, Values(body).value);
  }

  /** Each scenario evaluates a target that may be so, and each such target has one. */
  ghost predicate ScenariosFit(a: Attack, scenarios: seq<Scenario>, may: Target -> bool) {
    && (forall i :: 0 <= i < |scenarios| ==>
          may(scenarios[i].target) && scenarios[i] == ScenarioFor(a, scenarios[i].target))
    && (forall t :: may(t) ==> ScenarioFor(a, t) in scenarios)
  }

  lemma CasesFit(a: Attack, cases: seq<Case>, may: Target -> bool)
    requires CasesWeighted(cases, false) && forall t :: HasTarget(cases, t) <==> may(t)
    ensures ScenariosFit(a, ScenariosOf(a, cases), may)
  {
    var scenarios := ScenariosOf(a, cases);
    ScenariosOfCases(a, cases);
    hide ScenariosOf, BranchesOf;
    forall t | may(t) ensures ScenarioFor(a, t) in scenarios {
      var c :| c in cases && c.target == t;
      var i :| 0 <= i < |cases| && cases[i] == c;
      assert scenarios[i] == ScenarioFor(a, t);
    }
    forall i | 0 <= i < |cases| ensures may(cases[i].target) {
      assert cases[i] in cases;
      assert HasTarget(cases, cases[i].target);
    }
  }

  ghost function MayBeAll(hp: Known, head: Known, body: Known): Target -> bool {
    (t: Target) => MayBeTarget(hp, head, body, t)
  }

  /**
   * An attack on a target with some unweighted field is evaluated against exactly the targets it may be,
   * as many times as their fields combine, each as if it were known to be that target.
   */
  lemma ScenariosAreTheTargets(a: Attack, hp: Known, head: Known, body: Known, playerLegal: bool)
    requires NothingUnknown(hp, head, body) && !AllFieldsWeighted(hp, head, body)
    ensures var r := Outcome(a, hp, head, body, playerLegal);
            && r.Ok? && r.value.branches == []
            && |r.value.scenarios| == Product(Span(hp), Product(Span(head), Span(body)))
            && ScenariosFit(a, r.value.scenarios, MayBeAll(hp, head, body))
  {
    var cases := CasesFor(hp, head, body);
    hide Outcome, CasesFor, MayBeTarget, ScenariosOf, IntegratedOf, ScenariosFit, Product, Span, HasTarget;
    OutcomeOfCases(a, hp, head, body, playerLegal);
    ScenariosOfCases(a, cases);
    CasesForAreAll(hp, head, body);
    CasesFit(a, cases, MayBeAll(hp, head, body));
  }

  /**
   * The outcome is marked as resting on knowledge exactly if a field is not exactly known and either only the
   * player's knowledge counts, or some possible target has a field without weights.
   */
  lemma EpistemicIff(a: Attack, hp: Known, head: Known, body: Known, playerLegal: bool)
    requires NothingUnknown(hp, head, body)
    ensures var r := Outcome(a, hp, head, body, playerLegal);
            r.Ok? &&
            (r.value.epistemic
             <==> && !(hp.Exact? && head.Exact? && body.Exact?)
                  && (playerLegal
                      || (!AllFieldsWeighted(hp, head, body) && exists t :: MayBeAll(hp, head, body)(t))))
  {
    NeverMixed(a, hp, head, body);
    var r := Outcome(a, hp, head, body, playerLegal).value;
    if !AllFieldsWeighted(hp, head, body) {
      ScenariosAreTheTargets(a, hp, head, body, playerLegal);
      if r.scenarios != [] {
        assert MayBeAll(hp, head, body)(r.scenarios[0].target);
      }
      if t :| MayBeAll(hp, head, body)(t) {
        assert ScenarioFor(a, t) in r.scenarios;
      }
    }
    hide Cases, Values, BranchesOf, MayBeAll, ScenarioFor, ScenariosOf, IntegratedOf, Product, Span;
  }

  // ----- Weighted knowledge -----

  /** The mean of `f` over the items, by their probabilities. */
  function Mean(items: seq<(int, real)>, f: int -> real): real {
    if items == [] then 0.0
    else
      var last := items[|items| - 1];
      Mean(items[..|items| - 1], f) + Times(last.1, f(last.0))
  }

  /** The expectation of `f` over a weighted field. */
  function Expect(k: Known, f: int -> real): real
    requires Weighted(k)
  {
    if k.Exact? then f(k.value) else Mean(k.items, f)
  }

  function Average(ps: seq<Possible>, f: int -> real): real
    requires AllWeighted(ps)
  {
    if ps == [] then 0.0
    else
      var last := ps[|ps| - 1];
      Average(ps[..|ps| - 1], f) + Times(last.weight.value, f(last.value))
  }

  lemma {:induction false} MeanIsAverage(items: seq<(int, real)>, f: int -> real)
    ensures Average(Values(Distribution(items)).value, f) == Mean(items, f)
  {
    if items != [] {
      var front := items[..|items| - 1];
      MeanIsAverage(front, f);
      var ps := Values(Distribution(items)).value;
      assert ps[..|ps| - 1] == Values(Distribution(front)).value;
    }
  }

  lemma ExpectIsAverage(k: Known, f: int -> real)
    requires Weighted(k)
    ensures AllWeighted(Values(k).value) && Average(Values(k).value, f) == Expect(k, f)
  {
    if k.Exact? {
      var ps := Values(k).value;
      assert ps[..0] == [];
      assert Times(1.0, f(k.value)) == f(k.value);
    } else {
      MeanIsAverage(k.items, f);
    }
  }

  /** The total of `f` over the branches against one target, as a function of its body armour, and so on. */
  function OverBody(a: Attack, f: OutcomeBranch -> real, hp: int, head: int): int -> real {
    (body: int) => Total(BranchesOf(a.(target := Target(hp, head, body))), f)
  }

  function OverHead(a: Attack, f: OutcomeBranch -> real, hp: int, body: Known): int -> real
    requires Weighted(body)
  {
    (head: int) => Expect(body, OverBody(a, f, hp, head))
  }

  function OverHp(a: Attack, f: OutcomeBranch -> real, head: Known, body: Known): int -> real
    requires Weighted(head) && Weighted(body)
  {
    (hp: int) => Expect(head, OverHead(a, f, hp, body))
  }

  lemma {:induction false} CaseTotalAppend(a: Attack, x: seq<Case>, y: seq<Case>, f: OutcomeBranch -> real)
    requires CasesWeighted(x, true) && CasesWeighted(y, true)
    ensures CasesWeighted(x + y, true) && CaseTotal(a, x + y, f) == CaseTotal(a, x, f) + CaseTotal(a, y, f)
  {
    hide BranchesOf, Total;
    if y == [] {
      assert x + y == x;
    } else {
      assert (x + y)[..|x + y| - 1] == x + y[..|y| - 1];
      CaseTotalAppend(a, x, y[..|y| - 1], f);
    }
  }

  lemma {:induction false} CasesInTotal(
      a: Attack, f: OutcomeBranch -> real, hp: Possible, head: Possible, bodies: seq<Possible>)
    requires hp.weight.Some? && head.weight.Some? && AllWeighted(bodies)
    ensures CasesWeighted(CasesIn(hp, head, bodies), true)
    ensures CaseTotal(a, CasesIn(hp, head, bodies), f)
            == Times(Times(hp.weight.value, head.weight.value), Average(bodies, OverBody(a, f, hp.value, head.value)))
  {
    hide BranchesOf, Total;
    if bodies != [] {
      var front, last := bodies[..|bodies| - 1], bodies[|bodies| - 1];
      CasesInTotal(a, f, hp, head, front);
      var g, w := OverBody(a, f, hp.value, head.value), Times(hp.weight.value, head.weight.value);
      var cases := CasesIn(hp, head, bodies);
      assert cases[..|cases| - 1] == CasesIn(hp, head, front);
      TimesAdd(w, Average(front, g), Times(last.weight.value, g(last.value)));
      TimesAssociate(w, last.weight.value, g(last.value));
    }
  }

  lemma TimesAssociate(x: real, y: real, z: real)
    ensures Times(Times(x, y), z) == Times(x, Times(y, z))
  {
    Commute(x, y);
    PullOut(x, y, z);
    Rearrange(x, y, z);
  }

  /** The cases so far add up to the average so far, weighted. */
  ghost predicate HeadsTotalled(a: Attack, f: OutcomeBranch -> real, hp: Possible, heads: seq<Possible>, body: Known)
    requires hp.weight.Some? && AllWeighted(heads) && Weighted(body)
  {
    var cases := CasesAt(hp, heads, Values(body).value);
    && CasesWeighted(cases, true)
    && CaseTotal(a, cases, f) == Times(hp.weight.value, Average(heads, OverHead(a, f, hp.value, body)))
  }

  lemma {:induction false} CasesAtTotal(
      a: Attack, f: OutcomeBranch -> real, hp: Possible, heads: seq<Possible>, body: Known)
    requires hp.weight.Some? && AllWeighted(heads) && Weighted(body)
    ensures HeadsTotalled(a, f, hp, heads, body)
  {
    if heads == [] {
      hide OverHead, Values;
    } else {
      hide HeadsTotalled;
      CasesAtTotal(a, f, hp, heads[..|heads| - 1], body);
      OneMoreHead(a, f, hp, heads, body);
    }
  }

  lemma OneMoreHead(a: Attack, f: OutcomeBranch -> real, hp: Possible, heads: seq<Possible>, body: Known)
    requires hp.weight.Some? && AllWeighted(heads) && Weighted(body) && heads != []
    requires HeadsTotalled(a, f, hp, heads[..|heads| - 1], body)
    ensures HeadsTotalled(a, f, hp, heads, body)
  {
    var bodies, front, last := Values(body).value, heads[..|heads| - 1], heads[|heads| - 1];
    var g := OverHead(a, f, hp.value, body);
    AverageStep(heads, g);
    CasesAtStep(hp, heads, bodies);
    OverHeadAt(a, f, hp.value, body, last.value);
    ExpectIsAverage(body, OverBody(a, f, hp.value, last.value));
    hide OverBody, OverHead, Expect, CaseTotal, CasesAt, CasesIn, CasesWeighted, Values, Average, Times;
    CasesInTotal(a, f, hp, last, bodies);
    CaseTotalAppend(a, CasesAt(hp, front, bodies), CasesIn(hp, last, bodies), f);
    TimesGather(hp.weight.value, Average(front, g), last.weight.value, g(last.value));
  }

  lemma OverHeadAt(a: Attack, f: OutcomeBranch -> real, hp: int, body: Known, head: int)
    requires Weighted(body)
    ensures OverHead(a, f, hp, body)(head) == Expect(body, OverBody(a, f, hp, head))
  {
    hide Expect, OverBody;
  }

  lemma AverageStep(ps: seq<Possible>, f: int -> real)
    requires AllWeighted(ps) && ps != []
    ensures var last := ps[|ps| - 1];
            AllWeighted(ps[..|ps| - 1])
            && Average(ps, f) == Average(ps[..|ps| - 1], f) + Times(last.weight.value, f(last.value))
  {
  }

  lemma CasesAtStep(hp: Possible, heads: seq<Possible>, bodies: seq<Possible>)
    requires heads != []
    ensures CasesAt(hp, heads, bodies)
            == CasesAt(hp, heads[..|heads| - 1], bodies) + CasesIn(hp, heads[|heads| - 1], bodies)
  {
  }

  lemma TimesGather(w: real, x: real, v: real, y: real)
    ensures Times(w, x) + Times(Times(w, v), y) == Times(w, x + Times(v, y))
  {
    TimesAdd(w, x, Times(v, y));
    TimesAssociate(w, v, y);
    hide Times;
  }

  lemma {:induction false} CasesTotal(
      a: Attack, f: OutcomeBranch -> real, hps: seq<Possible>, head: Known, body: Known)
    requires AllWeighted(hps) && Weighted(head) && Weighted(body)
    ensures var cases := Cases(hps, Values(head).value, Values(body).value);
            && CasesWeighted(cases, true)
            && CaseTotal(a, cases, f) == Average(hps, OverHp(a, f, head, body))
  {
    var heads, bodies := Values(head).value, Values(body).value;
    hide BranchesOf, Total, CasesAt, Values;
    if hps != [] {
      var front, last := hps[..|hps| - 1], hps[|hps| - 1];
      CasesTotal(a, f, front, head, body);
      ExpectIsAverage(head, OverHead(a, f, last.value, body));
      CasesAtTotal(a, f, last, heads, body);
      CaseTotalAppend(a, Cases(front, heads, bodies), CasesAt(last, heads, bodies), f);
    }
  }

  /**
   * With every field weighted, what the outcome's branches add up to is the expectation, over independent
   * hit points, head armour and body armour, of what the branches against each target add up to.
   */
  lemma IntegratedIsExpectation(
      a: Attack, hp: Known, head: Known, body: Known, playerLegal: bool, f: OutcomeBranch -> real)
    requires AllFieldsWeighted(hp, head, body) && IgnoresChance(f)
    ensures var r := Outcome(a, hp, head, body, playerLegal);
            r.Ok? && r.value.scenarios == [] && Total(r.value.branches, f) == Expect(hp, OverHp(a, f, head, body))
  {
    OutcomeOfCases(a, hp, head, body, playerLegal);
    ExpectIsAverage(hp, OverHp(a, f, head, body));
    CasesTotal(a, f, Values(hp).value, head, body);
    IntegratedTotal(a, CasesFor(hp, head, body), f);
    hide Outcome, Cases, Values, ScenariosOf, IntegratedOf, Total, CaseTotal, Expect, Average, OverHp, IgnoresChance;
  }
}
