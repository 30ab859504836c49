/** Tolerance-based dominance between scored candidates. */
module Dominance {
  import opened Common
  import opened Ordering
  import opened Sorting
  import opened MetricRanges
  import opened Scoring
  import opened Sums

  predicate Dominates(left: Candidate, right: Candidate) {
    && left.tacticalRange.minimum >= right.tacticalRange.maximum - TOLERANCE
    && left.penalty.maximum <= right.penalty.minimum + TOLERANCE
    && (|| left.tacticalRange.minimum > right.tacticalRange.maximum + TOLERANCE
        || left.penalty.maximum < right.penalty.minimum - TOLERANCE)
  }

  /** The score before the uncertainty adjustment. */
  function Merit(c: Candidate): real {
    c.baseSelection - c.selectionPenalty
  }

  predicate AllScored(cs: seq<Candidate>) {
    forall i :: 0 <= i < |cs| ==> Scored(cs[i])
  }

  lemma DominanceRaisesMerit(left: Candidate, right: Candidate)
    requires Scored(left) && Scored(right) && Dominates(left, right)
    ensures Merit(left) > Merit(right)
  {
    assert Merit(left) >= left.tacticalRange.minimum - left.penalty.maximum;
    assert Merit(right) <= right.tacticalRange.maximum - right.penalty.minimum;
  }

  /** Each candidate of the chain dominates the next. */
  ghost predicate Chain(cs: seq<Candidate>) {
    forall i :: 0 <= i < |cs| - 1 ==> Dominates(cs[i], cs[i + 1])
  }

  /** Dominance has no cycles, however long: a chain never comes back to where it began. */
  lemma {:induction false} ChainFalls(cs: seq<Candidate>)
    requires AllScored(cs) && Chain(cs) && |cs| >= 2
    ensures Merit(cs[0]) > Merit(cs[|cs| - 1]) && cs[0] != cs[|cs| - 1]
  {
    var n := |cs| - 1;
    DominanceRaisesMerit(cs[n - 1], cs[n]);
    if n > 1 {
      ChainFalls(cs[..n]);
    }
  }

  // ----- When dominance fails to be transitive -----

  /** Scored, and its explanation facts add up to its ranking value, as its constructor insists. */
  predicate Reconciled(c: Candidate) {
    Scored(c) && Sum(c.explanation, Contribution) == c.rankingValue
  }

  /** How far `a`'s benefit is certain to exceed `c`'s. */
  function Lead(a: Candidate, c: Candidate): real {
    a.tacticalRange.minimum - c.tacticalRange.maximum
  }

  /** How far `a`'s risk is certain to stay below `c`'s. */
  function Relief(a: Candidate, c: Candidate): real {
    c.penalty.minimum - a.penalty.maximum
  }

  lemma DominatesByLead(a: Candidate, c: Candidate)
    ensures Dominates(a, c) <==>
              && Lead(a, c) >= -TOLERANCE && Relief(a, c) >= -TOLERANCE
              && (Lead(a, c) > TOLERANCE || Relief(a, c) > TOLERANCE)
  {
  }

  /** Two steps of dominance can lead from `a` to `c`. */
  predicate Bridged(a: Candidate, c: Candidate) {
    var x, y := Lead(a, c), Relief(a, c);
    || (x > 2.0 * TOLERANCE && y >= -2.0 * TOLERANCE)
    || (x > 0.0 && y > 0.0)
    || (y > 2.0 * TOLERANCE && x >= -2.0 * TOLERANCE)
  }

  /** A candidate about which nothing is uncertain. */
  function Flat(id: string, tactical: real, penalty: real): Candidate {
    Candidate(id, [ExactRange(tactical)], ExactRange(tactical), tactical, ExactRange(penalty), penalty, 0.0, 0.0,
              tactical - penalty, ExactRange(tactical - penalty), 0, false,
              [Fact("enemy_effect", tactical), Fact("tail_risk_penalty", -penalty)], None)
  }

  lemma FlatReconciles(id: string, tactical: real, penalty: real)
    ensures Reconciled(Flat(id, tactical, penalty))
  {
    var gain, loss := Fact("enemy_effect", tactical), Fact("tail_risk_penalty", -penalty);
    assert [gain, loss] == [gain] + [loss];
    SumAppend([gain], [loss], Contribution);
    SumOne(gain, Contribution);
    SumOne(loss, Contribution);
  }

  /** The leads and reliefs over a candidate in between add up to at most the whole. */
  lemma HalfwaysAddUp(a: Candidate, b: Candidate, c: Candidate)
    requires Scored(b)
    ensures Lead(a, b) + Lead(b, c) <= Lead(a, c) && Relief(a, b) + Relief(b, c) <= Relief(a, c)
  {
  }

  /** A flat candidate placed so that it leaves `u` of the lead and `v` of the relief to the first step. */
  function Between(id: string, a: Candidate, u: real, v: real): Candidate {
    Flat(id, a.tacticalRange.minimum - u, a.penalty.maximum + v)
  }

  lemma BetweenSplits(id: string, a: Candidate, c: Candidate, u: real, v: real)
    ensures var b := Between(id, a, u, v);
            && Lead(a, b) == u && Relief(a, b) == v
            && Lead(b, c) == Lead(a, c) - u && Relief(b, c) == Relief(a, c) - v
  {
  }

  lemma Bridge(id: string, a: Candidate, c: Candidate) returns (b: Candidate)
    requires Bridged(a, c)
    ensures Reconciled(b) && Dominates(a, b) && Dominates(b, c)
  {
    var x, y := Lead(a, c), Relief(a, c);
    var halved := (x > 2.0 * TOLERANCE && y >= -2.0 * TOLERANCE) || (y > 2.0 * TOLERANCE && x >= -2.0 * TOLERANCE);
    var u, v := if halved then x / 2.0 else x + TOLERANCE, if halved then y / 2.0 else -TOLERANCE;
    b := Between(id, a, u, v);
    BetweenSplits(id, a, c, u, v);
    FlatReconciles(id, a.tacticalRange.minimum - u, a.penalty.maximum + v);
    DominatesByLead(a, b);
    DominatesByLead(b, c);
  }

  lemma ChainIsBridged(a: Candidate, b: Candidate, c: Candidate)
    requires Scored(b) && Dominates(a, b) && Dominates(b, c)
    ensures Bridged(a, c)
  {
    DominatesByLead(a, b);
    DominatesByLead(b, c);
    HalfwaysAddUp(a, b, c);
  }

  ghost predicate Chained(a: Candidate, c: Candidate) {
    exists b :: Reconciled(b) && Dominates(a, b) && Dominates(b, c)
  }

  /** Just when a chain of two steps can lead from one candidate to another. */
  lemma ChainedIff(a: Candidate, c: Candidate)
    ensures Chained(a, c) <==> Bridged(a, c)
  {
    if b :| Reconciled(b) && Dominates(a, b) && Dominates(b, c) {
      ChainIsBridged(a, b, c);
    }
    if Bridged(a, c) {
      var b := Bridge(a.actionId, a, c);
    }
  }

  /** It takes the slack of two steps: a single one would fall short on one side, or gain too little on both. */
  predicate NeedsBothSteps(a: Candidate, c: Candidate) {
    var x, y := Lead(a, c), Relief(a, c);
    || (x > 2.0 * TOLERANCE && -2.0 * TOLERANCE <= y < -TOLERANCE)
    || (0.0 < x <= TOLERANCE && 0.0 < y <= TOLERANCE)
    || (y > 2.0 * TOLERANCE && -2.0 * TOLERANCE <= x < -TOLERANCE)
  }

  /** Transitivity fails between two candidates exactly when it takes two steps to get from one to the other. */
  lemma TransitivityFailsIff(a: Candidate, c: Candidate)
    ensures Chained(a, c) && !Dominates(a, c) <==> NeedsBothSteps(a, c)
  {
    ChainedIff(a, c);
    DominatesByLead(a, c);
  }

  /** Dominance composes when the first step makes no use of the slack. */
  lemma DominanceComposes(a: Candidate, b: Candidate, c: Candidate)
    requires Scored(b) && Dominates(a, b) && Dominates(b, c)
    requires a.tacticalRange.minimum >= b.tacticalRange.maximum && a.penalty.maximum <= b.penalty.minimum
    ensures Dominates(a, c)
  {
  }

  // ----- Recording who dominates whom -----

  predicate Rivals(other: Candidate, c: Candidate) {
    other.actionId != c.actionId && Dominates(other, c)
  }

  /** `d` names the least rival of `c`, or nobody if there is none. */
  ghost predicate Blames(cs: seq<Candidate>, c: Candidate, d: Option<string>) {
    match d
    case None => forall o :: o in cs ==> !Rivals(o, c)
    case Some(id) =>
      && (exists o :: o in cs && Rivals(o, c) && o.actionId == id)
      && (forall o :: o in cs && Rivals(o, c) ==> !LexLess(o.actionId, id))
  }

  lemma BlameIsUnique(cs: seq<Candidate>, ds: seq<Candidate>, c: Candidate, d: Option<string>, e: Option<string>)
    requires Blames(cs, c, d) && Blames(ds, c, e) && forall o :: o in cs <==> o in ds
    ensures d == e
  {
    if d.Some? && e.Some? {
      LexTotal(d.value, e.value);
    }
  }

  function RivalIds(cs: seq<Candidate>, c: Candidate): seq<string> {
    if cs == [] then []
    else
      var last := cs[|cs| - 1];
      RivalIds(cs[..|cs| - 1], c) + (if Rivals(last, c) then [last.actionId] else [])
  }

  lemma {:induction false} RivalIdsFound(cs: seq<Candidate>, c: Candidate)
    ensures forall o :: o in cs && Rivals(o, c) ==> o.actionId in RivalIds(cs, c)
    ensures forall id :: id in RivalIds(cs, c) ==> exists o :: o in cs && Rivals(o, c) && o.actionId == id
  {
    if cs != [] {
      RivalIdsFound(cs[..|cs| - 1], c);
      assert forall o :: o in cs <==> o in cs[..|cs| - 1] || o == cs[|cs| - 1];
    }
  }

  function BlameOf(cs: seq<Candidate>, c: Candidate): Option<string> {
    var ids := SortBy(LexLess, RivalIds(cs, c));
    if ids == [] then None else Some(ids[0])
  }

  lemma LexTotalOn(s: multiset<string>)
    ensures TotalOn(LexLess, s)
  {
    forall a, b | a in s && b in s
      ensures a == b || LexLess(a, b) || LexLess(b, a)
      ensures !(LexLess(a, b) && LexLess(b, a))
    {
      LexTotal(a, b);
    }
    forall a, b, c | a in s && b in s && c in s && LexLess(a, b) && LexLess(b, c) ensures LexLess(a, c) {
      LexTransitive(a, b, c);
    }
  }

  lemma BlameFound(cs: seq<Candidate>, c: Candidate)
    ensures Blames(cs, c, BlameOf(cs, c))
  {
    var ids := RivalIds(cs, c);
    var sorted := SortBy(LexLess, ids);
    RivalIdsFound(cs, c);
    SortMembers(LexLess, ids);
    MembersAgree(sorted, ids);
    if ids != [] {
      LexTotalOn(multiset(ids));
      SortHeadLeast(LexLess, ids, multiset(ids));
      assert sorted[0] in sorted;
    }
  }

  function Mark(cs: seq<Candidate>, c: Candidate): Candidate {
    c.(dominatedBy := BlameOf(cs, c))
  }

  function Marked(cs: seq<Candidate>): (ms: seq<Candidate>)
    ensures |ms| == |cs|
  {
    seq(|cs|, i requires 0 <= i < |cs| => Mark(cs, cs[i]))
  }

  /** Among scored candidates at least one is dominated by nobody. */
  lemma SomeoneIsUndominated(cs: seq<Candidate>)
    requires cs != [] && AllScored(cs)
    ensures exists i :: 0 <= i < |cs| && Marked(cs)[i].dominatedBy == None
  {
    var i := BestMerit(cs);
    forall o | o in cs ensures !Rivals(o, cs[i]) {
      if Dominates(o, cs[i]) {
        DominanceRaisesMerit(o, cs[i]);
      }
    }
    BlameFound(cs, cs[i]);
    BlameIsUnique(cs, cs, cs[i], None, BlameOf(cs, cs[i]));
    assert Marked(cs)[i].dominatedBy == None;
  }

  lemma {:induction false} BestMerit(cs: seq<Candidate>) returns (best: nat)
    requires cs != []
    ensures best < |cs| && forall i :: 0 <= i < |cs| ==> Merit(cs[i]) <= Merit(cs[best])
  {
    var n := |cs| - 1;
    if n == 0 {
      best := 0;
    } else {
      best := BestMerit(cs[..n]);
      if Merit(cs[best]) < Merit(cs[n]) {
        best := n;
      }
    }
  }

  /** The least name among the other candidates that dominate `c`. */
  method LeastDominator(cs: seq<Candidate>, c: Candidate) returns (d: Option<string>)
    ensures d == BlameOf(cs, c) && Blames(cs, c, d)
  {
    var dominators := [];
    for j := 0 to |cs|
      invariant dominators == RivalIds(cs[..j], c)
    {
      assert cs[..j + 1][..j] == cs[..j];
      if cs[j].actionId != c.actionId && Dominates(cs[j], c) {
        dominators := dominators + [cs[j].actionId];
      }
    }
    assert cs[..|cs|] == cs;
    BlameFound(cs, c);
    dominators := SortBy(LexLess, dominators);
    d := if dominators == [] then None else Some(dominators[0]);
  }

  lemma MarkedIsBlamed(cs: seq<Candidate>, i: nat)
    requires i < |cs|
    ensures Marked(cs)[i] == cs[i].(dominatedBy := Marked(cs)[i].dominatedBy)
    ensures Blames(cs, cs[i], Marked(cs)[i].dominatedBy)
  {
    BlameFound(cs, cs[i]);
  }

  /** Each candidate, in place, with the least of the other candidates' names that dominate it. */
  method WithDominance(cs: seq<Candidate>) returns (updated: seq<Candidate>)
    ensures updated == Marked(cs)
    ensures forall i :: 0 <= i < |cs| ==> Blames(cs, cs[i], updated[i].dominatedBy)
    ensures cs != [] && AllScored(cs) ==> exists i :: 0 <= i < |updated| && updated[i].dominatedBy == None
  {
    updated := [];
    for i := 0 to |cs|
      invariant |updated| == i && forall k :: 0 <= k < i ==> updated[k] == Mark(cs, cs[k])
    {
      var d := LeastDominator(cs, cs[i]);
      updated := updated + [cs[i].(dominatedBy := d)];
    }
    assert updated == Marked(cs);
    forall i | 0 <= i < |cs| ensures Blames(cs, cs[i], updated[i].dominatedBy) {
      MarkedIsBlamed(cs, i);
    }
    if cs != [] && AllScored(cs) {
      SomeoneIsUndominated(cs);
    }
  }
}
