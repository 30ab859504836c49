/** How attack totals move with armour, hit points and hit chance. */
module DamageMonotone {
  import opened Reals
  import opened AttackOutcomes

  /** No negative rolls or multipliers, and at least one roll. */
  predicate Nonnegative(p: DamageProfile) {
    0 <= p.low <= p.high && p.armorMultiplier >= 0.0 && p.directMultiplier >= 0.0 && p.headMultiplier >= 0.0
  }

  lemma TruncMonotone(x: real, y: real)
    requires x <= y
    ensures Trunc(x) <= Trunc(y)
  {
  }

  /** More armour never lets more damage through, across the point where armour runs out. */
  lemma RawDamageAntitone(p: DamageProfile, s: int, t: int, regular: int, armorRoll: int)
    requires Nonnegative(p) && 0 <= s <= t && regular >= 0 && armorRoll >= 0
    ensures RawDamage(p, t, regular, armorRoll) <= RawDamage(p, s, regular, armorRoll)
  {
    TimesNonnegative(armorRoll as real, p.armorMultiplier);
    TimesNonnegative(regular as real, p.directMultiplier);
    if p.directMultiplier >= 1.0 {
      assert Times(regular as real, 0.0) == 0.0;
    }
  }

  lemma HpDamageAntitone(p: DamageProfile, location: HitResult, s: int, t: int, regular: int, armorRoll: int)
    requires Nonnegative(p) && 0 <= s <= t && regular >= 0 && armorRoll >= 0
    ensures HpDamage(p, location, t, regular, armorRoll) <= HpDamage(p, location, s, regular, armorRoll)
  {
    RawDamageAntitone(p, s, t, regular, armorRoll);
    LandedMonotone(RawDamage(p, t, regular, armorRoll), RawDamage(p, s, regular, armorRoll),
                   LocationMultiplier(p, location));
  }

  lemma LandedMonotone(x: real, y: real, m: real)
    requires x <= y && m >= 0.0
    ensures Landed(x, m) <= Landed(y, m)
  {
    hide Times, Trunc;
    TimesRises(x, y, m);
    TruncMonotone(Times(x, m) + 0.5, Times(y, m) + 0.5);
  }

  // ----- Comparing totals branch by branch -----

  /** Branch `b` is no likelier than `a`, and `f` counts it no higher. */
  ghost predicate Outdoes(a: OutcomeBranch, b: OutcomeBranch, f: OutcomeBranch -> real) {
    0.0 <= b.probability <= a.probability && 0.0 <= f(b) <= f(a)
  }

  lemma TermOutdone(a: OutcomeBranch, b: OutcomeBranch, f: OutcomeBranch -> real)
    requires Outdoes(a, b, f)
    ensures 0.0 <= Term(b, f) <= Term(a, f)
  {
    Scale(b.probability, a.probability, f(b));
    Scale(f(b), f(a), a.probability);
    Scale(0.0, b.probability, f(b));
  }

  lemma {:induction false} TotalOutdone(a: seq<OutcomeBranch>, b: seq<OutcomeBranch>, f: OutcomeBranch -> real)
    requires |a| == |b| && forall i :: 0 <= i < |a| ==> Outdoes(a[i], b[i], f)
    ensures Total(b, f) <= Total(a, f)
  {
    if a != [] {
      TermOutdone(a[|a| - 1], b[|b| - 1], f);
      TotalOutdone(a[..|a| - 1], b[..|b| - 1], f);
    }
  }

  /** `a` hits at least as well as `b`, at a target no better armoured and with no more hit points. */
  predicate Harsher(a: Attack, b: Attack) {
    && a.profile == b.profile && Nonnegative(a.profile)
    && 0 <= b.hitChance <= a.hitChance
    && 0 <= a.target.head <= b.target.head
    && 0 <= a.target.body <= b.target.body
    && 0 <= a.target.hp <= b.target.hp
  }

  lemma RollChanceMonotone(a: Attack, b: Attack, location: HitResult)
    requires Harsher(a, b)
    ensures 0.0 <= RollChance(b, location) <= RollChance(a, location)
  {
    PairsPositive(a.profile);
    var n := Pairs(a.profile) as real;
    Scale(Hit(b), Hit(a), Share(location));
    Scale(0.0, Hit(b), Share(location));
    Divide(Hit(b) * Share(location), Hit(a) * Share(location), n);
    Divide(0.0, Hit(b) * Share(location), n);
  }

  lemma BranchOutdone(a: Attack, b: Attack, location: HitResult, regular: int, armorRoll: int)
    requires Harsher(a, b) && location != Miss && regular >= 0 && armorRoll >= 0
    ensures Outdoes(HitBranch(a, location, regular, armorRoll), HitBranch(b, location, regular, armorRoll), Killed)
    ensures Outdoes(HitBranch(a, location, regular, armorRoll), HitBranch(b, location, regular, armorRoll), Damage)
  {
    RollChanceMonotone(a, b, location);
    HpDamageAntitone(a.profile, location, StartingArmor(a.target, location), StartingArmor(b.target, location),
                     regular, armorRoll);
  }

  ghost predicate AllOutdo(a: seq<OutcomeBranch>, b: seq<OutcomeBranch>) {
    |a| == |b| && forall i :: 0 <= i < |a| ==> Outdoes(a[i], b[i], Killed) && Outdoes(a[i], b[i], Damage)
  }

  lemma {:induction false} RowOutdone(a: Attack, b: Attack, location: HitResult, regular: int, top: int)
    requires Harsher(a, b) && location != Miss && regular >= 0
    ensures AllOutdo(Row(a, location, regular, top), Row(b, location, regular, top))
    decreases top - a.profile.low
  {
    if top > a.profile.low {
      RowOutdone(a, b, location, regular, top - 1);
      BranchOutdone(a, b, location, regular, top - 1);
    }
  }

  lemma {:induction false} BlockOutdone(a: Attack, b: Attack, location: HitResult, top: int)
    requires Harsher(a, b) && location != Miss
    ensures AllOutdo(Block(a, location, top), Block(b, location, top))
    decreases top - a.profile.low
  {
    if top > a.profile.low {
      BlockOutdone(a, b, location, top - 1);
      RowOutdone(a, b, location, top - 1, a.profile.high + 1);
    }
  }

  function KillProbability(a: Attack): real {
    Total(BranchesOf(a), Killed)
  }

  function ExpectedDamage(a: Attack): real {
    Total(BranchesOf(a), Damage)
  }

  /**
   * Kill probability and expected HP damage never rise with head armour or body armour and never
   * fall with hit chance; kill probability never rises with the target's hit points.
   */
  lemma HarsherKillsMore(a: Attack, b: Attack)
    requires Harsher(a, b)
    ensures KillProbability(b) <= KillProbability(a)
    ensures ExpectedDamage(b) <= ExpectedDamage(a)
  {
    BlockOutdone(a, b, Head, a.profile.high + 1);
    BlockOutdone(a, b, Body, a.profile.high + 1);
    BranchesOutdone(a, b, Killed);
    BranchesOutdone(a, b, Damage);
  }

  lemma BranchesOutdone(a: Attack, b: Attack, f: OutcomeBranch -> real)
    requires a.profile == b.profile && f(MissBranch(a)) == 0.0 && f(MissBranch(b)) == 0.0
    ensures BlocksOutdone(a, b, Head, f) && BlocksOutdone(a, b, Body, f) ==>
              Total(BranchesOf(b), f) <= Total(BranchesOf(a), f)
  {
    if BlocksOutdone(a, b, Head, f) && BlocksOutdone(a, b, Body, f) {
      TotalOutdone(Block(a, Head, a.profile.high + 1), Block(b, Head, a.profile.high + 1), f);
      TotalOutdone(Block(a, Body, a.profile.high + 1), Block(b, Body, a.profile.high + 1), f);
      TotalOfBranches(a, f);
      TotalOfBranches(b, f);
    }
  }

  ghost predicate BlocksOutdone(a: Attack, b: Attack, location: HitResult, f: OutcomeBranch -> real)
    requires a.profile == b.profile
  {
    var top := a.profile.high + 1;
    && |Block(a, location, top)| == |Block(b, location, top)|
    && forall i :: 0 <= i < |Block(a, location, top)| ==>
         Outdoes(Block(a, location, top)[i], Block(b, location, top)[i], f)
  }
}
