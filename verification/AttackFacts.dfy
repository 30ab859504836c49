/** What every single outcome branch of an attack says, and how the branches share the hit chance. */
module AttackFacts {
  import opened Reals
  import opened AttackOutcomes
  import opened DamageMonotone
  import opened ReactionLaws

  predicate SoundTarget(t: Target) {
    t.hp >= 0 && t.head >= 0 && t.body >= 0
  }

  // ----- One branch -----

  function ArmorAt(head: real, body: real, location: HitResult): real {
    if location == Head then head else if location == Body then body else 0.0
  }

  /** Armour is lost only where the hit lands, and just what the branch records. */
  predicate ArmorAccounted(t: Target, b: OutcomeBranch) {
    match b.result
    case Miss => b.targetHead == t.head as real && b.targetBody == t.body as real && b.armorDamage == 0.0
    case Head => b.targetHead + b.armorDamage == t.head as real && b.targetBody == t.body as real
    case Body => b.targetBody + b.armorDamage == t.body as real && b.targetHead == t.head as real
  }

  /** Hit points are lost just as recorded, down to 0, and only a hit that leaves none kills. */
  predicate HealthAccounted(t: Target, b: OutcomeBranch) {
    && b.targetHp == Max(0, t.hp - b.hpDamage) && b.hpDamage >= 0
    && (b.result == Miss ==> b.hpDamage == 0)
    && (b.killed <==> b.result != Miss && b.targetHp == 0)
  }

  /** What a location multiplies damage by. */
  function Multiplier(p: DamageProfile, location: HitResult): real {
    match location
    case Head => p.headMultiplier
    case _ => 1.0
  }

  /** `damage` is `raw` times the location's multiplier, rounded half up. */
  predicate Rounds(damage: int, raw: real, multiplier: real) {
    damage as real <= Times(raw, multiplier) + 0.5 < damage as real + 1.0
  }

  /**
   * What a regular roll does to hit points. With no armour at the place: all of it, if no more than all goes
   * past armour. With armour left there, or if at least all goes past armour: the direct part less a tenth
   * of what is left. Otherwise the armour broke: the direct part and whatever of the rest it did not take.
   */
  predicate DamageAccounted(p: DamageProfile, t: Target, b: OutcomeBranch) {
    b.result != Miss ==>
      var before := ArmorAt(t.head as real, t.body as real, b.result);
      var left := ArmorAt(b.targetHead, b.targetBody, b.result);
      var roll, m := b.damage as real, Multiplier(p, b.result);
      var direct := Times(roll, p.directMultiplier);
      && p.low <= b.damage <= p.high
      && (before == 0.0 && p.directMultiplier <= 1.0 ==> Rounds(b.hpDamage, roll, m))
      && (if left > 0.0 || p.directMultiplier >= 1.0
          then Rounds(b.hpDamage, RMax(0.0, direct - left / 10.0), m)
          else Rounds(b.hpDamage, direct + RMax(0.0, roll - direct - b.armorDamage), m))
  }

  lemma HitArmor(a: Attack, location: HitResult, regular: int, armorRoll: int)
    requires Nonnegative(a.profile) && SoundTarget(a.target) && location != Miss && armorRoll >= 0
    ensures ArmorAccounted(a.target, HitBranch(a, location, regular, armorRoll))
    ensures HitBranch(a, location, regular, armorRoll).armorDamage >= 0.0
  {
    TimesNonnegative(armorRoll as real, a.profile.armorMultiplier);
  }

  lemma HitHealth(a: Attack, location: HitResult, regular: int, armorRoll: int)
    requires a.profile.low <= a.profile.high && location != Miss
    ensures HealthAccounted(a.target, HitBranch(a, location, regular, armorRoll))
  {
  }

  lemma LandedRounds(raw: real, m: real)
    requires raw >= 0.0 && m >= 0.0
    ensures Rounds(Landed(raw, m), raw, m)
  {
    TimesNonnegative(raw, m);
  }

  /** The cases of armour, in plain arithmetic. */
  lemma RawCases(p: DamageProfile, start: int, regular: int, armorRoll: int)
    requires Nonnegative(p) && start >= 0 && regular >= 0 && armorRoll >= 0
    ensures var raw := RawDamage(p, start, regular, armorRoll);
            var taken := ArmorDamage(p, start, armorRoll);
            var roll := regular as real;
            var left, direct := start as real - taken, Times(roll, p.directMultiplier);
            && raw >= 0.0 && left >= 0.0 && direct >= 0.0
            && (start == 0 && p.directMultiplier <= 1.0 ==> raw == roll)
            && raw == if left > 0.0 || p.directMultiplier >= 1.0 then RMax(0.0, direct - left / 10.0)
                      else direct + RMax(0.0, roll - direct - taken)
  {
    var roll := regular as real;
    TimesNonnegative(armorRoll as real, p.armorMultiplier);
    TimesNonnegative(roll, p.directMultiplier);
    assert Times(roll, 1.0) == roll && Times(roll, 0.0) == 0.0;
    if p.directMultiplier <= 1.0 {
      TimesOrdered(roll, p.directMultiplier, 1.0);
      TimesAdd(roll, p.directMultiplier, 1.0 - p.directMultiplier);
    }
    assert ArmorDamage(p, 0, armorRoll) == 0.0;
    hide Times;
  }

  lemma HitDamage(a: Attack, location: HitResult, regular: int, armorRoll: int)
    requires Nonnegative(a.profile) && SoundTarget(a.target) && location != Miss
    requires a.profile.low <= regular <= a.profile.high && armorRoll >= 0
    ensures DamageAccounted(a.profile, a.target, HitBranch(a, location, regular, armorRoll))
  {
    var start := if location == Head then a.target.head else a.target.body;
    HitArmor(a, location, regular, armorRoll);
    RawCases(a.profile, start, regular, armorRoll);
    LandedRounds(RawDamage(a.profile, start, regular, armorRoll), Multiplier(a.profile, location));
    hide RawDamage, Landed, Rounds, ArmorDamage, Times;
  }

  /** The attacker keeps what it had after paying. */
  predicate ActorKept(a: Attack, b: OutcomeBranch) {
    b.actorAp == a.actorAp && b.actorFatigue == a.actorFatigue
  }

  ghost predicate Accounted(a: Attack, b: OutcomeBranch) {
    && ArmorAccounted(a.target, b) && HealthAccounted(a.target, b)
    && DamageAccounted(a.profile, a.target, b) && ActorKept(a, b)
  }

  /** Every branch of an attack accounts for armour, hit points, damage and the attacker's resources. */
  lemma BranchesAccounted(a: Attack)
    requires Nonnegative(a.profile) && SoundTarget(a.target)
    ensures forall b :: b in BranchesOf(a) ==> Accounted(a, b)
  {
    var good := (b: OutcomeBranch) =>
      && ArmorAccounted(a.target, b) && HealthAccounted(a.target, b)
      && DamageAccounted(a.profile, a.target, b) && ActorKept(a, b);
    forall location, regular, armorRoll |
      && location != Miss
      && a.profile.low <= regular <= a.profile.high && a.profile.low <= armorRoll <= a.profile.high
      ensures good(HitBranch(a, location, regular, armorRoll))
    {
      HitArmor(a, location, regular, armorRoll);
      HitHealth(a, location, regular, armorRoll);
      HitDamage(a, location, regular, armorRoll);
    }
    hide ArmorAccounted, HealthAccounted, DamageAccounted, HitBranch;
    MissAccounted(a);
    BranchesAll(a, good);
  }

  lemma MissAccounted(a: Attack)
    requires SoundTarget(a.target)
    ensures Accounted(a, MissBranch(a))
  {
  }

  // ----- Head and body do not touch each other -----

  /** Two attacks that differ at most in the target's body armour. */
  predicate SameButBody(a: Attack, c: Attack) {
    c == a.(target := a.target.(body := c.target.body))
  }

  predicate SameButHead(a: Attack, c: Attack) {
    c == a.(target := a.target.(head := c.target.head))
  }

  /** Branch by branch the same on head hits, but for the body armour that stays. */
  ghost predicate HeadsAgree(bs: seq<OutcomeBranch>, cs: seq<OutcomeBranch>, body: int) {
    |bs| == |cs| && forall i :: 0 <= i < |bs| ==>
      && bs[i].result == cs[i].result
      && (bs[i].result == Head ==> cs[i] == bs[i].(targetBody := body as real))
  }

  ghost predicate BodiesAgree(bs: seq<OutcomeBranch>, cs: seq<OutcomeBranch>, head: int) {
    |bs| == |cs| && forall i :: 0 <= i < |bs| ==>
      && bs[i].result == cs[i].result
      && (bs[i].result == Body ==> cs[i] == bs[i].(targetHead := head as real))
  }

  lemma HeadsAgreeAppend(bs: seq<OutcomeBranch>, cs: seq<OutcomeBranch>, b: seq<OutcomeBranch>, c: seq<OutcomeBranch>,
                         body: int)
    requires HeadsAgree(bs, cs, body) && HeadsAgree(b, c, body)
    ensures HeadsAgree(bs + b, cs + c, body)
  {
  }

  lemma BodiesAgreeAppend(bs: seq<OutcomeBranch>, cs: seq<OutcomeBranch>, b: seq<OutcomeBranch>, c: seq<OutcomeBranch>,
                          head: int)
    requires BodiesAgree(bs, cs, head) && BodiesAgree(b, c, head)
    ensures BodiesAgree(bs + b, cs + c, head)
  {
  }

  /** As far as the two attacks are alike, so are these branches. */
  ghost predicate Alike(a: Attack, c: Attack, bs: seq<OutcomeBranch>, cs: seq<OutcomeBranch>) {
    && (SameButBody(a, c) ==> HeadsAgree(bs, cs, c.target.body))
    && (SameButHead(a, c) ==> BodiesAgree(bs, cs, c.target.head))
  }

  lemma AlikeAppend(a: Attack, c: Attack, bs: seq<OutcomeBranch>, cs: seq<OutcomeBranch>,
                    b: seq<OutcomeBranch>, d: seq<OutcomeBranch>)
    requires Alike(a, c, bs, cs) && Alike(a, c, b, d)
    ensures Alike(a, c, bs + b, cs + d)
  {
    hide HeadsAgree, BodiesAgree, SameButBody, SameButHead;
    if SameButBody(a, c) {
      HeadsAgreeAppend(bs, cs, b, d, c.target.body);
    }
    if SameButHead(a, c) {
      BodiesAgreeAppend(bs, cs, b, d, c.target.head);
    }
  }

  lemma HitsAlike(a: Attack, c: Attack, location: HitResult, regular: int, armorRoll: int)
    requires SameButBody(a, c) || SameButHead(a, c)
    requires a.profile.low <= a.profile.high
    ensures c.profile == a.profile
    ensures Alike(a, c, [HitBranch(a, location, regular, armorRoll)], [HitBranch(c, location, regular, armorRoll)])
  {
  }

  lemma {:induction false} RowsAlike(a: Attack, c: Attack, location: HitResult, regular: int, top: int)
    requires SameButBody(a, c) || SameButHead(a, c)
    ensures Alike(a, c, Row(a, location, regular, top), Row(c, location, regular, top))
    decreases top - a.profile.low
  {
    if top > a.profile.low && a.profile.low <= a.profile.high {
      RowsAlike(a, c, location, regular, top - 1);
      HitsAlike(a, c, location, regular, top - 1);
      hide Alike, HitBranch;
      AlikeAppend(a, c, Row(a, location, regular, top - 1), Row(c, location, regular, top - 1),
                  [HitBranch(a, location, regular, top - 1)], [HitBranch(c, location, regular, top - 1)]);
    }
  }

  lemma {:induction false} BlocksAlike(a: Attack, c: Attack, location: HitResult, top: int)
    requires SameButBody(a, c) || SameButHead(a, c)
    ensures Alike(a, c, Block(a, location, top), Block(c, location, top))
    decreases top - a.profile.low
  {
    if top > a.profile.low {
      BlocksAlike(a, c, location, top - 1);
      RowsAlike(a, c, location, top - 1, a.profile.high + 1);
      hide Alike, Row;
      AlikeAppend(a, c, Block(a, location, top - 1), Block(c, location, top - 1),
                  Row(a, location, top - 1, a.profile.high + 1), Row(c, location, top - 1, a.profile.high + 1));
    }
  }

  lemma MissesAlike(a: Attack, c: Attack)
    requires SameButBody(a, c) || SameButHead(a, c)
    ensures Alike(a, c, [MissBranch(a)], [MissBranch(c)])
  {
  }

  /** Head hits do not depend on body armour, nor body hits on head armour. */
  lemma PlacesAreSeparate(a: Attack, c: Attack)
    requires SameButBody(a, c) || SameButHead(a, c)
    ensures SameButBody(a, c) ==> HeadsAgree(BranchesOf(a), BranchesOf(c), c.target.body)
    ensures SameButHead(a, c) ==> BodiesAgree(BranchesOf(a), BranchesOf(c), c.target.head)
  {
    var top := a.profile.high + 1;
    assert c.profile == a.profile;
    MissesAlike(a, c);
    BlocksAlike(a, c, Head, top);
    BlocksAlike(a, c, Body, top);
    AlikeAppend(a, c, [MissBranch(a)], [MissBranch(c)], Block(a, Head, top), Block(c, Head, top));
    AlikeAppend(a, c, [MissBranch(a)] + Block(a, Head, top), [MissBranch(c)] + Block(c, Head, top),
                Block(a, Body, top), Block(c, Body, top));
    hide HeadsAgree, BodiesAgree, Block, MissBranch, SameButBody, SameButHead;
  }

  // ----- Shares of the hit chance -----

  function At(location: HitResult): OutcomeBranch -> real {
    (b: OutcomeBranch) => if b.result == location then 1.0 else 0.0
  }

  function Rolled(location: HitResult, regular: int): OutcomeBranch -> real {
    (b: OutcomeBranch) => if b.result == location && b.damage == regular then 1.0 else 0.0
  }

  lemma {:induction false} TotalsAgree(bs: seq<OutcomeBranch>, f: OutcomeBranch -> real, g: OutcomeBranch -> real)
    requires forall b :: b in bs ==> f(b) == g(b)
    ensures Total(bs, f) == Total(bs, g)
  {
    if bs != [] {
      TotalsAgree(bs[..|bs| - 1], f, g);
    }
  }

  lemma BlockIsAt(a: Attack, location: HitResult)
    requires location != Miss
    ensures forall b :: b in Block(a, location, a.profile.high + 1) ==> b.result == location
  {
    BlockAll(a, location, a.profile.high + 1, (b: OutcomeBranch) => b.result == location);
  }

  /** A quarter of the hit chance lands on the head, the rest on the body. */
  lemma LocationShares(a: Attack)
    requires a.profile.low <= a.profile.high
    ensures Total(BranchesOf(a), At(Head)) == a.hitChance as real / 400.0
    ensures Total(BranchesOf(a), At(Body)) == 3.0 * a.hitChance as real / 400.0
    ensures Total(BranchesOf(a), At(Miss)) == 1.0 - a.hitChance as real / 100.0
  {
    ShareOf(a, Head);
    ShareOf(a, Body);
    MissTotal(a);
    TotalsAgree(BranchesOf(a), At(Miss), IsMiss);
    hide Total, BranchesOf;
  }

  lemma PartTotal(bs: seq<OutcomeBranch>, here: HitResult, location: HitResult)
    requires forall b :: b in bs ==> b.result == here
    ensures Total(bs, At(location)) == if here == location then Total(bs, One) else 0.0
  {
    if here == location {
      TotalsAgree(bs, At(location), One);
    } else {
      NothingTotals(bs, At(location));
    }
  }

  /** A location's share is what its own block weighs. */
  lemma ShareOf(a: Attack, location: HitResult)
    requires a.profile.low <= a.profile.high && location != Miss
    ensures Total(BranchesOf(a), At(location)) == Hit(a) * Share(location)
  {
    var f, top := At(location), a.profile.high + 1;
    var other := if location == Head then Body else Head;
    BlockIsAt(a, location);
    BlockIsAt(a, other);
    LocationMass(a, location);
    PartTotal(Block(a, location, top), location, location);
    PartTotal(Block(a, other, top), other, location);
    TotalOfBranches(a, f);
    assert Term(MissBranch(a), f) == 0.0;
    hide Total, BranchesOf, Block, Term, MissBranch, Share, Hit, At;
  }

  lemma OtherRow(bs: seq<OutcomeBranch>, location: HitResult, row: int, regular: int)
    requires forall b :: b in bs ==> b.result == location && b.damage == row
    ensures Total(bs, Rolled(location, regular)) == if row == regular then Total(bs, One) else 0.0
  {
    if row == regular {
      TotalsAgree(bs, Rolled(location, regular), One);
    } else {
      NothingTotals(bs, Rolled(location, regular));
    }
  }

  /** What one regular roll weighs at a location. */
  function RowMass(a: Attack, location: HitResult): real
    requires a.profile.low <= a.profile.high
  {
    Times(Rolls(a.profile) as real, RollChance(a, location))
  }

  lemma RowTotal(a: Attack, location: HitResult, row: int)
    requires a.profile.low <= row <= a.profile.high
    ensures Total(Row(a, location, row, a.profile.high + 1), One) == RowMass(a, location)
  {
    RowUniform(a, location, row, a.profile.high + 1);
    UniformMass(Row(a, location, row, a.profile.high + 1), RollChance(a, location));
    hide Row, Total, RollChance;
  }

  lemma RowRolled(a: Attack, location: HitResult, row: int, regular: int)
    requires location != Miss && a.profile.low <= row <= a.profile.high
    ensures Total(Row(a, location, row, a.profile.high + 1), Rolled(location, regular))
            == if row == regular then RowMass(a, location) else 0.0
  {
    RowAll(a, location, row, a.profile.high + 1, (b: OutcomeBranch) => b.result == location && b.damage == row);
    OtherRow(Row(a, location, row, a.profile.high + 1), location, row, regular);
    RowTotal(a, location, row);
    hide Row, Total, Rolled, RowMass;
  }

  lemma {:induction false} EachRoll(a: Attack, location: HitResult, regular: int, top: int)
    requires location != Miss && a.profile.low <= regular <= a.profile.high && top <= a.profile.high + 1
    ensures Total(Block(a, location, top), Rolled(location, regular))
            == if regular < top then RowMass(a, location) else 0.0
    decreases top - a.profile.low
  {
    if top <= a.profile.low {
      return;
    }
    hide Row, Total, Rolled, RowMass;
    var f := Rolled(location, regular);
    EachRoll(a, location, regular, top - 1);
    TotalAppend(Block(a, location, top - 1), Row(a, location, top - 1, a.profile.high + 1), f);
    RowRolled(a, location, top - 1, regular);
  }

  /** At each place every regular roll is as likely as any other. */
  lemma RollsAreEven(a: Attack, location: HitResult, regular: int)
    requires location != Miss && a.profile.low <= regular <= a.profile.high
    ensures Times((a.profile.high - a.profile.low + 1) as real, Total(BranchesOf(a), Rolled(location, regular)))
            == Total(BranchesOf(a), At(location))
  {
    RollWeighs(a, location, regular);
    ShareOf(a, location);
    RollChances(a, location);
    PairUp(Rolls(a.profile), RollChance(a, location));
    hide Total, BranchesOf, RollChance, Hit, Share, Times;
  }

  lemma RollWeighs(a: Attack, location: HitResult, regular: int)
    requires location != Miss && a.profile.low <= regular <= a.profile.high
    ensures Total(BranchesOf(a), Rolled(location, regular)) == RowMass(a, location)
  {
    var f, top := Rolled(location, regular), a.profile.high + 1;
    var other := if location == Head then Body else Head;
    TotalOfBranches(a, f);
    EachRoll(a, location, regular, top);
    BlockIsAt(a, other);
    NothingTotals(Block(a, other, top), f);
    assert Term(MissBranch(a), f) == 0.0;
    hide Total, BranchesOf, Block, Term, MissBranch, Rolled, RowMass;
  }

  lemma PairUp(n: int, chance: real)
    ensures Times(n as real, Times(n as real, chance)) == Times((n * n) as real, chance)
  {
    assert n as real * (n as real * chance) == (n as real * n as real) * chance;
  }
}
