/** Outcome branches of one ordinary attack, and their probability-weighted totals. */
module AttackOutcomes {
  import opened Common
  import opened Reals

  datatype HitResult = Miss | Head | Body

  datatype OutcomeBranch = OutcomeBranch(
    result: HitResult, probability: real, damage: int, armorDamage: real, hpDamage: int,
    targetHp: int, targetHead: real, targetBody: real,
    actorAp: Option<int>, actorFatigue: Option<int>, killed: bool)

  datatype DamageProfile = DamageProfile(
    low: int, high: int, armorMultiplier: real, directMultiplier: real, headMultiplier: real)

  datatype Target = Target(hp: int, head: int, body: int)

  /** One attack: chance in percent, damage profile, target, and the attacker's remaining resources. */
  datatype Attack = Attack(
    hitChance: int, profile: DamageProfile, target: Target, actorAp: Option<int>, actorFatigue: Option<int>)

  const HEAD_SHARE := 0.25
  const ARMOR_DIRECT_MITIGATION := 0.1

  function Hit(a: Attack): real {
    a.hitChance as real / 100.0
  }

  function Max(x: int, y: int): int {
    if x >= y then x else y
  }

  /** Conversion to a whole number towards zero. */
  function Trunc(x: real): int {
    if x >= 0.0 then x.Floor else -(-x).Floor
  }

  // ----- One hit -----

  function ArmorDamage(p: DamageProfile, start: int, armorRoll: int): real {
    RMin(start as real, Times(armorRoll as real, p.armorMultiplier))
  }

  /** HP damage before the location multiplier: what goes past the armour, plus the overflow once it is gone. */
  function RawDamage(p: DamageProfile, start: int, regular: int, armorRoll: int): real {
    var armorDamage := ArmorDamage(p, start, armorRoll);
    var remaining := start as real - armorDamage;
    RMax(0.0, Times(regular as real, p.directMultiplier) - remaining * ARMOR_DIRECT_MITIGATION)
    + (if remaining <= 0.0 || p.directMultiplier >= 1.0
       then RMax(0.0, Times(regular as real, RMax(0.0, 1.0 - p.directMultiplier)) - armorDamage)
       else 0.0)
  }

  function LocationMultiplier(p: DamageProfile, location: HitResult): real {
    if location == Head then p.headMultiplier else 1.0
  }

  /** Damage as it is taken off hit points: scaled, rounded half up, never negative. */
  function Landed(raw: real, multiplier: real): int {
    Max(0, Trunc(Times(raw, multiplier) + 0.5))
  }

  function HpDamage(p: DamageProfile, location: HitResult, start: int, regular: int, armorRoll: int): int {
    Landed(RawDamage(p, start, regular, armorRoll), LocationMultiplier(p, location))
  }

  function StartingArmor(t: Target, location: HitResult): int {
    if location == Head then t.head else t.body
  }

  function Share(location: HitResult): real {
    if location == Head then HEAD_SHARE else 1.0 - HEAD_SHARE
  }

  function Rolls(p: DamageProfile): int {
    p.high - p.low + 1
  }

  /** How many (regular roll, armour roll) pairs there are. */
  function Pairs(p: DamageProfile): int {
    Rolls(p) * Rolls(p)
  }

  lemma PairsPositive(p: DamageProfile)
    requires p.low <= p.high
    ensures Pairs(p) >= 1
  {
  }

  /** The probability of one (location, regular roll, armour roll) outcome. */
  function RollChance(a: Attack, location: HitResult): real
    requires a.profile.low <= a.profile.high
  {
    PairsPositive(a.profile);
    Hit(a) * Share(location) / Pairs(a.profile) as real
  }

  function HitBranch(a: Attack, location: HitResult, regular: int, armorRoll: int): OutcomeBranch
    requires a.profile.low <= a.profile.high
  {
    var start := StartingArmor(a.target, location);
    var armorDamage := ArmorDamage(a.profile, start, armorRoll);
    var hpDamage := HpDamage(a.profile, location, start, regular, armorRoll);
    var remainingHp := Max(0, a.target.hp - hpDamage);
    OutcomeBranch(
      location, RollChance(a, location), regular, armorDamage, hpDamage, remainingHp,
      if location == Head then RMax(0.0, a.target.head as real - armorDamage) else a.target.head as real,
      if location == Body then RMax(0.0, a.target.body as real - armorDamage) else a.target.body as real,
      a.actorAp, a.actorFatigue, remainingHp == 0)
  }

  function MissBranch(a: Attack): OutcomeBranch {
    OutcomeBranch(Miss, 1.0 - Hit(a), 0, 0.0, 0, a.target.hp, a.target.head as real, a.target.body as real,
                  a.actorAp, a.actorFatigue, false)
  }

  // ----- All branches -----

  /** The branches of one regular roll, for armour rolls below `top`. */
  function Row(a: Attack, location: HitResult, regular: int, top: int): seq<OutcomeBranch>
    decreases top - a.profile.low
  {
    if top <= a.profile.low || a.profile.high < a.profile.low then []
    else Row(a, location, regular, top - 1) + [HitBranch(a, location, regular, top - 1)]
  }

  /** The branches of one location, for regular rolls below `top`. */
  function Block(a: Attack, location: HitResult, top: int): seq<OutcomeBranch>
    decreases top - a.profile.low
  {
    if top <= a.profile.low then []
    else Block(a, location, top - 1) + Row(a, location, top - 1, a.profile.high + 1)
  }

  function BranchesOf(a: Attack): seq<OutcomeBranch> {
    [MissBranch(a)] + Block(a, Head, a.profile.high + 1) + Block(a, Body, a.profile.high + 1)
  }

  method Branches(a: Attack) returns (branches: seq<OutcomeBranch>)
    ensures branches == BranchesOf(a)
  {
    branches := [MissBranch(a)];
    var heads := LocationBranches(a, Head);
    var bodies := LocationBranches(a, Body);
    branches := branches + heads + bodies;
  }

  method LocationBranches(a: Attack, location: HitResult) returns (branches: seq<OutcomeBranch>)
    ensures branches == Block(a, location, a.profile.high + 1)
  {
    branches := [];
    if a.profile.high < a.profile.low {
      return;
    }
    for regular := a.profile.low to a.profile.high + 1
      invariant branches == Block(a, location, regular)
    {
      ghost var before := branches;
      for armorRoll := a.profile.low to a.profile.high + 1
        invariant branches == before + Row(a, location, regular, armorRoll)
      {
        branches := branches + [HitBranch(a, location, regular, armorRoll)];
      }
    }
  }

  // ----- Weighted totals -----

  /** The probability-weighted total of `f` over some branches. */
  function Total(bs: seq<OutcomeBranch>, f: OutcomeBranch -> real): real {
    if bs == [] then 0.0 else Total(bs[..|bs| - 1], f) + Term(bs[|bs| - 1], f)
  }

  function Term(b: OutcomeBranch, f: OutcomeBranch -> real): real {
    b.probability * f(b)
  }

  function One(b: OutcomeBranch): real {
    1.0
  }

  function Killed(b: OutcomeBranch): real {
    if b.killed then 1.0 else 0.0
  }

  function Damage(b: OutcomeBranch): real {
    b.hpDamage as real
  }

  lemma {:induction false} TotalAppend(a: seq<OutcomeBranch>, b: seq<OutcomeBranch>, f: OutcomeBranch -> real)
    ensures Total(a + b, f) == Total(a, f) + Total(b, f)
  {
    if b == [] {
      assert a + b == a;
    } else {
      assert (a + b)[..|a + b| - 1] == a + b[..|b| - 1];
      TotalAppend(a, b[..|b| - 1], f);
    }
  }

  lemma TotalOfBranches(a: Attack, f: OutcomeBranch -> real)
    ensures Total(BranchesOf(a), f)
            == Term(MissBranch(a), f) + Total(Block(a, Head, a.profile.high + 1), f)
               + Total(Block(a, Body, a.profile.high + 1), f)
  {
    var miss, heads, bodies := [MissBranch(a)], Block(a, Head, a.profile.high + 1), Block(a, Body, a.profile.high + 1);
    TotalAppend(miss + heads, bodies, f);
    TotalAppend(miss, heads, f);
    assert miss[..0] == [] && Total(miss[..0], f) == 0.0;
  }

  // ----- Probability is conserved -----

  predicate Uniform(bs: seq<OutcomeBranch>, chance: real) {
    forall i :: 0 <= i < |bs| ==> bs[i].probability == chance
  }

  lemma {:induction false} UniformMass(bs: seq<OutcomeBranch>, chance: real)
    requires Uniform(bs, chance)
    ensures Total(bs, One) == |bs| as real * chance
  {
    if bs != [] {
      UniformMass(bs[..|bs| - 1], chance);
      assert Term(bs[|bs| - 1], One) == chance;
      assert (|bs| - 1) as real * chance + chance == |bs| as real * chance;
    }
  }

  lemma {:induction false} RowUniform(a: Attack, location: HitResult, regular: int, top: int)
    requires a.profile.low <= top <= a.profile.high + 1 && a.profile.low <= a.profile.high
    ensures |Row(a, location, regular, top)| == top - a.profile.low
    ensures Uniform(Row(a, location, regular, top), RollChance(a, location))
    decreases top - a.profile.low
  {
    if top > a.profile.low {
      RowUniform(a, location, regular, top - 1);
    }
  }

  lemma {:induction false} BlockUniform(a: Attack, location: HitResult, top: int)
    requires a.profile.low <= top <= a.profile.high + 1 && a.profile.low <= a.profile.high
    ensures Uniform(Block(a, location, top), RollChance(a, location))
    decreases top - a.profile.low
  {
    if top > a.profile.low {
      BlockUniform(a, location, top - 1);
      RowUniform(a, location, top - 1, a.profile.high + 1);
    }
  }

  lemma {:induction false} BlockLength(a: Attack, location: HitResult, top: int, rows: nat)
    requires top == a.profile.low + rows && top <= a.profile.high + 1
    ensures |Block(a, location, top)| == rows * Rolls(a.profile)
    decreases rows
  {
    if rows > 0 {
      BlockLength(a, location, top - 1, rows - 1);
      RowUniform(a, location, top - 1, a.profile.high + 1);
      Distribute(rows, Rolls(a.profile));
    }
  }

  lemma Distribute(n: int, r: int)
    ensures n * r == (n - 1) * r + r
  {
  }

  lemma ShareOut(x: real, n: nat)
    requires n >= 1
    ensures n as real * (x / n as real) == x
  {
  }

  lemma EvenShares(bs: seq<OutcomeBranch>, n: int, chance: real, x: real)
    requires |bs| == n && Uniform(bs, chance) && Times(n as real, chance) == x
    ensures Total(bs, One) == x
  {
    UniformMass(bs, chance);
  }

  lemma RollChances(a: Attack, location: HitResult)
    requires a.profile.low <= a.profile.high
    ensures Times(Pairs(a.profile) as real, RollChance(a, location)) == Hit(a) * Share(location)
  {
    PairsPositive(a.profile);
    ShareOut(Hit(a) * Share(location), Pairs(a.profile));
  }

  lemma LocationMass(a: Attack, location: HitResult)
    requires a.profile.low <= a.profile.high
    ensures Total(Block(a, location, a.profile.high + 1), One) == Hit(a) * Share(location)
  {
    BlockUniform(a, location, a.profile.high + 1);
    BlockLength(a, location, a.profile.high + 1, Rolls(a.profile));
    RollChances(a, location);
    EvenShares(
      Block(a, location, a.profile.high + 1), Pairs(a.profile), RollChance(a, location), Hit(a) * Share(location));
  }

  lemma SharesAddUp(a: Attack)
    ensures Hit(a) * Share(Head) + Hit(a) * Share(Body) == Hit(a)
    ensures Hit(a) == 0.0 <==> a.hitChance == 0
  {
  }

  /** An inverted damage range leaves a location without branches. */
  lemma NoRolls(a: Attack, location: HitResult)
    requires a.profile.low > a.profile.high
    ensures Total(Block(a, location, a.profile.high + 1), One) == 0.0
  {
  }

  lemma MassOfBranches(a: Attack)
    ensures Total(BranchesOf(a), One) == if a.profile.low <= a.profile.high then 1.0 else 1.0 - Hit(a)
  {
    TotalOfBranches(a, One);
    SharesAddUp(a);
    hide BranchesOf, Block;
    if a.profile.low <= a.profile.high {
      LocationMass(a, Head);
      LocationMass(a, Body);
    } else {
      NoRolls(a, Head);
      NoRolls(a, Body);
    }
  }

  /**
   * The branches carry probability exactly 1 precisely when the damage range is not inverted
   * (or a hit is impossible): with an inverted range only the miss branch is produced.
   */
  lemma MassIsOneIff(a: Attack)
    ensures Total(BranchesOf(a), One) == 1.0 <==> a.profile.low <= a.profile.high || a.hitChance == 0
  {
    MassOfBranches(a);
    SharesAddUp(a);
  }
}
