/** What holds of every move under contingent reactions. */
module ReactionLaws {
  import opened Common
  import opened Reals
  import opened AttackOutcomes
  import opened AttackKnowledge
  import opened DamageMonotone
  import opened Reactions
  import opened Sums

  // ----- What one strike's branches are like -----

  /** A property of the miss branch and of every hit branch holds of all branches. */
  lemma BranchesAll(a: Attack, good: OutcomeBranch -> bool)
    requires good(MissBranch(a))
    requires forall location, regular, armorRoll ::
               && location != Miss
               && a.profile.low <= regular <= a.profile.high && a.profile.low <= armorRoll <= a.profile.high
               ==> good(HitBranch(a, location, regular, armorRoll))
    ensures forall b :: b in BranchesOf(a) ==> good(b)
  {
    BlockAll(a, Head, a.profile.high + 1, good);
    BlockAll(a, Body, a.profile.high + 1, good);
  }

  lemma {:induction false} BlockAll(a: Attack, location: HitResult, top: int, good: OutcomeBranch -> bool)
    requires top <= a.profile.high + 1
    requires forall regular, armorRoll ::
               a.profile.low <= regular <= a.profile.high && a.profile.low <= armorRoll <= a.profile.high
               ==> good(HitBranch(a, location, regular, armorRoll))
    ensures forall b :: b in Block(a, location, top) ==> good(b)
    decreases top - a.profile.low
  {
    if top > a.profile.low {
      BlockAll(a, location, top - 1, good);
      RowAll(a, location, top - 1, a.profile.high + 1, good);
    }
  }

  lemma {:induction false} RowAll(a: Attack, location: HitResult, regular: int, top: int, good: OutcomeBranch -> bool)
    requires top <= a.profile.high + 1 && a.profile.low <= regular <= a.profile.high
    requires forall armorRoll ::
               a.profile.low <= armorRoll <= a.profile.high ==> good(HitBranch(a, location, regular, armorRoll))
    ensures forall b :: b in Row(a, location, regular, top) ==> good(b)
    decreases top - a.profile.low
  {
    if top > a.profile.low {
      RowAll(a, location, regular, top - 1, good);
    }
  }

  /** Reweighting and integrating keep any property that ignores the branch's chance. */
  lemma {:induction false} IntegratedAll(a: Attack, cases: seq<Case>, good: OutcomeBranch -> bool)
    requires forall b: OutcomeBranch, p: real :: good(b) ==> good(b.(probability := p))
    requires forall c :: c in cases ==> forall b :: b in BranchesOf(a.(target := c.target)) ==> good(b)
    ensures forall b :: b in IntegratedOf(a, cases) ==> good(b)
  {
    if cases != [] {
      var c := cases[|cases| - 1];
      IntegratedAll(a, cases[..|cases| - 1], good);
      if c.weight.Some? {
        WeighAll(BranchesOf(a.(target := c.target)), c.weight.value, good);
      }
    }
  }

  lemma {:induction false} WeighAll(bs: seq<OutcomeBranch>, w: real, good: OutcomeBranch -> bool)
    requires forall b: OutcomeBranch, p: real :: good(b) ==> good(b.(probability := p))
    requires forall b :: b in bs ==> good(b)
    ensures forall b :: b in Weigh(bs, w) ==> good(b)
  {
    if bs != [] {
      WeighAll(bs[..|bs| - 1], w, good);
    }
  }

  predicate MissSpares(b: OutcomeBranch) {
    b.result == Miss ==> !b.killed
  }

  predicate Lands(b: OutcomeBranch) {
    b.result != Miss
  }

  function IsMiss(b: OutcomeBranch): real {
    if b.result == Miss then 1.0 else 0.0
  }

  function Nothing(b: OutcomeBranch): real {
    0.0
  }

  lemma {:induction false} NothingTotals(bs: seq<OutcomeBranch>, f: OutcomeBranch -> real)
    requires forall b :: b in bs ==> f(b) == 0.0
    ensures Total(bs, f) == 0.0
  {
    if bs != [] {
      NothingTotals(bs[..|bs| - 1], f);
    }
  }

  /** The miss branch carries what the hit chance leaves. */
  lemma MissTotal(a: Attack)
    ensures Total(BranchesOf(a), IsMiss) == 1.0 - Hit(a)
  {
    TotalOfBranches(a, IsMiss);
    BlockAll(a, Head, a.profile.high + 1, Lands);
    BlockAll(a, Body, a.profile.high + 1, Lands);
    NothingTotals(Block(a, Head, a.profile.high + 1), IsMiss);
    NothingTotals(Block(a, Body, a.profile.high + 1), IsMiss);
  }

  lemma {:induction false} MissCases(a: Attack, cases: seq<Case>)
    requires CasesWeighted(cases, true)
    ensures CaseTotal(a, cases, IsMiss) == Times(CaseMass(cases), 1.0 - Hit(a))
  {
    if cases != [] {
      MissCases(a, cases[..|cases| - 1]);
      MissTotal(a.(target := cases[|cases| - 1].target));
      AddTimes(CaseMass(cases[..|cases| - 1]), cases[|cases| - 1].weight.value, 1.0 - Hit(a));
    }
  }

  // ----- The standing assumptions on a move -----

  /** Whatever is known of the mover's HP and armour, its probabilities add up to 1. */
  predicate KnownSoundly(m: Mover) {
    Normalised(m.hp) && Normalised(m.head) && Normalised(m.body)
  }

  /** The damage range is not inverted. */
  predicate Orderly(r: Reaction) {
    r.profile.Some? ==> r.profile.value.low <= r.profile.value.high
  }

  /** A strike conserves probability, misses with the chance it does not hit, and a miss kills nobody. */
  lemma StrikeFacts(playerLegal: bool, r: Reaction, hit: int, m: Mover)
    requires Strike(playerLegal, r, hit, m).Ok? && KnownSoundly(m) && Orderly(r)
    ensures var bs := Strike(playerLegal, r, hit, m).value;
            && Total(bs, One) == 1.0
            && Total(bs, IsMiss) == 1.0 - hit as real / 100.0
            && forall b :: b in bs ==> MissSpares(b)
  {
    var a := AttackOf(hit, r.profile.value);
    var hps, heads, bodies := Values(m.hp).value, Values(m.head).value, Values(m.body).value;
    var cases := Cases(hps, heads, bodies);
    StruckIsWeighted(a, m);
    KnowledgeConservesMass(a, m.hp, m.head, m.body);
    CasesMass(hps, heads, bodies);
    IntegratedTotal(a, cases, IsMiss);
    MissCases(a, cases);
    StrikeSpares(playerLegal, r, hit, m);
  }

  lemma StrikeSpares(playerLegal: bool, r: Reaction, hit: int, m: Mover)
    requires Strike(playerLegal, r, hit, m).Ok?
    ensures forall b :: b in Strike(playerLegal, r, hit, m).value ==> MissSpares(b)
  {
    var a := AttackOf(hit, r.profile.value);
    var cases := Cases(Values(m.hp).value, Values(m.head).value, Values(m.body).value);
    forall c | c in cases ensures forall b :: b in BranchesOf(a.(target := c.target)) ==> MissSpares(b) {
      BranchesAll(a.(target := c.target), MissSpares);
    }
    IntegratedAll(a, cases, MissSpares);
  }

  /** Only weighted knowledge survives into branches. */
  lemma StruckIsWeighted(a: Attack, m: Mover)
    requires !m.hp.Unknown? && !m.head.Unknown? && !m.body.Unknown?
    requires KnownSoundly(m)
    requires IntegratedOf(a, Cases(Values(m.hp).value, Values(m.head).value, Values(m.body).value)) != []
    ensures Weighted(m.hp) && Weighted(m.head) && Weighted(m.body)
  {
    var hps, heads, bodies := Values(m.hp).value, Values(m.head).value, Values(m.body).value;
    if !Weighted(m.hp) || !Weighted(m.head) || !Weighted(m.body) {
      SomeUnweighted(hps, heads, bodies);
      UnweightedIntegratesNothing(a, Cases(hps, heads, bodies));
    }
  }

  // ----- Sums over pending branches -----

  function Chance(p: Pending): real {
    p.probability
  }

  /** The chance of a branch that is still to complete. */
  function ClearChance(p: Pending): real {
    if Clear(p) then p.probability else 0.0
  }

  /** Following a strike spreads a branch's weight over the strike's branches. */
  lemma {:induction false} FollowSum(
      p: Pending, r: Reaction, bs: seq<OutcomeBranch>, w: Pending -> real, f: OutcomeBranch -> real)
    requires forall b :: b in bs ==> w(Next(p, r, b)) == Times(p.probability, Term(b, f))
    ensures Sum(Follow(p, r, bs), w) == Times(p.probability, Total(bs, f))
  {
    if bs != [] {
      var front, b := bs[..|bs| - 1], bs[|bs| - 1];
      FollowSum(p, r, front, w, f);
      SumAppend(Follow(p, r, front), [Next(p, r, b)], w);
      SumOne(Next(p, r, b), w);
      TimesAdd(p.probability, Total(front, f), Term(b, f));
    }
  }

  /** What a law-abiding strike with miss chance `q` looks like. */
  ghost predicate StrikeLaw(bs: seq<OutcomeBranch>, q: real) {
    && Total(bs, One) == 1.0
    && Total(bs, IsMiss) == q
    && forall b :: b in bs ==> MissSpares(b)
  }

  /** Strikes obey the law at every mover that is `sound`, and leave nothing but sound movers behind. */
  ghost predicate Lawful(strike: Strikes, sound: Mover -> bool, q: real) {
    && (forall m :: sound(m) && strike(m).Ok? ==> StrikeLaw(strike(m).value, q))
    && (forall p, r, b :: sound(Next(p, r, b).mover))
  }

  ghost predicate AllSound(sound: Mover -> bool, ps: seq<Pending>) {
    forall p :: p in ps ==> sound(p.mover)
  }

  lemma {:induction false} FollowSound(sound: Mover -> bool, p: Pending, r: Reaction, bs: seq<OutcomeBranch>)
    requires forall q, s, b :: sound(Next(q, s, b).mover)
    ensures AllSound(sound, Follow(p, r, bs))
  {
    if bs != [] {
      FollowSound(sound, p, r, bs[..|bs| - 1]);
    }
  }

  /** The branches one reaction makes of one pending branch. */
  function Struck(strike: Strikes, r: Reaction, p: Pending): seq<Pending>
    requires p.mover.alive ==> strike(p.mover).Ok?
  {
    if p.mover.alive then Follow(p, r, strike(p.mover).value) else [p.(interrupted := true)]
  }

  lemma StruckSums(strike: Strikes, sound: Mover -> bool, q: real, r: Reaction, p: Pending)
    requires Lawful(strike, sound, q) && sound(p.mover)
    requires p.mover.alive ==> strike(p.mover).Ok?
    ensures AllSound(sound, Struck(strike, r, p))
    ensures Sum(Struck(strike, r, p), Chance) == p.probability
    ensures Sum(Struck(strike, r, p), ClearChance) == Times(ClearChance(p), q)
  {
    if !p.mover.alive {
      SumOne(p.(interrupted := true), Chance);
      SumOne(p.(interrupted := true), ClearChance);
    } else {
      var bs := strike(p.mover).value;
      FollowSound(sound, p, r, bs);
      FollowSum(p, r, bs, Chance, One);
      if p.interrupted {
        NothingTotals(bs, Nothing);
        FollowSum(p, r, bs, ClearChance, Nothing);
      } else {
        FollowSum(p, r, bs, ClearChance, IsMiss);
      }
    }
  }

  lemma StrikeAllStep(strike: Strikes, r: Reaction, ps: seq<Pending>)
    requires ps != [] && StrikeAll(strike, r, ps).Ok?
    ensures var front, p := ps[..|ps| - 1], ps[|ps| - 1];
            && StrikeAll(strike, r, front).Ok? && (p.mover.alive ==> strike(p.mover).Ok?)
            && StrikeAll(strike, r, ps).value == StrikeAll(strike, r, front).value + Struck(strike, r, p)
  {
  }

  lemma {:induction false} StrikeAllSound(strike: Strikes, sound: Mover -> bool, q: real, r: Reaction, ps: seq<Pending>)
    requires Lawful(strike, sound, q) && AllSound(sound, ps) && StrikeAll(strike, r, ps).Ok?
    ensures AllSound(sound, StrikeAll(strike, r, ps).value)
  {
    if ps != [] {
      StrikeAllStep(strike, r, ps);
      StrikeAllSound(strike, sound, q, r, ps[..|ps| - 1]);
      StruckSums(strike, sound, q, r, ps[|ps| - 1]);
    }
  }

  /** What `r` makes of any sound pending branch weighs `k` times what the branch weighed. */
  ghost predicate Scales(strike: Strikes, sound: Mover -> bool, r: Reaction, w: Pending -> real, k: real) {
    forall p: Pending :: sound(p.mover) && (p.mover.alive ==> strike(p.mover).Ok?) ==>
      Sum(Struck(strike, r, p), w) == Times(w(p), k)
  }

  lemma {:induction false} StrikeAllScales(strike: Strikes, sound: Mover -> bool, r: Reaction, ps: seq<Pending>,
                                           w: Pending -> real, k: real)
    requires Scales(strike, sound, r, w, k) && AllSound(sound, ps) && StrikeAll(strike, r, ps).Ok?
    ensures Sum(StrikeAll(strike, r, ps).value, w) == Times(Sum(ps, w), k)
  {
    if ps != [] {
      var front, p := ps[..|ps| - 1], ps[|ps| - 1];
      StrikeAllStep(strike, r, ps);
      StrikeAllScales(strike, sound, r, front, w, k);
      SumAppend(StrikeAll(strike, r, front).value, Struck(strike, r, p), w);
      assert sound(p.mover);
      AddTimes(Sum(front, w), w(p), k);
    }
  }

  /** Each reaction keeps the total probability and scales what can still complete by its miss chance. */
  lemma StrikeAllSums(strike: Strikes, sound: Mover -> bool, q: real, r: Reaction, ps: seq<Pending>)
    requires Lawful(strike, sound, q) && AllSound(sound, ps) && StrikeAll(strike, r, ps).Ok?
    ensures Sum(StrikeAll(strike, r, ps).value, Chance) == Sum(ps, Chance)
    ensures Sum(StrikeAll(strike, r, ps).value, ClearChance) == Times(Sum(ps, ClearChance), q)
  {
    forall p: Pending | sound(p.mover) && (p.mover.alive ==> strike(p.mover).Ok?)
      ensures Sum(Struck(strike, r, p), Chance) == Times(p.probability, 1.0)
      ensures Sum(Struck(strike, r, p), ClearChance) == Times(ClearChance(p), q)
    {
      StruckSums(strike, sound, q, r, p);
    }
    StrikeAllScales(strike, sound, r, ps, Chance, 1.0);
    StrikeAllScales(strike, sound, r, ps, ClearChance, q);
  }

  lemma ExactIsNormalised(v: int)
    ensures Normalised(Exact(v))
  {
    var ps := Values(Exact(v)).value;
    assert ps[..0] == [] && Mass(ps[..0]) == 0.0;
  }

  lemma NextIsSound(p: Pending, r: Reaction, b: OutcomeBranch)
    ensures KnownSoundly(Next(p, r, b).mover)
  {
    ExactIsNormalised(b.targetHp);
    ExactIsNormalised(Trunc(b.targetHead));
    ExactIsNormalised(Trunc(b.targetBody));
  }

  // ----- Laws a strike rule may obey -----

  /** A miss kills nobody. */
  ghost predicate Sparing(rule: StrikeRule) {
    forall r, hit, m :: rule(r, hit, m).Ok? ==> forall b :: b in rule(r, hit, m).value ==> MissSpares(b)
  }

  /** For orderly reactions at soundly known movers probability is conserved, and what is not hit is missed. */
  ghost predicate ConservingStrikes(rule: StrikeRule, sound: Mover -> bool) {
    forall r, hit, m :: Orderly(r) && sound(m) && rule(r, hit, m).Ok? ==>
      StrikeLaw(rule(r, hit, m).value, 1.0 - hit as real / 100.0)
  }

  ghost predicate StaysSound(sound: Mover -> bool) {
    forall p, r, b :: sound(Next(p, r, b).mover)
  }

  ghost predicate Conserving(rule: StrikeRule, sound: Mover -> bool) {
    ConservingStrikes(rule, sound) && StaysSound(sound)
  }

  /** No outcome has a negative probability. */
  ghost predicate Chancy(rule: StrikeRule, sound: Mover -> bool) {
    forall r, hit, m :: Orderly(r) && 0 <= hit <= 100 && sound(m) && rule(r, hit, m).Ok? ==>
      forall b :: b in rule(r, hit, m).value ==> Likely(b)
  }

  /** Hit points and armour never rise above anything the mover may have had. */
  ghost predicate Wounding(rule: StrikeRule) {
    forall r, hit, m, t ::
      rule(r, hit, m).Ok? && AtMost(m, t) && (r.profile.Some? ==> Nonnegative(r.profile.value)) ==>
        forall b :: b in rule(r, hit, m).value ==> Declined(t, b)
  }

  lemma OrdinarySparing(playerLegal: bool)
    ensures Sparing(OrdinaryAttacks(playerLegal))
  {
    var rule := OrdinaryAttacks(playerLegal);
    forall r, hit, m | rule(r, hit, m).Ok? ensures forall b :: b in rule(r, hit, m).value ==> MissSpares(b) {
      StrikeSpares(playerLegal, r, hit, m);
    }
  }

  lemma StrikeObeys(playerLegal: bool, r: Reaction, hit: int, m: Mover)
    requires Strike(playerLegal, r, hit, m).Ok? && KnownSoundly(m) && Orderly(r)
    ensures StrikeLaw(Strike(playerLegal, r, hit, m).value, 1.0 - hit as real / 100.0)
  {
    StrikeFacts(playerLegal, r, hit, m);
  }

  lemma OrdinaryConserving(playerLegal: bool)
    ensures ConservingStrikes(OrdinaryAttacks(playerLegal), KnownSoundly)
  {
    hide Strike, StrikeLaw, KnownSoundly, Orderly;
    var rule := OrdinaryAttacks(playerLegal);
    forall r, hit, m | Orderly(r) && KnownSoundly(m) && rule(r, hit, m).Ok?
      ensures StrikeLaw(rule(r, hit, m).value, 1.0 - hit as real / 100.0)
    {
      StrikeObeys(playerLegal, r, hit, m);
    }
  }

  lemma NextStaysSound()
    ensures StaysSound(KnownSoundly)
  {
    forall p, s, b ensures KnownSoundly(Next(p, s, b).mover) {
      NextIsSound(p, s, b);
    }
  }

  lemma OrdinaryChancy(playerLegal: bool)
    ensures Chancy(OrdinaryAttacks(playerLegal), KnownSoundly)
  {
    var rule := OrdinaryAttacks(playerLegal);
    forall r, hit, m | Orderly(r) && 0 <= hit <= 100 && KnownSoundly(m) && rule(r, hit, m).Ok?
      ensures forall b :: b in rule(r, hit, m).value ==> Likely(b)
    {
      StrikeLikely(playerLegal, r, hit, m);
    }
  }

  lemma OrdinaryWounding(playerLegal: bool)
    ensures Wounding(OrdinaryAttacks(playerLegal))
  {
    var rule := OrdinaryAttacks(playerLegal);
    forall r, hit, m, t |
      rule(r, hit, m).Ok? && AtMost(m, t) && (r.profile.Some? ==> Nonnegative(r.profile.value))
      ensures forall b :: b in rule(r, hit, m).value ==> Declined(t, b)
    {
      StrikeDeclines(playerLegal, r, hit, m, t);
    }
  }

  /** Ordinary attacks obey all four laws. */
  lemma OrdinaryAttacksObey(playerLegal: bool)
    ensures Sparing(OrdinaryAttacks(playerLegal))
    ensures Conserving(OrdinaryAttacks(playerLegal), KnownSoundly)
    ensures Chancy(OrdinaryAttacks(playerLegal), KnownSoundly)
    ensures Wounding(OrdinaryAttacks(playerLegal))
  {
    hide Sparing, ConservingStrikes, StaysSound, Chancy, Wounding;
    NextStaysSound();
    OrdinarySparing(playerLegal);
    OrdinaryConserving(playerLegal);
    OrdinaryChancy(playerLegal);
    OrdinaryWounding(playerLegal);
  }

  /** The chance that every one of these reactions misses. */
  function AllMiss(rs: seq<Reaction>): real {
    if rs == [] then 1.0
    else Times(AllMiss(rs[..|rs| - 1]), MissChance(rs[|rs| - 1]))
  }

  function MissChance(r: Reaction): real {
    if r.hitChance.Some? then 1.0 - r.hitChance.value as real / 100.0 else 1.0
  }

  /** After every reaction: total probability 1, and what can still complete is what all of them missed. */
  lemma {:induction false} ReactAllSums(rule: StrikeRule, sound: Mover -> bool, paid: Mover, rs: seq<Reaction>)
    requires Conserving(rule, sound)
    requires ReactAll(rule, paid, rs).Ok? && sound(paid) && paid.alive
    requires forall r :: r in rs ==> Orderly(r)
    ensures var ps := ReactAll(rule, paid, rs).value;
            && AllSound(sound, ps) && Sum(ps, Chance) == 1.0 && Sum(ps, ClearChance) == AllMiss(rs)
  {
    if rs == [] {
      SumOne(Pending(1.0, paid, false, []), Chance);
      SumOne(Pending(1.0, paid, false, []), ClearChance);
    } else {
      var front, r := rs[..|rs| - 1], rs[|rs| - 1];
      ReactAllSums(rule, sound, paid, front);
      var strike := Striker(rule, r, HitOf(r).value);
      assert Lawful(strike, sound, MissChance(r));
      StrikeAllSound(strike, sound, MissChance(r), r, ReactAll(rule, paid, front).value);
      StrikeAllSums(strike, sound, MissChance(r), r, ReactAll(rule, paid, front).value);
    }
  }

  // ----- The story of one branch -----

  lemma {:induction false} FollowMember(p: Pending, r: Reaction, bs: seq<OutcomeBranch>, q: Pending)
    returns (b: OutcomeBranch)
    requires q in Follow(p, r, bs)
    ensures b in bs && q == Next(p, r, b)
  {
    var front, last := bs[..|bs| - 1], bs[|bs| - 1];
    if q in Follow(p, r, front) {
      b := FollowMember(p, r, front, q);
    } else {
      b := last;
    }
  }

  lemma {:induction false} StrikeAllMember(strike: Strikes, r: Reaction, ps: seq<Pending>, q: Pending)
    returns (p: Pending)
    requires StrikeAll(strike, r, ps).Ok? && q in StrikeAll(strike, r, ps).value
    ensures p in ps && (p.mover.alive ==> strike(p.mover).Ok?) && q in Struck(strike, r, p)
  {
    StrikeAllStep(strike, r, ps);
    var front, last := ps[..|ps| - 1], ps[|ps| - 1];
    if q in StrikeAll(strike, r, front).value {
      p := StrikeAllMember(strike, r, front, q);
    } else {
      p := last;
    }
  }

  predicate Missed(e: Aoo) {
    e.result == Miss
  }

  predicate EveryoneMissed(es: seq<Aoo>) {
    forall i :: 0 <= i < |es| ==> Missed(es[i])
  }

  /**
   * A pending branch after `rs`: costs were paid once and nothing else was charged; its effects are the
   * reactions in order, the last one a hit if the mover is dead; it can complete exactly when all of
   * them were misses.
   */
  ghost predicate Story(paid: Mover, rs: seq<Reaction>, p: Pending) {
    && p.mover == paid.(hp := p.mover.hp, head := p.mover.head, body := p.mover.body, alive := p.mover.alive)
    && |p.effects| <= |rs|
    && (forall i :: 0 <= i < |p.effects| ==> p.effects[i].reactorId == rs[i].reactorId)
    && (p.mover.alive ==> |p.effects| == |rs|)
    && (!p.mover.alive ==> p.effects != [] && !Missed(p.effects[|p.effects| - 1]))
    && (Clear(p) <==> EveryoneMissed(p.effects))
  }

  lemma StoryStep(paid: Mover, rs: seq<Reaction>, p: Pending, b: OutcomeBranch)
    requires rs != [] && Story(paid, rs[..|rs| - 1], p) && p.mover.alive && MissSpares(b)
    ensures Story(paid, rs, Next(p, rs[|rs| - 1], b))
  {
    var q := Next(p, rs[|rs| - 1], b);
    assert q.effects[|p.effects|] == Aoo(rs[|rs| - 1].reactorId, b.result, b.hpDamage);
    assert forall i :: 0 <= i < |p.effects| ==> q.effects[i] == p.effects[i];
  }

  lemma StoryStops(paid: Mover, rs: seq<Reaction>, p: Pending)
    requires rs != [] && Story(paid, rs[..|rs| - 1], p) && !p.mover.alive
    ensures Story(paid, rs, p.(interrupted := true))
  {
  }

  /** Where a branch comes from: a dead one passed over, or one outcome of a strike at a living one. */
  lemma ReactAllMember(rule: StrikeRule, paid: Mover, rs: seq<Reaction>, q: Pending)
    returns (p: Pending, b: OutcomeBranch)
    requires rs != [] && ReactAll(rule, paid, rs).Ok? && q in ReactAll(rule, paid, rs).value
    ensures var front, r := rs[..|rs| - 1], rs[|rs| - 1];
            && ReactAll(rule, paid, front).Ok? && p in ReactAll(rule, paid, front).value && HitOf(r).Ok?
            && (!p.mover.alive ==> q == p.(interrupted := true))
            && (p.mover.alive ==> && rule(r, HitOf(r).value, p.mover).Ok?
                                  && b in rule(r, HitOf(r).value, p.mover).value && q == Next(p, r, b))
  {
    var front, r := rs[..|rs| - 1], rs[|rs| - 1];
    var strike := Striker(rule, r, HitOf(r).value);
    p := StrikeAllMember(strike, r, ReactAll(rule, paid, front).value, q);
    if p.mover.alive {
      b := FollowMember(p, r, strike(p.mover).value, q);
    } else {
      b := MissBranch(AttackOf(0, DamageProfile(0, 0, 0.0, 0.0, 0.0)));
    }
  }

  lemma {:induction false} ReactAllStory(rule: StrikeRule, paid: Mover, rs: seq<Reaction>, q: Pending)
    requires Sparing(rule)
    requires ReactAll(rule, paid, rs).Ok? && q in ReactAll(rule, paid, rs).value && paid.alive
    ensures Story(paid, rs, q)
  {
    if rs != [] {
      var front, r := rs[..|rs| - 1], rs[|rs| - 1];
      var p, b := ReactAllMember(rule, paid, rs, q);
      ReactAllStory(rule, paid, front, p);
      if p.mover.alive {
        StoryStep(paid, rs, p, b);
      } else {
        StoryStops(paid, rs, p);
      }
    }
  }

  // ----- Death absorbs -----

  lemma {:induction false} DeadReappears(strike: Strikes, r: Reaction, ps: seq<Pending>, q: Pending)
    requires StrikeAll(strike, r, ps).Ok? && q in ps && !q.mover.alive
    ensures q.(interrupted := true) in StrikeAll(strike, r, ps).value
  {
    StrikeAllStep(strike, r, ps);
    var front, last := ps[..|ps| - 1], ps[|ps| - 1];
    if q in front {
      DeadReappears(strike, r, front, q);
    } else {
      assert q == last && Struck(strike, r, q) == [q.(interrupted := true)];
    }
  }

  lemma {:induction false} InterruptedDeadStay(rule: StrikeRule, paid: Mover, rs: seq<Reaction>, i: nat, q: Pending)
    requires i <= |rs| && ReactAll(rule, paid, rs).Ok?
    ensures ReactAll(rule, paid, rs[..i]).Ok?
    ensures q in ReactAll(rule, paid, rs[..i]).value && !q.mover.alive && q.interrupted
            ==> q in ReactAll(rule, paid, rs).value
    decreases |rs|
  {
    if i == |rs| {
      assert rs[..i] == rs;
    } else {
      var front, r := rs[..|rs| - 1], rs[|rs| - 1];
      assert front[..i] == rs[..i];
      InterruptedDeadStay(rule, paid, front, i, q);
      if q in ReactAll(rule, paid, rs[..i]).value && !q.mover.alive && q.interrupted {
        DeadReappears(Striker(rule, r, HitOf(r).value), r, ReactAll(rule, paid, front).value, q);
        assert q.(interrupted := true) == q;
      }
    }
  }

  /**
   * `q` died of its last effect: it is what a killing outcome of the reaction of that effect made of a
   * branch that was alive until then, and nothing has been done to it since.
   */
  ghost predicate DiedOf(rule: StrikeRule, paid: Mover, rs: seq<Reaction>, q: Pending, p: Pending, b: OutcomeBranch) {
    && 0 < |q.effects| <= |rs|
    && var n := |q.effects| - 1;
    && ReactAll(rule, paid, rs[..n]).Ok? && p in ReactAll(rule, paid, rs[..n]).value
    && p.mover.alive && |p.effects| == n
    && HitOf(rs[n]).Ok? && rule(rs[n], HitOf(rs[n]).value, p.mover).Ok?
    && b in rule(rs[n], HitOf(rs[n]).value, p.mover).value && b.killed && b.result != Miss
    && q == Next(p, rs[n], b)
  }

  lemma {:induction false} DeathIsFinal(rule: StrikeRule, paid: Mover, rs: seq<Reaction>, q: Pending)
    returns (p: Pending, b: OutcomeBranch)
    requires Sparing(rule) && ReactAll(rule, paid, rs).Ok? && paid.alive
    requires q in ReactAll(rule, paid, rs).value && !q.mover.alive
    ensures DiedOf(rule, paid, rs, q, p, b)
  {
    var front, r := rs[..|rs| - 1], rs[|rs| - 1];
    p, b := ReactAllMember(rule, paid, rs, q);
    ReactAllStory(rule, paid, front, p);
    if p.mover.alive {
      assert MissSpares(b);
      assert front == rs[..|q.effects| - 1];
    } else {
      var dead := p;
      p, b := DeathIsFinal(rule, paid, front, dead);
      var n := |dead.effects| - 1;
      assert front[..n] == rs[..n] && front[n] == rs[n];
      assert dead.(interrupted := true) == dead;
    }
  }

  /** A dead branch is carried through all later reactions with its mover, probability and effects unchanged. */
  lemma DeadStayAsTheyAre(rule: StrikeRule, paid: Mover, rs: seq<Reaction>, i: nat, q: Pending)
    requires Sparing(rule) && ReactAll(rule, paid, rs).Ok? && paid.alive && i <= |rs|
    ensures ReactAll(rule, paid, rs[..i]).Ok?
    ensures q in ReactAll(rule, paid, rs[..i]).value && !q.mover.alive
            ==> q.interrupted && q in ReactAll(rule, paid, rs).value
  {
    InterruptedDeadStay(rule, paid, rs, i, q);
    if q in ReactAll(rule, paid, rs[..i]).value && !q.mover.alive {
      var p, b := DeathIsFinal(rule, paid, rs[..i], q);
    }
  }

  // ----- Nobody is healed -----

  /** Every value that `k` leaves possible is nonnegative and at most `top`. */
  predicate Bounded(k: Known, top: int) {
    Values(k).Some? && forall p :: p in Values(k).value ==> 0 <= p.value <= top
  }

  /** Whatever is known of the mover's hit points and armour, none of it can be above `t`. */
  predicate AtMost(m: Mover, t: Target) {
    Bounded(m.hp, t.hp) && Bounded(m.head, t.head) && Bounded(m.body, t.body)
  }

  predicate Inside(t: Target, c: Case) {
    0 <= c.target.hp <= t.hp && 0 <= c.target.head <= t.head && 0 <= c.target.body <= t.body
  }

  predicate Declined(t: Target, b: OutcomeBranch) {
    && 0 <= b.targetHp <= t.hp
    && 0 <= Trunc(b.targetHead) <= t.head
    && 0 <= Trunc(b.targetBody) <= t.body
  }

  lemma HitDeclines(a: Attack, location: HitResult, regular: int, armorRoll: int)
    requires Nonnegative(a.profile) && regular >= 0 && armorRoll >= 0
    requires a.target.hp >= 0 && a.target.head >= 0 && a.target.body >= 0
    ensures Declined(a.target, HitBranch(a, location, regular, armorRoll))
  {
    Scale(0.0, armorRoll as real, a.profile.armorMultiplier);
    TruncMonotone(HitBranch(a, location, regular, armorRoll).targetHead, a.target.head as real);
    TruncMonotone(HitBranch(a, location, regular, armorRoll).targetBody, a.target.body as real);
  }

  lemma AttackDeclines(a: Attack)
    requires Nonnegative(a.profile) && a.target.hp >= 0 && a.target.head >= 0 && a.target.body >= 0
    ensures forall b :: b in BranchesOf(a) ==> Declined(a.target, b)
  {
    var good := (b: OutcomeBranch) => Declined(a.target, b);
    forall location, regular, armorRoll |
      location != Miss && a.profile.low <= regular <= a.profile.high && a.profile.low <= armorRoll <= a.profile.high
      ensures good(HitBranch(a, location, regular, armorRoll))
    {
      HitDeclines(a, location, regular, armorRoll);
    }
    BranchesAll(a, good);
  }

  lemma CasesInside(hps: seq<Possible>, heads: seq<Possible>, bodies: seq<Possible>, t: Target)
    requires forall p :: p in hps ==> 0 <= p.value <= t.hp
    requires forall p :: p in heads ==> 0 <= p.value <= t.head
    requires forall p :: p in bodies ==> 0 <= p.value <= t.body
    ensures forall c :: c in Cases(hps, heads, bodies) ==> Inside(t, c)
  {
    JointsCover(hps, heads, bodies, c => Inside(t, c));
  }

  lemma DeclinedWithin(t: Target, c: Case, b: OutcomeBranch)
    requires Inside(t, c) && Declined(c.target, b)
    ensures Declined(t, b)
  {
  }

  lemma StrikeDeclines(playerLegal: bool, r: Reaction, hit: int, m: Mover, t: Target)
    requires Strike(playerLegal, r, hit, m).Ok? && AtMost(m, t) && Nonnegative(r.profile.value)
    ensures forall b :: b in Strike(playerLegal, r, hit, m).value ==> Declined(t, b)
  {
    var a := AttackOf(hit, r.profile.value);
    var cases := Cases(Values(m.hp).value, Values(m.head).value, Values(m.body).value);
    CasesInside(Values(m.hp).value, Values(m.head).value, Values(m.body).value, t);
    forall c, b | c in cases && b in BranchesOf(a.(target := c.target)) ensures Declined(t, b) {
      AttackDeclines(a.(target := c.target));
      DeclinedWithin(t, c, b);
    }
    IntegratedAll(a, cases, (b: OutcomeBranch) => Declined(t, b));
  }

  lemma NextAtMost(p: Pending, r: Reaction, b: OutcomeBranch, t: Target)
    requires Declined(t, b)
    ensures AtMost(Next(p, r, b).mover, t)
  {
  }

  /** Hit points and armour only ever go down, and never below zero. */
  lemma {:induction false} ReactAllDeclines(rule: StrikeRule, paid: Mover, rs: seq<Reaction>, q: Pending, t: Target)
    requires Wounding(rule)
    requires ReactAll(rule, paid, rs).Ok? && q in ReactAll(rule, paid, rs).value && AtMost(paid, t)
    requires forall r :: r in rs && r.profile.Some? ==> Nonnegative(r.profile.value)
    ensures AtMost(q.mover, t)
  {
    if rs != [] {
      var front, r := rs[..|rs| - 1], rs[|rs| - 1];
      var p, b := ReactAllMember(rule, paid, rs, q);
      ReactAllDeclines(rule, paid, front, p, t);
      if p.mover.alive {
        assert Declined(t, b);
        NextAtMost(p, r, b, t);
      }
    }
  }

  // ----- No negative probability -----

  predicate Likely(b: OutcomeBranch) {
    b.probability >= 0.0
  }

  predicate CaseLikely(c: Case) {
    c.weight.Some? ==> c.weight.value >= 0.0
  }

  lemma {:induction false} WeighLikely(bs: seq<OutcomeBranch>, w: real)
    requires w >= 0.0 && forall b :: b in bs ==> Likely(b)
    ensures forall b :: b in Weigh(bs, w) ==> Likely(b)
  {
    if bs != [] {
      WeighLikely(bs[..|bs| - 1], w);
      assert bs[|bs| - 1] in bs;
      ProductNonnegative(bs[|bs| - 1].probability, w);
    }
  }

  lemma {:induction false} IntegratedLikely(a: Attack, cases: seq<Case>)
    requires a.profile.low <= a.profile.high && 0 <= a.hitChance <= 100
    requires forall c :: c in cases ==> CaseLikely(c)
    ensures forall b :: b in IntegratedOf(a, cases) ==> Likely(b)
  {
    if cases != [] {
      var c := cases[|cases| - 1];
      IntegratedLikely(a, cases[..|cases| - 1]);
      BranchesLikely(a.(target := c.target));
      assert CaseLikely(c);
      if c.weight.Some? {
        WeighLikely(BranchesOf(a.(target := c.target)), c.weight.value);
      }
    }
  }

  lemma BranchesLikely(a: Attack)
    requires a.profile.low <= a.profile.high && 0 <= a.hitChance <= 100
    ensures forall b :: b in BranchesOf(a) ==> Likely(b)
  {
    RollChanceNonnegative(a, Head);
    RollChanceNonnegative(a, Body);
    BranchesAll(a, Likely);
  }

  lemma RollChanceNonnegative(a: Attack, location: HitResult)
    requires a.profile.low <= a.profile.high && 0 <= a.hitChance
    ensures RollChance(a, location) >= 0.0
  {
    PairsPositive(a.profile);
    ProductNonnegative(Hit(a), Share(location));
    Divide(0.0, Hit(a) * Share(location), Pairs(a.profile) as real);
  }

  predicate Plausible(p: Possible) {
    p.weight.Some? && p.weight.value >= 0.0
  }

  lemma JointsLikely(hps: seq<Possible>, heads: seq<Possible>, bodies: seq<Possible>)
    requires forall p :: p in hps || p in heads || p in bodies ==> Plausible(p)
    ensures forall c :: c in Cases(hps, heads, bodies) ==> CaseLikely(c)
  {
    forall hp, head, body | hp in hps && head in heads && body in bodies ensures CaseLikely(Joint(hp, head, body)) {
      ProductNonnegative(hp.weight.value, head.weight.value);
      ProductNonnegative(hp.weight.value * head.weight.value, body.weight.value);
    }
    JointsCover(hps, heads, bodies, CaseLikely);
  }

  lemma StrikeLikely(playerLegal: bool, r: Reaction, hit: int, m: Mover)
    requires Strike(playerLegal, r, hit, m).Ok? && KnownSoundly(m) && Orderly(r) && 0 <= hit <= 100
    ensures forall b :: b in Strike(playerLegal, r, hit, m).value ==> Likely(b)
  {
    var a := AttackOf(hit, r.profile.value);
    var hps, heads, bodies := Values(m.hp).value, Values(m.head).value, Values(m.body).value;
    StruckIsWeighted(a, m);
    JointsLikely(hps, heads, bodies);
    IntegratedLikely(a, Cases(hps, heads, bodies));
  }

  ghost predicate AllLikely(ps: seq<Pending>) {
    forall p :: p in ps ==> p.probability >= 0.0
  }

  lemma {:induction false} FollowLikely(p: Pending, r: Reaction, bs: seq<OutcomeBranch>)
    requires p.probability >= 0.0 && forall b :: b in bs ==> Likely(b)
    ensures AllLikely(Follow(p, r, bs))
  {
    if bs != [] {
      FollowLikely(p, r, bs[..|bs| - 1]);
      assert bs[|bs| - 1] in bs;
      ProductNonnegative(p.probability, bs[|bs| - 1].probability);
    }
  }

  lemma {:induction false} StrikeAllLikely(strike: Strikes, sound: Mover -> bool, r: Reaction, ps: seq<Pending>)
    requires StrikeAll(strike, r, ps).Ok? && AllSound(sound, ps) && AllLikely(ps)
    requires forall m :: sound(m) && strike(m).Ok? ==> forall b :: b in strike(m).value ==> Likely(b)
    ensures AllLikely(StrikeAll(strike, r, ps).value)
  {
    if ps != [] {
      var p := ps[|ps| - 1];
      assert p in ps;
      StrikeAllStep(strike, r, ps);
      StrikeAllLikely(strike, sound, r, ps[..|ps| - 1]);
      if p.mover.alive {
        FollowLikely(p, r, strike(p.mover).value);
      }
    }
  }

  /** No pending branch ever has a negative probability. */
  lemma {:induction false} ReactAllLikely(rule: StrikeRule, sound: Mover -> bool, paid: Mover, rs: seq<Reaction>)
    requires Conserving(rule, sound) && Chancy(rule, sound)
    requires ReactAll(rule, paid, rs).Ok? && sound(paid) && paid.alive
    requires forall r :: r in rs ==> Orderly(r)
    ensures AllLikely(ReactAll(rule, paid, rs).value)
  {
    if rs != [] {
      var front, r := rs[..|rs| - 1], rs[|rs| - 1];
      ReactAllLikely(rule, sound, paid, front);
      ReactAllSums(rule, sound, paid, front);
      StrikeAllLikely(Striker(rule, r, HitOf(r).value), sound, r, ReactAll(rule, paid, front).value);
    }
  }
}
