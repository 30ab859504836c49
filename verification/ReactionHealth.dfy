/** What reactions do to a mover whose hit points and armour are exactly known. */
module ReactionHealth {
  import opened Common
  import opened AttackOutcomes
  import opened AttackKnowledge
  import opened Reactions
  import opened ReactionLaws

  // ----- What the strikes must be like -----

  /** At a living mover of exact hit points: a strike takes off what it records, and kills exactly at 0. */
  ghost predicate Mortal(rule: StrikeRule) {
    forall r: Reaction, hit: int, m: Mover, b: OutcomeBranch ::
      && m.hp.Exact? && m.hp.value > 0 && rule(r, hit, m).Ok? && b in rule(r, hit, m).value
      ==> StrikesDown(m.hp.value, b)
  }

  predicate StrikesDown(hp: int, b: OutcomeBranch) {
    && b.hpDamage >= 0 && b.targetHp == Max(0, hp - b.hpDamage)
    && (b.killed <==> b.targetHp == 0)
    && (b.result == Miss ==> b.hpDamage == 0)
  }

  /** A strike leaves the armour alone wherever it does not land. */
  ghost predicate Local(rule: StrikeRule) {
    forall r: Reaction, hit: int, m: Mover, b: OutcomeBranch ::
      && m.head.Exact? && m.body.Exact? && rule(r, hit, m).Ok? && b in rule(r, hit, m).value
      ==> StrikesThere(m.head.value, m.body.value, b)
  }

  predicate StrikesThere(head: int, body: int, b: OutcomeBranch) {
    && (b.result != Head ==> b.targetHead == head as real)
    && (b.result != Body ==> b.targetBody == body as real)
  }

  // ----- Over all reactions -----

  /** The hit points recorded as lost. */
  function Lost(es: seq<Aoo>): int {
    if es == [] then 0 else Lost(es[..|es| - 1]) + es[|es| - 1].hpDamage
  }

  /**
   * Hit points are exact and are what the recorded damage leaves of `hp`, at least 0; the mover lives
   * exactly as long as it has any.
   */
  predicate Bled(hp: int, m: Mover, es: seq<Aoo>) {
    && m.hp.Exact? && m.hp.value == Max(0, hp - Lost(es))
    && (m.alive <==> m.hp.value > 0)
  }

  lemma BleedOnce(hp: int, p: Pending, r: Reaction, b: OutcomeBranch)
    requires Bled(hp, p.mover, p.effects) && p.mover.alive && StrikesDown(p.mover.hp.value, b)
    ensures Bled(hp, Next(p, r, b).mover, Next(p, r, b).effects)
  {
    assert Next(p, r, b).effects[..|p.effects|] == p.effects;
  }

  /** Whatever the reactions: every branch's hit points are what the hits it records leave, and 0 is death. */
  lemma {:induction false} ReactAllBleeds(rule: StrikeRule, paid: Mover, rs: seq<Reaction>, q: Pending)
    requires Mortal(rule) && paid.alive && paid.hp.Exact? && paid.hp.value > 0
    requires ReactAll(rule, paid, rs).Ok? && q in ReactAll(rule, paid, rs).value
    ensures Bled(paid.hp.value, q.mover, q.effects)
  {
    if rs != [] {
      var p, b := ReactAllMember(rule, paid, rs, q);
      ReactAllBleeds(rule, paid, rs[..|rs| - 1], p);
      if p.mover.alive {
        BleedOnce(paid.hp.value, p, rs[|rs| - 1], b);
      }
    }
  }

  /** No recorded hit landed at `location`. */
  predicate NeverAt(es: seq<Aoo>, location: HitResult) {
    forall i :: 0 <= i < |es| ==> es[i].result != location
  }

  /** Armour is exact, and untouched where no hit landed. */
  predicate Dented(head: int, body: int, m: Mover, es: seq<Aoo>) {
    && m.head.Exact? && m.body.Exact?
    && (NeverAt(es, Head) ==> m.head.value == head)
    && (NeverAt(es, Body) ==> m.body.value == body)
  }

  lemma DentOnce(head: int, body: int, p: Pending, r: Reaction, b: OutcomeBranch)
    requires Dented(head, body, p.mover, p.effects) && StrikesThere(p.mover.head.value, p.mover.body.value, b)
    ensures Dented(head, body, Next(p, r, b).mover, Next(p, r, b).effects)
  {
    var es := Next(p, r, b).effects;
    assert es[|p.effects|].result == b.result;
    assert forall i :: 0 <= i < |p.effects| ==> es[i] == p.effects[i];
  }

  lemma {:induction false} ReactAllDents(rule: StrikeRule, paid: Mover, rs: seq<Reaction>, q: Pending)
    requires Local(rule) && paid.head.Exact? && paid.body.Exact?
    requires ReactAll(rule, paid, rs).Ok? && q in ReactAll(rule, paid, rs).value
    ensures Dented(paid.head.value, paid.body.value, q.mover, q.effects)
  {
    if rs != [] {
      var p, b := ReactAllMember(rule, paid, rs, q);
      ReactAllDents(rule, paid, rs[..|rs| - 1], p);
      if p.mover.alive {
        DentOnce(paid.head.value, paid.body.value, p, rs[|rs| - 1], b);
      }
    }
  }

  // ----- Ordinary attacks -----

  lemma StrikeIsMortal(playerLegal: bool, r: Reaction, hit: int, m: Mover)
    requires m.hp.Exact? && m.hp.value > 0 && Strike(playerLegal, r, hit, m).Ok?
    ensures forall b :: b in Strike(playerLegal, r, hit, m).value ==> StrikesDown(m.hp.value, b)
  {
    var a := AttackOf(hit, r.profile.value);
    var hp := m.hp.value;
    var cases := Cases(Values(m.hp).value, Values(m.head).value, Values(m.body).value);
    JointsCover(Values(m.hp).value, Values(m.head).value, Values(m.body).value, (c: Case) => c.target.hp == hp);
    var good := (b: OutcomeBranch) => StrikesDown(hp, b);
    forall c | c in cases ensures forall b :: b in BranchesOf(a.(target := c.target)) ==> good(b) {
      AttackIsMortal(a.(target := c.target));
    }
    IntegratedAll(a, cases, good);
  }

  lemma AttackIsMortal(a: Attack)
    requires a.target.hp > 0
    ensures forall b :: b in BranchesOf(a) ==> StrikesDown(a.target.hp, b)
  {
    BranchesAll(a, (b: OutcomeBranch) => StrikesDown(a.target.hp, b));
  }

  lemma OrdinaryMortal(playerLegal: bool)
    ensures Mortal(OrdinaryAttacks(playerLegal))
  {
    var rule := OrdinaryAttacks(playerLegal);
    forall r: Reaction, hit: int, m: Mover, b: OutcomeBranch |
      && m.hp.Exact? && m.hp.value > 0 && rule(r, hit, m).Ok? && b in rule(r, hit, m).value
      ensures StrikesDown(m.hp.value, b)
    {
      StrikeIsMortal(playerLegal, r, hit, m);
    }
  }

  lemma AttackIsLocal(a: Attack)
    ensures forall b :: b in BranchesOf(a) ==> StrikesThere(a.target.head, a.target.body, b)
  {
    BranchesAll(a, (b: OutcomeBranch) => StrikesThere(a.target.head, a.target.body, b));
  }

  lemma StrikeIsLocal(playerLegal: bool, r: Reaction, hit: int, m: Mover)
    requires m.head.Exact? && m.body.Exact? && Strike(playerLegal, r, hit, m).Ok?
    ensures forall b :: b in Strike(playerLegal, r, hit, m).value ==> StrikesThere(m.head.value, m.body.value, b)
  {
    var a := AttackOf(hit, r.profile.value);
    var head, body := m.head.value, m.body.value;
    var cases := Cases(Values(m.hp).value, Values(m.head).value, Values(m.body).value);
    JointsCover(Values(m.hp).value, Values(m.head).value, Values(m.body).value,
                (c: Case) => c.target.head == head && c.target.body == body);
    var good := (b: OutcomeBranch) => StrikesThere(head, body, b);
    forall c | c in cases ensures forall b :: b in BranchesOf(a.(target := c.target)) ==> good(b) {
      AttackIsLocal(a.(target := c.target));
    }
    IntegratedAll(a, cases, good);
  }

  lemma OrdinaryLocal(playerLegal: bool)
    ensures Local(OrdinaryAttacks(playerLegal))
  {
    var rule := OrdinaryAttacks(playerLegal);
    forall r: Reaction, hit: int, m: Mover, b: OutcomeBranch |
      && m.head.Exact? && m.body.Exact? && rule(r, hit, m).Ok? && b in rule(r, hit, m).value
      ensures StrikesThere(m.head.value, m.body.value, b)
    {
      StrikeIsLocal(playerLegal, r, hit, m);
    }
  }
}
