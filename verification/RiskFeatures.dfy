/** Metric ranges read off a move's branches: friendly harm, completion and what the survivors can expect. */
module RiskFeatures {
  import opened Common
  import opened Reals
  import opened Sums
  import opened Reactions
  import opened ReactionLaws
  import opened MoveLaws
  import opened MetricRanges

  // ----- Friendly harm as ranges -----

  lemma LossOfOne(startingHp: int, b: TransitionBranch, lo: int, hi: int)
    requires b.probability >= 0.0 && b.mover.hp.Exact? && lo <= HpLoss(startingHp, b) <= hi
    ensures Times(b.probability, lo as real) <= ExpectedLoss(startingHp)(b) <= Times(b.probability, hi as real)
  {
    TimesOrdered(b.probability, lo as real, HpLoss(startingHp, b) as real);
    TimesOrdered(b.probability, HpLoss(startingHp, b) as real, hi as real);
  }

  lemma {:induction false} LossBetween(startingHp: int, branches: seq<TransitionBranch>, lo: int, hi: int)
    requires forall b :: b in branches ==>
               b.probability >= 0.0 && b.mover.hp.Exact? && lo <= HpLoss(startingHp, b) <= hi
    ensures Times(Sum(branches, BranchChance), lo as real) <= Sum(branches, ExpectedLoss(startingHp))
    ensures Sum(branches, ExpectedLoss(startingHp)) <= Times(Sum(branches, BranchChance), hi as real)
  {
    if branches != [] {
      var front, last := branches[..|branches| - 1], branches[|branches| - 1];
      assert last in branches;
      LossBetween(startingHp, front, lo, hi);
      LossOfOne(startingHp, last, lo, hi);
      AddTimes(Sum(front, BranchChance), last.probability, lo as real);
      AddTimes(Sum(front, BranchChance), last.probability, hi as real);
    }
  }

  lemma ChanceBetween(branches: seq<TransitionBranch>, part: TransitionBranch -> real)
    requires Sum(branches, BranchChance) == 1.0
    requires forall b :: b in branches ==> b.probability >= 0.0 && (part(b) == 0.0 || part(b) == b.probability)
    ensures 0.0 <= Sum(branches, part) <= 1.0
  {
    SumOrdered(branches, part, BranchChance);
    SumOrdered(branches, Nothing, part);
    NothingAddsUp(branches);
  }

  function Nothing(b: TransitionBranch): real {
    0.0
  }

  lemma {:induction false} NothingAddsUp(branches: seq<TransitionBranch>)
    ensures Sum(branches, Nothing) == 0.0
  {
    if branches != [] {
      NothingAddsUp(branches[..|branches| - 1]);
    }
  }

  /** The harm read off a move that may be interrupted: expected damage inside its range, chances inside [0, 1]. */
  lemma HarmIsInRange(startingHp: int, branches: seq<TransitionBranch>, h: FriendlyHarm, losses: seq<int>)
    requires Sum(branches, BranchChance) == 1.0 && forall b :: b in branches ==> b.probability >= 0.0
    requires LossesOf(startingHp, branches, losses)
    requires h.minimumDamage in losses && forall x :: x in losses ==> h.minimumDamage <= x <= h.maximumDamage
    requires h.expectedDamage == Sum(branches, ExpectedLoss(startingHp))
    requires h.death == Sum(branches, DeathChance) && h.interruption == Sum(branches, InterruptedChance)
    ensures Construct(h.minimumDamage as real, h.maximumDamage as real, Some(h.expectedDamage), None, None).Ok?
    ensures 0.0 <= h.death <= 1.0 && 0.0 <= h.interruption <= 1.0
  {
    forall b | b in branches ensures b.mover.hp.Exact? && h.minimumDamage <= HpLoss(startingHp, b) <= h.maximumDamage {
      var i :| 0 <= i < |branches| && branches[i] == b;
      assert losses[i] in losses;
    }
    LossBetween(startingHp, branches, h.minimumDamage, h.maximumDamage);
    ChanceBetween(branches, DeathChance);
    ChanceBetween(branches, InterruptedChance);
  }

  // ----- What the survivors can expect -----

  /** A metric of the surviving actor, mixed over the posture branches. */
  function PostureMetric(posture: seq<TransitionBranch>, measure: Mover -> MetricRange): Result<MetricRange, string> {
    WeightedRange(Weighings(posture, measure))
  }

  function Weighings(posture: seq<TransitionBranch>, measure: Mover -> MetricRange): (items: seq<Weighing>)
    ensures |items| == |posture|
    ensures forall i :: 0 <= i < |items| ==> items[i] == Weighing(posture[i].probability, measure(posture[i].mover))
  {
    seq(|posture|, i requires 0 <= i < |posture| => Weighing(posture[i].probability, measure(posture[i].mover)))
  }

  lemma {:induction false} RescaledNonnegative(bs: seq<TransitionBranch>, total: real)
    requires total > 0.0 && forall b :: b in bs ==> b.probability >= 0.0
    ensures forall b :: b in Rescale(bs, total) ==> b.probability >= 0.0
  {
    if bs != [] {
      assert bs[|bs| - 1] in bs;
      RescaledNonnegative(bs[..|bs| - 1], total);
      Divide(0.0, bs[|bs| - 1].probability, total);
    }
  }

  lemma {:induction false} SurvivorsAreBranches(branches: seq<TransitionBranch>)
    ensures forall b :: b in Survivors(branches) ==> b in branches && b.mover.alive
  {
    if branches != [] {
      SurvivorsAreBranches(branches[..|branches| - 1]);
    }
  }

  lemma PostureNonnegative(branches: seq<TransitionBranch>)
    requires (forall b :: b in branches ==> b.probability >= 0.0) && Sum(branches, SurvivalChance) > 0.0
    ensures PostureBranches(branches).Some?
    ensures forall b :: b in PostureBranches(branches).value ==> b.probability >= 0.0
  {
    SurvivorSum(branches);
    SurvivorsAreBranches(branches);
    RescaledNonnegative(Survivors(branches), Sum(Survivors(branches), BranchChance));
  }

  /** Rescaling changes probabilities and nothing else. */
  lemma {:induction false} RescaledMovers(bs: seq<TransitionBranch>, total: real)
    requires total != 0.0
    ensures forall b :: b in Rescale(bs, total) ==> exists c :: c in bs && c.mover == b.mover
  {
    if bs != [] {
      var front, last := bs[..|bs| - 1], bs[|bs| - 1];
      RescaledMovers(front, total);
      forall b | b in Rescale(bs, total) ensures exists c :: c in bs && c.mover == b.mover {
        if b in Rescale(front, total) {
          var c :| c in front && c.mover == b.mover;
          assert c in bs;
        } else {
          assert last in bs && last.mover == b.mover;
        }
      }
    }
  }

  /** What is measured on the living branches is valid. */
  ghost predicate ValidOnSurvivors(branches: seq<TransitionBranch>, measure: Mover -> MetricRange) {
    forall b :: b in branches && b.mover.alive ==> Valid(measure(b.mover))
  }

  lemma PostureIsMeasured(branches: seq<TransitionBranch>, measure: Mover -> MetricRange)
    requires PostureBranches(branches).Some? && ValidOnSurvivors(branches, measure)
    ensures forall b :: b in PostureBranches(branches).value ==> Valid(measure(b.mover))
  {
    SurvivorsAreBranches(branches);
    var total := Sum(Survivors(branches), BranchChance);
    if Survivors(branches) != [] {
      RescaledMovers(Survivors(branches), total);
    }
  }

  /** Whatever is measured on the survivors of a move, if it is valid there, mixing it over them is valid. */
  lemma PostureMetricIsValid(
      playerLegal: bool, scene: Scene, m: Mover, action: MoveAction, measure: Mover -> MetricRange)
    requires scene.rule == OrdinaryAttacks(playerLegal)
    requires MoveOutcome(scene, m, action).Ok? && KnownSoundly(m) && m.alive && Orderlies(action.reactions)
    requires ValidOnSurvivors(MoveOutcome(scene, m, action).value, measure)
    ensures var posture := PostureBranches(MoveOutcome(scene, m, action).value);
            && posture.Some?
            && PostureMetric(posture.value, measure).Ok? && Valid(PostureMetric(posture.value, measure).value)
  {
    var branches := MoveOutcome(scene, m, action).value;
    OrdinaryMove(playerLegal, scene, m, action);
    OrdinaryAttacksObey(playerLegal);
    PostureIsNormalised(scene, m, action);
    PostureNonnegative(branches);
    PostureIsMeasured(branches, measure);
    MixedPosture(PostureBranches(branches).value, measure);
  }

  lemma WeighingsAreProper(posture: seq<TransitionBranch>, measure: Mover -> MetricRange)
    requires forall b :: b in posture ==> b.probability >= 0.0 && Valid(measure(b.mover))
    ensures ProperItems(Weighings(posture, measure))
    ensures TotalProbability(Weighings(posture, measure)) == Sum(posture, BranchChance)
  {
    var items := Weighings(posture, measure);
    forall i | 0 <= i < |items| ensures items[i].probability >= 0.0 && Valid(items[i].metric) {
      assert posture[i] in posture;
    }
    SumMatches(items, (i: Weighing) => i.probability, posture, BranchChance);
  }

  lemma MixedPosture(posture: seq<TransitionBranch>, measure: Mover -> MetricRange)
    requires Sum(posture, BranchChance) == 1.0
    requires forall b :: b in posture ==> b.probability >= 0.0 && Valid(measure(b.mover))
    ensures PostureMetric(posture, measure).Ok? && Valid(PostureMetric(posture, measure).value)
  {
    WeighingsAreProper(posture, measure);
    WeightedRangeSound(Weighings(posture, measure));
  }

  // ----- Where ranges are mixed -----

  /**
   * Whatever the branches weigh together: over the posture branches, which are divided by their total,
   * every measure that is valid on the survivors mixes without any slack.
   */
  lemma PostureNeverRefused(branches: seq<TransitionBranch>, measure: Mover -> MetricRange)
    requires forall b :: b in branches ==> b.probability >= 0.0
    requires PostureBranches(branches).Some? && ValidOnSurvivors(branches, measure)
    ensures Mixes(Weighings(PostureBranches(branches).value, measure), 0.0)
  {
    var survivors := Survivors(branches);
    var total := Sum(survivors, BranchChance);
    if survivors != [] {
      SurvivorsAreBranches(branches);
      SurvivorsWeigh(survivors);
      RescaledNonnegative(survivors, total);
      RescaledSum(survivors, total);
      SelfQuotient(total);
      PostureIsMeasured(branches, measure);
      WeighingsAreProper(Rescale(survivors, total), measure);
      NormalisedMixes(Weighings(Rescale(survivors, total), measure));
    }
  }

  lemma {:induction false} SurvivorsWeigh(bs: seq<TransitionBranch>)
    requires forall b :: b in bs ==> b.probability >= 0.0
    ensures Sum(bs, BranchChance) >= 0.0
  {
    if bs != [] {
      assert bs[|bs| - 1] in bs;
      SurvivorsWeigh(bs[..|bs| - 1]);
    }
  }

  /** The branches as they are, each weighing a yes or no. */
  function FlagWeighings(branches: seq<TransitionBranch>, flag: TransitionBranch -> bool): (items: seq<Weighing>)
    ensures |items| == |branches|
    ensures forall i :: 0 <= i < |items| ==>
              items[i] == Weighing(branches[i].probability, ExactRange(if flag(branches[i]) then 1.0 else 0.0))
  {
    seq(|branches|, i requires 0 <= i < |branches| =>
      Weighing(branches[i].probability, ExactRange(if flag(branches[i]) then 1.0 else 0.0)))
  }

  /** Waiting and turn ends, mixed over the branches as they are, are never refused, whatever these weigh together. */
  lemma TempoNeverRefused(branches: seq<TransitionBranch>, flag: TransitionBranch -> bool)
    requires forall b :: b in branches ==> b.probability >= 0.0
    ensures Mixes(FlagWeighings(branches, flag), TOLERANCE)
  {
    var items := FlagWeighings(branches, flag);
    forall i | 0 <= i < |items| ensures items[i].probability >= 0.0 && Valid(items[i].metric) {
      assert branches[i] in branches;
    }
    UnitSupportMixes(items);
  }
}
