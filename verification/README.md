# BB-Agent decision core: model and proofs

BB-Agent advises a player of a turn-based tactics game. It follows a game log, rebuilds the tactical
state it may legally know, works out what each action can lead to, scores the candidates and picks one.
This project models five of its cores and proves what they are for.

- **Movement** (`MovementGraph`, `MovementPrices`, `MovementWalks`, `MovementSearch`, `MovementResults`,
  `MovementRecovery`): edges between hex tiles and a label-correcting search over (AP left, fatigue) pairs
  with dominance pruning, rounding and stale queue entries. It is proved to agree with the set of all feasible walks.
- **Live ingest** (`LiveMachine`, `LiveRuns`, `LiveAdvice`, `LiveHistory`, `LivePersist`, `LogScan`, `LiveTail`,
  `LiveReading`, `LiveSchedule`, `LiveDiscontinuity`): the record protocol, its persistence, and an incremental
  log reader with a durable cursor. Results are about whole runs, about every way of cutting and restarting
  them, and about a log that may change in any way at any moment.
- **Attacks and contingent reactions** (`AttackOutcomes`, `AttackFacts`, `DamageMonotone`, `AttackKnowledge`,
  `AttackTargets`, `Reactions`, `ReactionLaws`, `ReactionHealth`, `ReactionBranches`, `MoveLaws`,
  `MoveAdmission`, `RiskFeatures`): branch enumeration with exact probabilities.
- **Evaluation** (`MetricRanges`, `MetricTightness`, `Scoring`, `ScoreCard`, `ScoringMonotone`, `Dominance`,
  `DominanceWitness`, `Selection`, `SelectionLaws`, `EpistemicJoin`, `EpistemicSensitivity`): interval scoring,
  tolerance-based dominance, near-tie selection, and re-ranking over joint hidden states.
- **Smaller cores**: dependency check and closure (`Mechanics`), hex metric and validated paths
  (`HexGrid`), chunk reassembly (`CombatSandbox`, `SandboxRecords`, `SandboxOrder`,
  `SandboxManifest`, `SandboxCollision`).

`Common`, `Ordering`, `Sequences`, `Sorting`, `Sums` and `Reals` hold shared types and small facts. Loops
that update state in the source are methods with loops here, proved against functions or relations that are
stated without them; objects that update their fields are classes.

Modelling choices. Floats are exact reals, so `MetricRange` is modelled without the slack of its constructor;
how much slack mixing needs is stated exactly (`MetricRanges.AcceptedIffCovered`), and where ranges are mixed
it suffices (`RiskFeatures.PostureNeverRefused`, `RiskFeatures.TempoNeverRefused`). The tolerance 1e-9 is
kept in dominance, margin bands and normalised probabilities. Digests are ideal: a digest is a constructor applied
to what is hashed, hence injective. A log is a sequence of characters with an identity value. Record
decoding, attack profiles, fresh stream ids, unit values and the record decoder of the sandbox are
parameters. Errors are `Result` or `Option` values. A persisted state is written at once, and restarts
happen between polls.

Where code and documentation differ, the code is followed. `docs/PLAYER_MOVEMENT_GRAPH.md` prices a one-ally
jump as the sum of two steps; the code leaves such an edge unresolved and does not bound its landing terrain
index. `docs/LIVE_INGEST.md` moves the reader to the end of a log that has disappeared; the code keeps the
cursor where it was.

Four promises turned out to hold only under a condition, which is stated exactly:

- Attack branches carry probability 1 if and only if the damage range is not inverted or a hit is
  impossible; nothing in the catalog rules out an inverted range (`AttackOutcomes.MassIsOneIff`).
- Sandbox extraction is independent of the frames' order if and only if the newest completable generation
  has no two slots with the same `section:key` id (`SandboxOrder.OrderFreeIff`). Section `a` with key `b:c` and
  section `a:b` with key `c` are such a pair; any log of two records of theirs and a manifest that expects
  nothing depends on the order (`SandboxCollision.CollidingLogDependsOnOrder`). Whether a generation is
  completable can be told from its slots when the manifest lists the records itself, or names shards that share
  their ids with no other slot (`SandboxManifest`).
- Dominance is not transitive, because each step may use up the tolerance again. Between which two
  candidates it fails is a condition on their ranges (`Dominance.TransitivityFailsIff`), met by candidates
  that scoring produces (`DominanceWitness.DominanceIsNotTransitive`). There are still no cycles
  (`Dominance.ChainFalls`).
- The origin keeps just its starting label, and walks that visit no tile twice attain every kept label, if
  and only if the fatigue multiplier is not negative (`MovementRecovery.MultiplierDecides`,
  `MovementRecovery.MultiplierDecidesSimplicity`); an actor's multiplier is not checked for its sign.

Run `dafny verify dfyconfig.toml` to check the whole project.

## Model

| member | source | states |
|---|---|---|
| MovementGraph.BuildEdges | src/bb_agent/movement_graph.py:98-167 | the edge table lists, for every tile and in direction order, each legal transition exactly once; legality is defined separately, direction by direction, without the loops, and the rows of `MovementPrices` say what the prices are |
| MovementGraph.EdgeIffLegal | src/bb_agent/movement_graph.py:98-167 | an edge is in the table if and only if some direction of its tile makes it an ordinary step onto a tile not known to be occupied, or a straight jump over exactly one ally to a free tile within the climbing limit |
| MovementGraph.EdgeTableIsPriced | src/bb_agent/movement_graph.py:65-95 | every resolved edge costs at least 1 AP, and with a nonnegative fatigue multiplier no edge recovers fatigue |
| MovementPrices.NoStep | src/bb_agent/movement_graph.py:65-167 | a step onto a tile not known to be occupied is in no table if its terrain is impassable or has no price, the rise exceeds the limit, or the sums are below 1 AP or below 0 fatigue |
| MovementPrices.LevelStep | src/bb_agent/movement_graph.py:65-167 | between tiles of one level a possible step costs exactly the terrain's AP, and its fatigue times the multiplier |
| MovementPrices.DescendingStep | src/bb_agent/movement_graph.py:65-167 | down, the level costs are added, but no climbing fatigue |
| MovementPrices.ClimbingStep | src/bb_agent/movement_graph.py:65-167 | up, the level costs and the climbing fatigue are added |
| MovementPrices.ClimbingCostsMore | src/bb_agent/movement_graph.py:65-167 | between two tiles of one terrain, up costs the same AP as down and exactly climbing fatigue times multiplier more fatigue |
| MovementPrices.ExitsAreMarked | src/bb_agent/movement_graph.py:98-167 | every edge out of a tile names it as its source and carries the zone-of-control penalty of 4 exactly if that tile lies in one |
| MovementWalks.StepFacts | src/bb_agent/movement_graph.py:190-204 | despite rounding, a step takes the same whole number of AP off every label, at least 1, never goes below 0, and the clamp to maximum fatigue never changes a value |
| MovementWalks.StepMonotone | src/bb_agent/movement_graph.py:170-213 | a dominating label can take every edge the dominated one can and still dominates after rounding; strictly more AP stays strictly more |
| MovementWalks.CutDetour | src/bb_agent/movement_graph.py:176-219 | cutting a closed detour out of a walk leaves a feasible walk to the same place with strictly more AP and no more fatigue, when no edge recovers fatigue |
| MovementPrices.WalkBill | src/bb_agent/movement_graph.py:170-219 | with whole prices a walk is feasible exactly if its edges connect and every prefix can be afforded, and it ends with the start's AP less the sum of prices and the fatigue plus theirs |
| MovementPrices.FatigueDrifts | src/bb_agent/movement_graph.py:170-219 | with any prices the fatigue at the end of a walk differs from the plain sum by at most a half for each edge |
| MovementSearch.AcceptFacts | src/bb_agent/movement_graph.py:196-213 | filtering the dominated labels, appending the candidate and sorting turns a staircase, strictly decreasing in AP and in fatigue, into a nonempty staircase again |
| MovementSearch.SearchLabels | src/bb_agent/movement_graph.py:176-213 | the worklist loop, stale queue entries included, terminates with exactly the Pareto frontier of all feasible walks: every kept label is attained by a walk, every walk's end is dominated by a kept label, every list is a strict staircase |
| MovementSearch.ReachableResources | src/bb_agent/movement_graph.py:176-219 | the reported tiles are the frontier's tiles and each best label heads its staircase; a rooted or stunned actor stays where it is |
| MovementSearch.LoopEndsFrontier | src/bb_agent/movement_graph.py:184-213 | the loop invariant together with an empty queue implies soundness and completeness against all walks |
| MovementResults.BuildMovementGraph | src/bb_agent/movement_graph.py:222-257 | fails exactly for an unmapped origin; otherwise `reachable` is exactly the set of tiles with a feasible walk and `best_resources` is the lexicographic optimum (most AP, then least fatigue) over all feasible walks |
| MovementResults.FrontierUnique | src/bb_agent/movement_graph.py:176-213 | any two correct frontiers of one problem are equal, so neither queue order nor edge order can show in the result |
| MovementResults.KeptWalksAreSimple | src/bb_agent/movement_graph.py:176-219 | when no edge recovers fatigue, every walk that attains a kept label visits no tile twice |
| MovementResults.OriginKeepsStart | src/bb_agent/movement_graph.py:176-219 | when no edge recovers fatigue, the origin's frontier stays exactly its single starting label |
| MovementRecovery.RecoveringDetour | src/bb_agent/movement_graph.py:93-95 | for every negative fatigue multiplier, a two-tile world with that multiplier whose edge table makes the origin gain a further label |
| MovementRecovery.MultiplierDecides | src/bb_agent/movement_graph.py:65-219 | the origin keeps just its starting label in every world and from every origin if and only if the fatigue multiplier is not negative |
| MovementRecovery.MultiplierDecidesSimplicity | src/bb_agent/movement_graph.py:65-219 | every kept label, in every world and from every origin, is attained by a walk that visits no tile twice if and only if the fatigue multiplier is not negative |
| MovementResults.AnswersMonotone | src/bb_agent/movement_graph.py:98-219 | extending known occupancy, or starting with less AP or more fatigue, never enlarges `reachable` and never improves any best label |
| MovementResults.NoReachableOccupant | src/bb_agent/movement_graph.py:98-219 | no reachable tile other than the origin is known to hold an ally, a hostile or a blocker |
| MovementResults.HeldActorStays | src/bb_agent/movement_graph.py:176-219 | a rooted or stunned actor reaches only its own tile, with just the resources it has |
| MovementResults.FreeActorSteps | src/bb_agent/movement_graph.py:176-219 | any other actor reaches whatever a resolved edge that it can pay leads to from its tile |
| LiveMachine.LiveIngestMachine.Accept | src/bb_agent/live_ingest.py:314-440 | the machine's fields after a record and the event it reports are those of the step function, branch by branch; which answer is due, and which decision stands, is told from the history in `LiveHistory.AnswersFollowHistory` and `LiveAdvice.DecisionIff` |
| LiveMachine.LiveIngestMachine.InvalidateForDiscontinuity | src/bb_agent/live_ingest.py:306-307 | a discontinuity forgets the stream and everything learnt in it |
| LiveRuns.RunConsistent | src/bb_agent/live_ingest.py:264-440 | the invariant over every run of valid records and invalidations that ties current decision, key, digests and last record type together |
| LiveRuns.ReadyKeysIncrease | src/bb_agent/live_ingest.py:314-440 | within one stream, over any run, READY keys (battle, generation) strictly increase |
| LiveRuns.OneIdentityPerKey | src/bb_agent/live_ingest.py:314-440 | within one stream, over any run, a key is never announced with two different capture ids or payload digests |
| LiveRuns.ConflictPoisons | src/bb_agent/live_ingest.py:378-440 | after a conflict on a key, that key is neither READY nor DUPLICATE again before a new stream |
| LiveRuns.AdviceReturns | src/bb_agent/live_ingest.py:309-440 | a cleared current decision first returns at a call that re-emits the established identity exactly or is a strictly newer READY |
| LiveRuns.SilentUntilStart | src/bb_agent/live_ingest.py:314-440 | with no stream open nothing is announced before the next stream starts |
| LiveAdvice.DecisionIff | src/bb_agent/live_ingest.py:296-440 | over every run of valid records and invalidations: the machine holds a decision if and only if some call announced it and every call since reported that its record came too late, or raised; so an invalidation, a conflict, an incompatible record, lost readiness and a lost log each leave none |
| LiveHistory.RunReflects | src/bb_agent/live_ingest.py:314-440 | the stream is the one some earlier call opened and none ended since, under the id drawn then; its key is the newest a READY or an invalidation moved it to; its identity is what a READY for that key established, unless a conflict came since |
| LiveHistory.AnswersFollowHistory | src/bb_agent/live_ingest.py:314-440 | every answer is told from the earlier ones: incompatible exactly if some expectation is not met; READY exactly for a key newer than all the open stream moved to; INVALIDATED exactly for one not older; DUPLICATE exactly for the capture established for the newest key; CONFLICT exactly for another capture of it; else too late. Announcements, and only they, bring a decision on the record's capture in the open stream |
| LiveHistory.LastTypeIff | src/bb_agent/live_ingest.py:314-440 | the last record type is that of the last READY, duplicate or invalidation since the stream was opened |
| LivePersist.RoundTripIffConsistent | src/bb_agent/live_ingest.py:442-571 | a state restores to itself after being persisted if and only if it satisfies the invariant |
| LivePersist.RestoreIsInverse | src/bb_agent/live_ingest.py:461-571 | whatever restoration accepts is consistent and persists to the same form |
| LivePersist.RestartTransparent | src/bb_agent/live_ingest.py:442-571 | after any run of valid records the restored machine answers every later run exactly as the original |
| LogScan.FindIsFirst | src/bb_agent/live_ingest.py:732-775 | the tag search returns the first occurrence, and nothing exactly when there is none |
| LogScan.ScanSplits | src/bb_agent/live_ingest.py:732-775 | scanning a stretch cut anywhere, and later the unconsumed rest with what was appended, equals scanning everything at once |
| LogScan.LatestOfParts | src/bb_agent/live_ingest.py:732-775 | dropping what precedes the last stream start piecewise is dropping it once |
| LiveTail.LiveLogTailer.ReadCompleteDivs | src/bb_agent/live_ingest.py:732-775 | the incremental loop over `scan` and `consumed` leaves the machine, the reported events and the offset that one scan of the unread bytes defines |
| LiveTail.LiveLogTailer.Poll | src/bb_agent/live_ingest.py:671-730 | one poll changes machine, cursor and durable store, and reports events, as the poll step function says, for missing, replaced, shortened, rewritten and merely grown logs |
| LiveTail.LiveLogTailer.Open | src/bb_agent/live_ingest.py:797-836 | a new process starts exactly if nothing is stored or a consistent machine can have left what is stored beside a cursor with a short anchor; it then holds that cursor and that machine's state |
| LiveTail.LoadsIff | src/bb_agent/live_ingest.py:461-571 | whatever consistent machine can have left the stored state, the new process is in that machine's state; so the stored form determines it |
| LiveReading.DivIsHandled | src/bb_agent/live_ingest.py:732-775 | whatever was left open before it, a text div is read as soon as its close tag is there: a frame in it is handled once, any other text is skipped, and reading goes on right behind the tag |
| LiveReading.BadFrameCostsAdvice | src/bb_agent/live_ingest.py:750-757 | a frame that cannot be decoded, or makes the machine raise, is reported as malformed and costs the current decision and nothing else |
| LiveReading.AdviceIsAsReported | src/bb_agent/live_ingest.py:671-866 | whatever becomes of the log and however the tailer is polled and restarted: it holds a decision if and only if it has reported that decision and nothing since but records that came too late |
| LiveReading.PollTwice | src/bb_agent/live_ingest.py:671-775 | polling a log again that has not changed reports nothing and changes neither machine, cursor nor store |
| LiveReading.CursorTells | src/bb_agent/live_ingest.py:777-793 | a cursor finds the log broken if and only if it is another file, is shorter than the offset, or some byte of the last 256 before the offset has changed |
| LiveDiscontinuity.AdviceFollowsAStart | src/bb_agent/live_ingest.py:671-866 | whatever becomes of the log (appended to, removed, replaced, cut short, rewritten) and however the tailer is polled and restarted: no restart is refused, and every announced decision follows a STREAM_STARTED with no discontinuity reported in between |
| LiveDiscontinuity.BrokenLogSilences | src/bb_agent/live_ingest.py:671-730 | once a poll finds the log gone, replaced, cut short or rewritten at the anchor, nothing is announced from then on before a new STREAM_STARTED, over every later run |
| LiveSchedule.ScheduleInStep | src/bb_agent/live_ingest.py:671-866 | after any schedule of appends, polls and restarts from the stored state, machine, cursor and store are those of having scanned the polled prefix once |
| LiveSchedule.CutsDoNotMatter | src/bb_agent/live_ingest.py:671-866 | for an append-only log, any schedule of appends, polls and restarts ending in a poll gives the machine, the cursor and the events from the last STREAM_STARTED on of one single poll of the final file |
| AttackOutcomes.Branches | src/bb_agent/outcomes.py:315-382 | the triple loop yields the miss branch and one branch for every location, regular roll and armour roll, in that order; the rows of `AttackFacts` say what these hold |
| AttackOutcomes.MassIsOneIff | src/bb_agent/outcomes.py:315-382 | the branches carry probability exactly 1 if and only if the damage range is not inverted or a hit is impossible |
| AttackFacts.BranchesAccounted | src/bb_agent/outcomes.py:315-382 | every branch, for profiles and targets that are not negative: armour is lost only where the hit lands and just as recorded; hit points are lost as recorded down to 0, and exactly a hit that leaves none kills; the damage follows from roll, location and the armour before and after in each case; the attacker keeps its resources |
| AttackFacts.PlacesAreSeparate | src/bb_agent/outcomes.py:315-382 | branches that hit the head do not depend on body armour, nor branches that hit the body on head armour |
| AttackFacts.LocationShares | src/bb_agent/outcomes.py:315-382 | head hits weigh a quarter of the hit chance, body hits three quarters, and the miss the rest |
| AttackFacts.RollsAreEven | src/bb_agent/outcomes.py:315-382 | at each location every regular roll weighs the same |
| DamageMonotone.HpDamageAntitone | src/bb_agent/outcomes.py:346-361 | for nonnegative profiles and every roll, HP damage never rises as starting armour rises |
| DamageMonotone.HarsherKillsMore | src/bb_agent/outcomes.py:315-382 | kill probability and expected HP damage never rise with head or body armour and never fall with hit chance; kill probability never rises with target HP |
| AttackKnowledge.Evaluate | src/bb_agent/outcomes.py:466-506 | integration over known target values fails exactly when one is unknown; the mixed-knowledge error is unreachable |
| AttackKnowledge.NeverMixed | src/bb_agent/outcomes.py:147-173 | when every field is weighted no scenario is kept apart, and when any field is not, nothing is integrated |
| AttackKnowledge.IntegratedTotal | src/bb_agent/outcomes.py:466-506 | every total over integrated branches is the weighted average of the totals for each possible target |
| AttackTargets.IntegratedIsExpectation | src/bb_agent/outcomes.py:147-173 | with every field weighted, every total over the branches is the expectation, over independent hit points, head armour and body armour, of the total against each target |
| AttackTargets.ScenariosAreTheTargets | src/bb_agent/outcomes.py:147-173 | with some field unweighted, the scenarios are exactly the targets the fields allow, a range covering both its ends, as many as the fields combine, each evaluated as if it were known |
| AttackTargets.EpistemicIff | src/bb_agent/outcomes.py:485-506 | the outcome is marked as resting on knowledge if and only if a field is not exact and either only the player's knowledge counts or some possible target has an unweighted field |
| AttackKnowledge.KnowledgeConservesMass | src/bb_agent/outcomes.py:466-506 | normalised knowledge gives integrated branches of total probability 1 and no scenario when every field is weighted, otherwise no integrated branch; every scenario kept apart has total probability 1 |
| Reactions.RefusedIffNotOk | src/bb_agent/transitions.py:174-211 | the check of reactions one by one refuses if and only if some reaction is objectionable on its own or two share an identity |
| Reactions.ValidateReactionGeometry | src/bb_agent/transitions.py:174-211 | the loop with its growing `seen` set reports the first objection, and none exactly when the geometry is acceptable |
| Reactions.Move | src/bb_agent/transitions.py:233-370 | the nested pending loops, costs and refusals yield exactly the branches of the fold over the reactions in reactor order; when it succeeds and what its branches hold is stated without that fold in `MoveAdmission.MoveSucceedsIff` and `MoveLaws.OrdinaryMove` |
| MoveAdmission.MoveSucceedsIff | src/bb_agent/transitions.py:120-370 | under ordinary attacks a living mover's move is carried out if and only if each reaction answers the only step taken, by a living hostile known to stand next to the tile left, none twice, each with a covered skill and a hit chance from 5 to 95; the mover's health is weighted, and exact if only the player's knowledge counts; and action points and fatigue capacity cover the costs |
| MoveAdmission.InvalidIff | src/bb_agent/transitions.py:120-370 | where the tiles left are mapped, a move is invalid, rather than not supported, if and only if its reactions are well placed and its costs cannot be paid |
| ReactionBranches.ReactAllComes | src/bb_agent/transitions.py:268-345 | the branches after any reactions are exactly what the last one makes of those before it: a dead one passed over, a living one once for every outcome, with the outcome's probability, hit points, armour without its fraction, death, interruption and record, and nothing else changed |
| ReactionBranches.EffectsInOrder | src/bb_agent/transitions.py:268-345 | on every branch of every move the reactions are recorded in the order of the reactors' names |
| ReactionHealth.ReactAllBleeds | src/bb_agent/transitions.py:268-345 | under strikes that take off what they record and kill exactly at 0: after any reactions a branch's hit points are exactly what the recorded damage leaves of the start, at least 0, and the mover lives exactly if any are left |
| ReactionHealth.ReactAllDents | src/bb_agent/transitions.py:268-345 | armour is untouched at a place where no recorded hit landed |
| ReactionHealth.OrdinaryMortal | src/bb_agent/transitions.py:268-345 | ordinary attacks are such strikes at a mover of exact positive hit points |
| ReactionHealth.OrdinaryLocal | src/bb_agent/transitions.py:268-345 | ordinary attacks leave armour alone wherever they do not land |
| ReactionLaws.OrdinaryAttacksObey | src/bb_agent/transitions.py:233-361 | ordinary attacks obey the four laws the following rows need: a miss kills nobody, probability is conserved, none is negative, hit points and armour never rise |
| ReactionLaws.ReactAllSums | src/bb_agent/transitions.py:268-345 | after every reaction the pending branches carry probability exactly 1 and the untouched ones the product of the miss chances so far |
| ReactionLaws.ReactAllStory | src/bb_agent/transitions.py:268-345 | a pending branch has been charged nothing beyond the costs, records the reactions in order (all of them if the mover lives, up to a hit if it is dead), and can complete exactly when all of them were misses |
| ReactionLaws.DeadStayAsTheyAre | src/bb_agent/transitions.py:268-345 | a branch dead after some of the reactions is among the branches after all of them, with the same mover, probability and effects |
| ReactionLaws.DeathIsFinal | src/bb_agent/transitions.py:268-345 | a dead branch is what a killing, not missing outcome of the reaction of its last effect made of a branch that was alive until then; nothing has been done to it since |
| MoveLaws.MoveProbabilities | src/bb_agent/transitions.py:233-361 | for any number of reactions total probability is exactly 1, completion probability is the product of (1 - hit/100), interruption probability its complement |
| MoveLaws.BranchStory | src/bb_agent/transitions.py:233-361 | AP and fatigue are paid exactly once on every branch; a branch completes, at the destination, exactly when every reaction missed; a living branch met every reaction; a dead one ends with the hit that killed it and met nothing after it; hit points and armour are what the recorded hits leave |
| MoveLaws.NobodyIsHealed | src/bb_agent/transitions.py:233-361 | whether hit points and armour are known exactly or as distributions: on no branch can the mover have more of them than it may have had, when the damage profiles are not negative |
| MoveLaws.MoveForgetsOrder | src/bb_agent/transitions.py:233-361 | in whatever order the reactions are supplied, the move succeeds or is refused alike and with the same branches; with position and path on the map the whole outcome, refusal included, is the same |
| MoveLaws.OrdinaryMove | src/bb_agent/transitions.py:233-361 | for ordinary attacks of opportunity under either information profile: the probabilities, the posture, the story of every branch, hit points that are what the recorded damage leaves and count as lost just so, death exactly at 0, armour untouched where nothing landed, no healing (for nonnegative profiles) and independence of the supplied order |
| MoveLaws.ReadFriendlyHarm | src/bb_agent/features.py:451-495 | the accumulating loop reads off least, greatest and expected HP loss and the death and interruption probabilities; it is refused exactly if some ending HP is not exact |
| MoveLaws.PostureIsNormalised | src/bb_agent/features.py:897-921 | a living mover's survivors weigh at least the chance that all reactions miss, which is positive, so the division is defined and the posture branches add up to 1 |
| RiskFeatures.HarmIsInRange | src/bb_agent/features.py:451-495 | the expected loss lies within the reported range, so the range constructor accepts it, and both probabilities lie in [0, 1] |
| RiskFeatures.PostureMetricIsValid | src/bb_agent/features.py:897-930 | whatever is measured on the survivors of a move, if it is valid on each of them, mixing it over the posture branches is a valid range |
| MetricTightness.ConstructIff | src/bb_agent/features.py:62-121 | the constructor, without its slack, builds exactly the valid ranges; a projection that is not given is the expectation if there is one, else the raw range or the selection projection |
| MetricRanges.WeightedSound | src/bb_agent/evaluator.py:286-372 | weighting a valid range by a nonnegative weight is valid and weights every contained value, in all three projections |
| MetricRanges.NormalizedSound | src/bb_agent/evaluator.py:303-335 | normalising a valid range is valid, stays in [-1, 1] and contains the image of every contained value, whichever sign the direction has |
| MetricRanges.SubtractSound | src/bb_agent/evaluator.py:393-411 | the difference of valid ranges is valid and contains every difference of contained values |
| MetricRanges.PooledSound | src/bb_agent/evaluator.py:336-391 | adding or averaging valid ranges is valid and contains the pooled value of every choice of contained values |
| MetricTightness.WeightedTight | src/bb_agent/evaluator.py:286-372 | every bound of a weighted range is the weighted image of a contained value, in all three projections, and the expectation is weighted |
| MetricTightness.NormalizedTight | src/bb_agent/evaluator.py:303-335 | every bound of a normalised range is the image of a contained value, and the expectation is normalised |
| MetricTightness.SubtractTight | src/bb_agent/evaluator.py:393-411 | a difference range holds exactly the differences of contained values, and the difference of the expectations exactly if both are known |
| MetricTightness.ShiftTight | src/bb_agent/evaluator.py:412-424 | a shifted range holds exactly the shifted values, and the shifted expectation |
| MetricTightness.PooledTight | src/bb_agent/evaluator.py:336-391 | both bounds of a pooled range are pooled choices of contained values, and the expectation is pooled exactly if all are known |
| MetricRanges.WeightedRangeSound | src/bb_agent/features.py:371-416 | mixing valid ranges never fails when the probabilities add up to exactly 1 or miss 1 by more than the tolerance, and the support covers every item's |
| MetricTightness.MixtureTight | src/bb_agent/features.py:371-416 | mixed by probabilities adding up to nearly 1, selection and epistemic projection reach from one mixture of contained values to another and hold them all, and the expectation mixes the expectations exactly if all are known; by any others only the common support is left |
| MetricRanges.AcceptedIffCovered | src/bb_agent/features.py:62-121 | for a constructor with any slack: every list of valid ranges whose probabilities add up to `total` and whose common support is [lo, hi] is accepted as a mixture if and only if (total - 1) * lo >= -slack and (total - 1) * hi <= slack |
| MetricRanges.UnitSupportMixes | src/bb_agent/features.py:371-416 | with the slack of the source, mixing valid ranges supported inside [0, 1] is never refused, whatever their probabilities add up to |
| RiskFeatures.PostureNeverRefused | src/bb_agent/features.py:897-930 | over the posture branches, which are divided by what the survivors weigh, every measure that is valid on the survivors mixes without any slack, whatever the branches weigh together |
| RiskFeatures.TempoNeverRefused | src/bb_agent/features.py:1096-1117 | mixing a yes or no of each branch over the branches as they are is never refused, whatever these weigh together |
| Scoring.ComponentSound | src/bb_agent/evaluator.py:445-460 | a component's range is valid and lies within plus or minus its weight |
| Scoring.ScoreSound | src/bb_agent/evaluator.py:680-751 | valid features always score: every range is valid, the ranking value lies in the ranking range, the base value is bounded by the sum of the family weights, and the explanation facts add up exactly to the ranking value |
| Scoring.UncertaintyAddsUp | src/bb_agent/evaluator.py:699-705 | the uncertainty span is the epistemic spread of value and penalty together, it is charged at the profile's rate, and the ranking range is the opposed-bounds difference shifted down by that charge |
| ScoreCard.ScoreIsWorth | src/bb_agent/evaluator.py:427-751 | the score written out: each component is the mean of its metrics, each over its own scale, at most 1 either way, gains added and losses taken off at the actor's or ally's value; expectations count if a component has all of them, else low ends of gains and high ends of losses; tail risk is charged at the actor's value; irreversible cost and guardrail |
| ScoreCard.ScoreIsExplained | src/bb_agent/evaluator.py:461-751 | the explanation names the six components with their weighted means, in order, and what is charged for risk and for uncertainty |
| ScoringMonotone.NoWorseScoresNoLower | src/bb_agent/evaluator.py:461-751 | features at least as good in every metric (more of a gain, less of a loss) score at least as much in every component and in total, pay no more tail risk, cost no more and are excluded only if the worse ones are |
| Dominance.DominanceRaisesMerit | src/bb_agent/evaluator.py:754-770 | domination between scored candidates implies a strictly greater score before the uncertainty penalty |
| Dominance.ChainFalls | src/bb_agent/evaluator.py:754-770 | dominance has no cycles of any length |
| Dominance.ChainedIff | src/bb_agent/evaluator.py:754-770 | some reconciled candidate stands between two others in a chain of dominance if and only if, with x the certain lead in benefit and y in risk, x > 2T and y >= -2T, or x > 0 and y > 0, or y > 2T and x >= -2T |
| Dominance.TransitivityFailsIff | src/bb_agent/evaluator.py:754-770 | such a chain exists without domination of its end by its start if and only if one lead exceeds 2T while the other is between -2T and -T, or both are positive and at most T |
| DominanceWitness.DominanceIsNotTransitive | src/bb_agent/evaluator.py:754-770 | three candidates that scoring produces, the first dominating the second and the second the third, but the first not the third |
| Dominance.DominanceComposes | src/bb_agent/evaluator.py:754-770 | dominance does compose when its first step makes no use of the tolerance |
| Dominance.SomeoneIsUndominated | src/bb_agent/evaluator.py:773-789 | every nonempty set of scored candidates keeps one that nobody dominates |
| Dominance.WithDominance | src/bb_agent/evaluator.py:773-789 | each candidate is returned in place with the least name among the others that dominate it, or none exactly if nobody does |
| Selection.ScoreGroups | src/bb_agent/evaluator.py:803-820 | popping the ranked list until it is empty yields the bands of the recursive specification |
| Selection.ScoreGroupsAreBands | src/bb_agent/evaluator.py:803-820 | the groups partition the candidates; each is exactly what is left within margin and tolerance of its leader, later ones are further below, and each is in strict tie order |
| SelectionLaws.Select | src/bb_agent/evaluator.py:823-880 | selection fails exactly on an empty set or repeated action ids, and otherwise decides as specified |
| SelectionLaws.RankingIsPermutation | src/bb_agent/evaluator.py:823-880 | the ranking names every candidate exactly once and nothing guardrail-excluded precedes anything eligible |
| SelectionLaws.DecisionForgetsOrder | src/bb_agent/evaluator.py:823-880 | for unique action ids the decision is the same under any reordering of the input |
| SelectionLaws.ChosenIsChampion | src/bb_agent/evaluator.py:792-880 | the chosen action minimises the tie key among all eligible candidates within margin and tolerance of the best eligible score (among all candidates when none is eligible) |
| SelectionLaws.ChosenIsPreferred | src/bb_agent/evaluator.py:792-880 | the criteria spelled out: among all that may be chosen and lie within the margin of the best, the chosen action has the least tail risk, then the least uncertainty, then the lowest irreversible cost, then the first name |
| Ordering.LexDecides | src/bb_agent/evaluator.py:792-800 | names compare by the first character in which they differ, or as a beginning of the other |
| SelectionLaws.TieWinners | src/bb_agent/evaluator.py:851-871 | each recorded near tie is a group of several and its winner precedes all others by the tie key |
| EpistemicJoin.CollectDomains | src/bb_agent/evaluator.py:898-911 | each domain holds exactly the assignment tuples offered over its keys |
| EpistemicJoin.Merge | src/bb_agent/evaluator.py:918-929 | merging a combination succeeds with exactly its assignments, or some key has two values and no state agrees with the combination |
| EpistemicJoin.JointAssignments | src/bb_agent/evaluator.py:898-931 | the result is exactly the natural join: all states with exactly the offered keys that agree, on the keys of every scenario, with a scenario over those keys; nothing when there is no scenario |
| EpistemicSensitivity.MatchesAtMostOnce | src/bb_agent/evaluator.py:934-951 | scenarios that are distinct over one domain match a joint state at most once, so the error is unreachable |
| EpistemicSensitivity.WholeDomainMatches | src/bb_agent/evaluator.py:934-951 | an action offering its whole domain matches every state of the join exactly once |
| EpistemicSensitivity.ScenarioCandidate | src/bb_agent/evaluator.py:934-951 | fails exactly on two matches; otherwise the match, or the base candidate if there is none |
| EpistemicSensitivity.BecomesOnce | src/bb_agent/evaluator.py:934-951 | what a candidate becomes in a joint state (the evaluation of a matching scenario, or itself if none matches) is unique on coherent scenarios |
| EpistemicSensitivity.KnowingIff | src/bb_agent/evaluator.py:954-1012 | the decision taken in a joint state is the one over any list of what the candidates become there |
| EpistemicSensitivity.ApplySensitivity | src/bb_agent/evaluator.py:954-1012 | computing the join and re-ranking in each of its states never fails on coherent scenarios; a candidate is information-sensitive exactly if decisions over what the candidates become in two states of the natural join rank it differently, the selection exactly if two such decisions choose differently; without scenarios nothing is |
| Mechanics.AcceptsIffAcyclic | src/bb_agent/mechanics.py:323-330 | the manifest check accepts exactly the tables in which every required name is declared and the relation is acyclic |
| Mechanics.AcceptedPaths | src/bb_agent/mechanics.py:323-330 | every dependency path in an accepted table is declared throughout and never repeats a family |
| Mechanics.Coverage.Require | src/bb_agent/mechanics.py:468-480 | the recursion over mutated sets and lists collects exactly what is reachable, each supported family with its model and each unsupported one reported once with its reason |
| Mechanics.Coverage.Classify | src/bb_agent/mechanics.py:480-503 | the collected families are exactly the reflexive-transitive closure, and the action is SUPPORTED exactly if there was no earlier problem and every family in the closure is SUPPORTED |
| HexGrid.DistanceIsLargest | src/bb_agent/tactical_state.py:260-262 | halving loses nothing: the distance is the largest of the three coordinate differences |
| HexGrid.DistanceIsLeastSteps | src/bb_agent/tactical_state.py:254-262 | `distance_to` is n if and only if n is the least number of `neighbor` steps between the coordinates |
| HexGrid.ValidateLinks | src/bb_agent/tactical_state.py:1106-1117 | the loop accepts exactly the tiles whose links lie in their direction and link back |
| HexGrid.ValidatePath | src/bb_agent/tactical_state.py:1046-1055 | the `prior` loop accepts exactly the paths whose every step is a linked neighbor of the one before |
| HexGrid.PathCoversDistance | src/bb_agent/tactical_state.py:1046-1117 | in a state that passes both checks a resolved path is at least as long as the hex distance it covers |
| HexGrid.PathReverses | src/bb_agent/tactical_state.py:1046-1117 | in such a state every resolved path can be walked back |
| CombatSandbox.Collected | src/bb_agent/combat_sandbox.py:248-284 | collecting chunks fails exactly if some index is out of range or two frames of one slot disagree or repeat an index; otherwise it holds exactly the frames' chunks |
| SandboxRecords.CollectChunks | src/bb_agent/combat_sandbox.py:248-284 | the loop that mutates the nested groups computes that collection |
| SandboxRecords.ManifestExpectedRecords | src/bb_agent/combat_sandbox.py:58-107 | the expected records are those the manifest lists itself or, if it lists none, the concatenation of the listings of its shards, provided all shards are there and list, the announced count is met and nothing repeats; anything else fails |
| SandboxRecords.AssembleIff | src/bb_agent/combat_sandbox.py:293-332 | a generation assembles to `records` exactly when every slot is whole and decodes to its own section and key, `records` holds for each id what the last slot with that id spells out, and the manifest and everything it expects are there |
| SandboxRecords.ExtractLatest | src/bb_agent/combat_sandbox.py:240-332 | the result is the lexicographically greatest (battle, generation) that assembles, with its records, and nothing exactly when none does or collecting fails |
| SandboxRecords.ExtractsOneThing | src/bb_agent/combat_sandbox.py:240-332 | a log never extracts to two different things |
| SandboxRecords.ReassemblyRestores | src/bb_agent/combat_sandbox.py:293-307 | however the frames of a text cut into chunks are mixed into a log, the joined slot is the original text |
| SandboxOrder.CutRestores | src/bb_agent/combat_sandbox.py:248-307 | any permutation of the frames of a cut text is collected, and the joined slot is the original text |
| SandboxOrder.FailureForgetsOrder | src/bb_agent/combat_sandbox.py:248-284 | collecting fails on a log exactly if it fails on every rearrangement of it |
| SandboxOrder.SlotsForgetOrder | src/bb_agent/combat_sandbox.py:248-284 | a rearranged log collects the same slots with the same chunks |
| SandboxOrder.OrderFreeIff | src/bb_agent/combat_sandbox.py:240-332 | extraction is independent of the frames' order if and only if, in the newest generation that some order completes, no two slots share a record id |
| SandboxOrder.DistinctIdsAreOrderFree | src/bb_agent/combat_sandbox.py:240-332 | a log in which no two slots of a generation share a record id is extracted the same in every order |
| SandboxManifest.DirectCompletable | src/bb_agent/combat_sandbox.py:240-332 | with a manifest that lists its records itself, some order completes a generation if and only if every slot decodes and each listed id has a slot |
| SandboxManifest.ShardedAssembles | src/bb_agent/combat_sandbox.py:58-107 | with a manifest that names shards, none of which shares its id with another slot, a generation assembles in a given order if and only if every slot decodes, the shard slots themselves list as many records as announced and none twice, and each listed id has a slot; so the order does not decide it |
| SandboxManifest.ShardedCompletable | src/bb_agent/combat_sandbox.py:240-332 | under the same condition on the slots some order completes such a generation |
| SandboxManifest.OneColonIsSole | src/bb_agent/combat_sandbox.py:293-315 | an id with exactly one colon belongs to at most one slot |
| SandboxManifest.PlainShardsCompletable | src/bb_agent/combat_sandbox.py:240-332 | when all shard ids have exactly one colon (as `manifest_expected:0`), the order of the frames never decides completion: some order completes the generation if and only if the given one does, told from the slots |
| SandboxManifest.NoListingNoCompletion | src/bb_agent/combat_sandbox.py:58-107 | a manifest whose payload lists neither records nor shards with a count is completed by no order |
| SandboxManifest.NoManifestNoCompletion | src/bb_agent/combat_sandbox.py:293-332 | without a manifest slot no order completes a generation |
| SandboxCollision.CollidingLogDependsOnOrder | src/bb_agent/combat_sandbox.py:293-315 | however records are decoded: two different section and key pairs with one `section:key` id, each decoding to its own, beside a manifest that expects nothing, make a log of three frames whose extraction depends on their order |
| SandboxCollision.CollidingLogExists | src/bb_agent/combat_sandbox.py:25-50 | such logs exist with frames of the required pattern (section `a` key `b:c`, section `a:b` key `c`) and a decoder under which no digest stands for two texts |

## Left out

- Files, `stat`, `fsync`, temporary-file replacement and clocks: input and output only; a log is a value and the durable store is one field.
- SHA-256, JSON text and base64: replaced by ideal digests and decoder parameters.
- IEEE rounding and the 1e-9 slack of the `MetricRange` constructor: reals and exact probability sums instead.
- Ally-jump prices: the code leaves them unresolved, so only their exclusion from the search matters.
- Event messages, timestamps, cost ledgers and provenance: they do not feed back into any decision; the refusal of a reaction ledger that changes cannot occur, because accepted reactions have different identities.
- `_had_persisted_state`: it only changes the wording of one message.
- The information-sensitivity flag inside a plain selection: it is copied from the chosen candidate; `EpistemicSensitivity.ApplySensitivity` says when it is set.
- The order in which joint assignments and classified families are listed: the result is a set or map here; the source sorts it for output.
- The remaining checks of `_classify_action` (target shape, parameters, item slots): they enter `Mechanics.Coverage` as earlier problems.
- `TacticalState` normalisation, construction and the remaining structural checks: wide and shallow.
- Extraction of single feature families, expectation parsing, regression classification, traces, fixtures and version registries: branch-by-branch field checks.
- Scenario ids and timing summaries of the sandbox: the first is one digest, the second easy arithmetic.
- The companion mod, installers, command-line tools and benchmarks: input and output only.
- MetricRanges.WeightedRangeSound: leaves out probabilities that miss 1 by less than the tolerance without adding up to it, because there the constructor's slack decides, as `MetricRanges.AcceptedIffCovered` says.
- SandboxManifest.ShardedCompletable: asks that no shard shares its id with another slot, because otherwise the frames' order decides which slot speaks for the shard; ids with one colon never do.
- MoveLaws.MoveProbabilities: asks for damage ranges that are not inverted and for exactly normalised knowledge of the mover, because probability is not conserved otherwise (`AttackOutcomes.MassIsOneIff`).
- MoveLaws.NobodyIsHealed: asks for damage profiles without negative numbers, because a negative amount of damage would heal; the loaded catalog's checks are not part of this model.
- RiskFeatures.PostureMetricIsValid: takes the measured range of each survivor as given; the single measures are not modelled.
- LiveSchedule.CutsDoNotMatter: takes a decoder that yields only valid records, as `_validate_record` enforces in the source.
- LiveDiscontinuity.AdviceFollowsAStart: the same; and a log rewritten in front of the anchor is not noticed, so it counts as the same log.
- AttackFacts.BranchesAccounted: asks for profiles and targets without negative numbers, because negative damage and armour mean nothing in the source.
- MoveAdmission.MoveSucceedsIff: is about living movers; a dead one is not struck at, so what its reactions lack does not matter.
- MoveAdmission.InvalidIff: asks that the tiles left are on the map, because validation calls a tile off the map invalid as well.
- LiveReading.DivIsHandled: takes div texts without an angle bracket, because a bracket may open or close a div itself; frames have none.
- MoveLaws.MoveForgetsOrder: leaves open which refusal is reported for a move whose path is off the map; a validated state has none.
