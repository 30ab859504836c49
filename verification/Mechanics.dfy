/** Mechanic families, their dependencies, and the coverage of one action. */
module Mechanics {
  datatype Status = Supported(modelVersion: string) | Unsupported(reason: string)

  datatype Family = Family(status: Status, needs: seq<string>)

  type Table = map<string, Family>

  // ----- The dependency check -----

  /** Walk the dependencies of `name`; false stands for the raised "unknown or cyclic" error. */
  predicate Visit(table: Table, name: string, ancestors: set<string>)
    decreases |table.Keys - ancestors|, 1, 0
  {
    name in table && name !in ancestors
    && (Shrinks(table.Keys, ancestors, name);
        VisitAll(table, table[name].needs, ancestors + {name}))
  }

  predicate VisitAll(table: Table, names: seq<string>, ancestors: set<string>)
    decreases |table.Keys - ancestors|, 2, |names|
  {
    names == [] || (Visit(table, names[0], ancestors) && VisitAll(table, names[1..], ancestors))
  }

  lemma Shrinks(keys: set<string>, ancestors: set<string>, name: string)
    requires name in keys && name !in ancestors
    ensures |keys - (ancestors + {name})| < |keys - ancestors|
  {
    assert keys - ancestors == keys - (ancestors + {name}) + {name};
  }

  predicate Accepts(table: Table) {
    forall name :: name in table ==> Visit(table, name, {})
  }

  /** Each name is required by the one before it. */
  ghost predicate Path(table: Table, p: seq<string>) {
    p != [] && forall i :: 0 <= i < |p| - 1 ==> p[i] in table && p[i + 1] in table[p[i]].needs
  }

  ghost predicate Declared(table: Table) {
    forall name, d :: name in table && d in table[name].needs ==> d in table
  }

  ghost predicate Cycle(table: Table, p: seq<string>) {
    Path(table, p) && |p| >= 2 && p[0] == p[|p| - 1]
  }

  ghost predicate Acyclic(table: Table) {
    forall p :: !Cycle(table, p)
  }

  lemma {:induction false} VisitAllEach(table: Table, names: seq<string>, ancestors: set<string>)
    ensures VisitAll(table, names, ancestors) <==> forall d :: d in names ==> Visit(table, d, ancestors)
  {
    if names != [] {
      VisitAllEach(table, names[1..], ancestors);
      assert names[0] in names && forall d :: d in names <==> d == names[0] || d in names[1..];
    }
  }

  /** What an accepted walk proves: every path from `name` is declared, avoids the ancestors and never repeats. */
  lemma {:induction false} AcceptedPaths(table: Table, name: string, ancestors: set<string>, p: seq<string>)
    requires Visit(table, name, ancestors) && Path(table, p) && p[0] == name
    ensures forall i :: 0 <= i < |p| ==> p[i] in table && p[i] !in ancestors
    ensures forall i, j :: 0 <= i < j < |p| ==> p[i] != p[j]
    decreases |p|
  {
    if |p| > 1 {
      VisitAllEach(table, table[name].needs, ancestors + {name});
      AcceptedPaths(table, p[1], ancestors + {name}, p[1..]);
      forall i | 1 <= i < |p| ensures p[i] in table && p[i] !in ancestors && p[i] != name {
        assert p[i] == p[1..][i - 1];
      }
      forall i, j | 1 <= i < j < |p| ensures p[i] != p[j] {
        assert p[i] == p[1..][i - 1] && p[j] == p[1..][j - 1];
      }
    }
  }

  lemma ReturningIsCyclic(table: Table, p: seq<string>, name: string)
    requires Path(table, p + [name]) && name in p
    ensures exists q :: Cycle(table, q)
  {
    var i :| 0 <= i < |p| && p[i] == name;
    var q := (p + [name])[i..];
    assert forall k :: 0 <= k < |q| ==> q[k] == (p + [name])[i + k];
    assert Cycle(table, q);
  }

  /** On a declared acyclic table the walk succeeds from the end of any path whose members are the ancestors. */
  lemma {:induction false} WalkSucceeds(table: Table, p: seq<string>, name: string, ancestors: set<string>)
    requires Declared(table) && Acyclic(table) && name in table
    requires Path(table, p + [name]) && forall a :: a in ancestors <==> a in p
    ensures Visit(table, name, ancestors)
    decreases |table.Keys - ancestors|
  {
    var q := p + [name];
    if name in p {
      ReturningIsCyclic(table, p, name);
      assert false;
    }
    Shrinks(table.Keys, ancestors, name);
    forall d | d in table[name].needs ensures Visit(table, d, ancestors + {name}) {
      assert Path(table, q + [d]);
      WalkSucceeds(table, q, d, ancestors + {name});
    }
    VisitAllEach(table, table[name].needs, ancestors + {name});
  }

  /** The check accepts exactly the tables whose required names are all declared and whose relation is acyclic. */
  lemma AcceptsIffAcyclic(table: Table)
    ensures Accepts(table) <==> Declared(table) && Acyclic(table)
  {
    if Accepts(table) {
      forall name, d | name in table && d in table[name].needs ensures d in table {
        assert Path(table, [name, d]);
        AcceptedPaths(table, name, {}, [name, d]);
        assert [name, d][1] == d;
      }
      forall p ensures !Cycle(table, p) {
        if Path(table, p) && |p| >= 2 {
          AcceptedPaths(table, p[0], {}, p);
        }
      }
    }
    if Declared(table) && Acyclic(table) {
      forall name | name in table ensures Visit(table, name, {}) {
        assert [] + [name] == [name];
        WalkSucceeds(table, [], name, {});
      }
    }
  }

  // ----- Closure -----

  /** `to` is required by `name`, directly or not, or is `name` itself. */
  ghost predicate Reaches(table: Table, name: string, to: string) {
    exists p :: Path(table, p) && p[0] == name && p[|p| - 1] == to
  }

  /** `name` requires `to` in at least one step. */
  ghost predicate Requires(table: Table, name: string, to: string) {
    name in table && exists d :: d in table[name].needs && Reaches(table, d, to)
  }

  lemma ReachesItself(table: Table, name: string)
    ensures Reaches(table, name, name)
  {
    assert Path(table, [name]);
  }

  lemma ReachesTransitive(table: Table, a: string, b: string, c: string)
    requires Reaches(table, a, b) && Reaches(table, b, c)
    ensures Reaches(table, a, c)
  {
    var p :| Path(table, p) && p[0] == a && p[|p| - 1] == b;
    var q :| Path(table, q) && q[0] == b && q[|q| - 1] == c;
    var r := p + q[1..];
    assert Path(table, r) && r[0] == a && r[|r| - 1] == c;
  }

  /** Reaching is being there, or reaching from something required. */
  lemma ReachesStep(table: Table, name: string, to: string)
    ensures Reaches(table, name, to) <==> name == to || Requires(table, name, to)
  {
    if Reaches(table, name, to) && name != to {
      var p :| Path(table, p) && p[0] == name && p[|p| - 1] == to;
      assert Path(table, p[1..]) && p[1..][0] == p[1];
    }
    if name == to {
      ReachesItself(table, name);
    }
    if Requires(table, name, to) {
      var d :| d in table[name].needs && Reaches(table, d, to);
      assert Path(table, [name, d]);
      assert Reaches(table, name, d);
      ReachesTransitive(table, name, d, to);
    }
  }

  lemma RequiresFurther(table: Table, a: string, b: string, c: string)
    requires Requires(table, a, b) && Reaches(table, b, c)
    ensures Requires(table, a, c)
  {
    var d :| d in table[a].needs && Reaches(table, d, b);
    ReachesTransitive(table, d, b, c);
  }

  lemma RequiringItselfIsCyclic(table: Table, name: string)
    requires Requires(table, name, name)
    ensures exists p :: Cycle(table, p)
  {
    var d :| d in table[name].needs && Reaches(table, d, name);
    var p :| Path(table, p) && p[0] == d && p[|p| - 1] == name;
    assert Cycle(table, [name] + p);
  }

  lemma NothingRequiresItself(table: Table, name: string)
    requires Accepts(table)
    ensures !Requires(table, name, name)
  {
    AcceptsIffAcyclic(table);
    if Requires(table, name, name) {
      RequiringItselfIsCyclic(table, name);
      assert false;
    }
  }

  // ----- Collecting the closure of a family -----

  /** Everything reachable from `name` is in `ids`. */
  ghost predicate Complete(table: Table, ids: set<string>, name: string) {
    forall to :: Reaches(table, name, to) ==> to in ids
  }

  /** Every collected family is complete, unless it is still waiting for `name`. */
  ghost predicate WaitingFor(table: Table, ids: set<string>, name: string) {
    forall x :: x in ids ==> Complete(table, ids, x) || Requires(table, x, name)
  }

  /** `more` is `ids` together with everything reachable from `name`. */
  ghost predicate Gathered(table: Table, ids: set<string>, name: string, more: set<string>) {
    forall x :: x in more <==> x in ids || Reaches(table, name, x)
  }

  /** Half way: `name` itself and everything reachable from its first `i` requirements. */
  ghost predicate Gathering(table: Table, ids: set<string>, name: string, i: nat, more: set<string>)
    requires name in table && i <= |table[name].needs|
  {
    forall x :: x in more <==> x in ids || x == name || ReachedByFirst(table, name, i, x)
  }

  ghost predicate ReachedByFirst(table: Table, name: string, i: nat, x: string)
    requires name in table && i <= |table[name].needs|
  {
    exists k :: 0 <= k < i && Reaches(table, table[name].needs[k], x)
  }

  lemma AlreadyGathered(table: Table, ids: set<string>, name: string)
    requires Accepts(table) && WaitingFor(table, ids, name) && name in ids
    ensures Gathered(table, ids, name, ids)
  {
    NothingRequiresItself(table, name);
  }

  lemma NextIsAwaited(table: Table, ids: set<string>, name: string, i: nat, more: set<string>)
    requires name in table && i < |table[name].needs|
    requires WaitingFor(table, ids, name) && Gathering(table, ids, name, i, more)
    ensures WaitingFor(table, more, table[name].needs[i])
  {
    var next := table[name].needs[i];
    ReachesItself(table, next);
    ReachesStep(table, name, next);
    forall x | x in more && !Requires(table, x, next) ensures Complete(table, more, x) {
      if x in ids {
        if Requires(table, x, name) {
          RequiresFurther(table, x, name, next);
        }
      } else {
        assert Requires(table, name, next);
        var k :| 0 <= k < i && Reaches(table, table[name].needs[k], x);
        forall to | Reaches(table, x, to) ensures to in more {
          ReachesTransitive(table, table[name].needs[k], x, to);
          assert ReachedByFirst(table, name, i, to);
        }
      }
    }
  }

  lemma GatheredNext(table: Table, ids: set<string>, name: string, i: nat, more: set<string>, after: set<string>)
    requires name in table && i < |table[name].needs|
    requires Gathering(table, ids, name, i, more) && Gathered(table, more, table[name].needs[i], after)
    ensures Gathering(table, ids, name, i + 1, after)
  {
    forall x ensures ReachedByFirst(table, name, i + 1, x)
                     <==> ReachedByFirst(table, name, i, x) || Reaches(table, table[name].needs[i], x) {
    }
  }

  lemma GatheringEnds(table: Table, ids: set<string>, name: string, more: set<string>)
    requires name in table && Gathering(table, ids, name, |table[name].needs|, more)
    ensures Gathered(table, ids, name, more)
  {
    forall x ensures Reaches(table, name, x) <==> x == name || ReachedByFirst(table, name, |table[name].needs|, x) {
      ReachesStep(table, name, x);
    }
  }

  datatype Problem = Problem(reason: string, mechanicId: string)

  class Coverage {
    const table: Table
    var familyIds: set<string>
    var models: map<string, string>
    var problems: seq<Problem>
    ghost const earlier: seq<Problem>

    constructor (table: Table, problems: seq<Problem>)
      requires Accepts(table)
      ensures this.table == table && this.earlier == this.problems == problems
      ensures familyIds == {} && Valid()
    {
      this.table := table;
      this.earlier := problems;
      this.problems := problems;
      this.familyIds := {};
      this.models := map[];
    }

    /** The models are those of the supported families, and each unsupported one is reported once. */
    ghost predicate Valid()
      reads this
    {
      && Accepts(table) && familyIds <= table.Keys
      && (forall x :: x in models <==> x in familyIds && table[x].status.Supported?)
      && (forall x :: x in models ==> models[x] == table[x].status.modelVersion)
      && earlier <= problems
      && Reports(table, familyIds, problems[|earlier|..])
    }

    method Require(name: string)
      requires Valid() && name in table && WaitingFor(table, familyIds, name)
      modifies this
      ensures Valid() && Gathered(table, old(familyIds), name, familyIds)
      decreases |table.Keys - familyIds|
    {
      if name in familyIds {
        AlreadyGathered(table, familyIds, name);
        return;
      }
      Shrinks(table.Keys, familyIds, name);
      Collect(name);
      var declaration := table[name];
      for i := 0 to |declaration.needs|
        invariant Valid() && old(familyIds) + {name} <= familyIds
        invariant Gathering(table, old(familyIds), name, i, familyIds)
      {
        ghost var before := familyIds;
        NextIsAwaited(table, old(familyIds), name, i, familyIds);
        AcceptsIffAcyclic(table);
        Fewer(table.Keys, old(familyIds) + {name}, familyIds);
        Require(declaration.needs[i]);
        GatheredNext(table, old(familyIds), name, i, before, familyIds);
      }
      GatheringEnds(table, old(familyIds), name, familyIds);
    }

    /** Record one family that was not there before. */
    method Collect(name: string)
      requires Valid() && name in table && name !in familyIds
      modifies this
      ensures Valid() && familyIds == old(familyIds) + {name}
    {
      familyIds := familyIds + {name};
      match table[name].status
      case Unsupported(reason) =>
        ReportOne(table, old(familyIds), problems[|earlier|..], name);
        problems := problems + [Problem(reason, name)];
        assert problems[|earlier|..] == old(problems)[|earlier|..] + [Problem(reason, name)];
      case Supported(modelVersion) =>
        models := models[name := modelVersion];
    }

    /** The families behind `name`, and whether all of them can be evaluated. */
    method Classify(name: string) returns (supported: bool)
      requires Valid() && familyIds == {} && name in table
      modifies this
      ensures Valid() && forall x :: x in familyIds <==> Reaches(table, name, x)
      ensures supported <==>
                earlier == [] && forall x :: Reaches(table, name, x) ==> x in table && table[x].status.Supported?
      ensures supported ==> models.Keys == familyIds
    {
      Require(name);
      supported := problems == [];
      NoReports(table, familyIds, problems[|earlier|..]);
    }
  }

  lemma Fewer(keys: set<string>, few: set<string>, many: set<string>)
    requires few <= many
    ensures |keys - many| <= |keys - few|
  {
    assert keys - few == (keys - many) + ((keys - few) * many);
  }

  /** `problems` reports exactly the unsupported families of `ids`, once each and with their reasons. */
  ghost predicate Reports(table: Table, ids: set<string>, problems: seq<Problem>)
    requires ids <= table.Keys
  {
    && (forall i :: 0 <= i < |problems| ==>
          && problems[i].mechanicId in ids
          && table[problems[i].mechanicId].status == Unsupported(problems[i].reason))
    && (forall i, j :: 0 <= i < j < |problems| ==> problems[i].mechanicId != problems[j].mechanicId)
    && (forall x :: x in ids && table[x].status.Unsupported? ==> Reported(problems, x))
  }

  ghost predicate Reported(problems: seq<Problem>, x: string) {
    exists i :: 0 <= i < |problems| && problems[i].mechanicId == x
  }

  lemma ReportOne(table: Table, ids: set<string>, problems: seq<Problem>, name: string)
    requires ids <= table.Keys && Reports(table, ids, problems)
    requires name in table && name !in ids && table[name].status.Unsupported?
    ensures Reports(table, ids + {name}, problems + [Problem(table[name].status.reason, name)])
  {
    var more := problems + [Problem(table[name].status.reason, name)];
    forall x | x in ids + {name} && table[x].status.Unsupported? ensures Reported(more, x) {
      if x == name {
        assert more[|problems|].mechanicId == name;
      } else {
        assert Reported(problems, x);
        var i :| 0 <= i < |problems| && problems[i].mechanicId == x;
        assert more[i].mechanicId == x;
      }
    }
  }

  lemma NoReports(table: Table, ids: set<string>, problems: seq<Problem>)
    requires ids <= table.Keys && Reports(table, ids, problems)
    ensures problems == [] <==> forall x :: x in ids ==> table[x].status.Supported?
  {
    if problems != [] {
      assert problems[0].mechanicId in ids;
    }
  }
}
