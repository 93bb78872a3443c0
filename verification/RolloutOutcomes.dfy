/** What the outcome of a rollout says about its host, for every script of faults. */
module RolloutOutcomes {
  import opened Options
  import opened Rollout
  import opened RolloutExact

  /** The new container under the name, the original under the backup name. */
  ghost predicate RolledOut(h: Host, now: NameMap, p: Plan) {
    && p.container in h.names && p.backup !in h.names && p.image in h.images
    && now == Moved(h.names, p.container, p.backup)[p.container := Made(h, p, h.names[p.container].mounts)]
  }

  /** What each outcome means for the host. */
  ghost predicate OutcomeOk(h: Host, now: Host, p: Plan, outcome: Outcome) {
    match outcome
    case Success =>
      && RolledOut(h, now.names, p) && h.nextId in now.running
      && p.expectedImageId <= now.names[p.container].imageId && MountMatches(h, p)
    case RolledBack =>
      now.names == h.names && p.container in h.names && h.names[p.container].id in now.running
    case RollbackFailed =>
      && p.container in h.names && p.backup !in h.names
      && (now.names == h.names || now.names == Moved(h.names, p.container, p.backup) || RolledOut(h, now.names, p))
    case Aborted =>
      && now.names == AbortedNames(h, p)
      && now.running == AbortedRunning(h, p)
  }

  lemma MovedBack(names: NameMap, container: Name, backup: Name)
    requires container in names && backup !in names && container != backup
    ensures var aside := Moved(names, container, backup);
            && container !in aside && backup in aside && aside[backup] == names[container]
            && Moved(aside, backup, container) == names
  {
  }

  /** The guarded part adds at most the new container. */
  lemma TriedNames(h: Host, p: Plan)
    requires p.container in h.names && p.backup !in h.names && p.container != p.backup
    ensures var moved, tried := Moved(h.names, p.container, p.backup), Tried(h, p).names;
            && tried == (if Creates(h, ASIDE, p) then moved[p.container := Made(h, p, Mounts(h, p))] else moved)
            && tried - {p.container} == moved
  {
    var moved := Moved(h.names, p.container, p.backup);
    assert moved - {p.container} == moved;
    assert p.image in h.images ==> moved[p.container := Made(h, p, Mounts(h, p))] - {p.container} == moved;
  }

  /** What a rollback leaves of the names: all as it was, cleared, or nothing changed. */
  lemma UndoneNames(h: Host, p: Plan)
    requires p.container in h.names && p.backup !in h.names && p.container != p.backup
    ensures var x, at := Tried(h, p), UndoAt(h, p);
            && p.backup in x.names
            && AfterRollback(x, at, p).names ==
                 if Proceeds(x, at, p) && MovesBack(AfterRemove(x, at, p), BackAt(x, at, p), p) then h.names
                 else if Removes(x, at, p) then Moved(h.names, p.container, p.backup)
                 else x.names
  {
    var x, at := Tried(h, p), UndoAt(h, p);
    TriedHasBackup(h, p);
    TriedNames(h, p);
    MovedBack(h.names, p.container, p.backup);
    var y := AfterRemove(x, at, p);
    assert p.container !in y.names ==> y.names == Moved(h.names, p.container, p.backup);
  }

  /** The outcome of a rollout says where everything is, for every script, and the faults
      of the script say which of the possible outcomes it is. */
  lemma RollOutcome(h: Host, p: Plan)
    requires p.container != p.backup
    ensures OutcomeOk(h, Roll(h, p).0, p, Roll(h, p).1)
    ensures SetsAside(h, p) ==> RolledExactly(h, p, Roll(h, p).0, Roll(h, p).1)
  {
    AbortedExactly(h, p);
    if SetsAside(h, p) {
      RollExactly(h, p);
      GuardedOutcome(h, p, Roll(h, p).0, Roll(h, p).1);
    }
  }

  lemma GuardedOutcome(h: Host, p: Plan, now: Host, outcome: Outcome)
    requires p.container in h.names && p.backup !in h.names && p.container != p.backup && MountMatches(h, p)
    requires RolledExactly(h, p, now, outcome)
    ensures OutcomeOk(h, now, p, outcome)
  {
    TriedNames(h, p);
    TriedHasBackup(h, p);
    UndoneNames(h, p);
  }

  lemma MovedSurvives(names: NameMap, from: Name, to: Name)
    requires from in names && to !in names
    ensures Survives(names, Moved(names, from, to))
  {
    forall c | c in names.Values
      ensures c in Moved(names, from, to).Values
    {
      var n :| n in names && names[n] == c;
      assert Moved(names, from, to)[if n == from then to else n] == c;
    }
  }

  lemma AddedSurvives(names: NameMap, name: Name, c: Container)
    requires name !in names
    ensures Survives(names, names[name := c])
  {
    forall d | d in names.Values
      ensures d in names[name := c].Values
    {
      var n :| n in names && names[n] == d;
      assert names[name := c][n] == d;
    }
  }

  /** No original container is ever removed, whatever fails and wherever. */
  lemma RollSurvives(h: Host, p: Plan)
    requires p.container != p.backup
    ensures Survives(h.names, Roll(h, p).0.names)
  {
    RollOutcome(h, p);
    if p.container in h.names && p.backup !in h.names {
      MovedSurvives(h.names, p.container, p.backup);
      if p.image in h.images {
        AddedSurvives(Moved(h.names, p.container, p.backup), p.container, Made(h, p, h.names[p.container].mounts));
      }
    }
  }

  // ---------- Success ----------

  /** A rollout succeeds exactly when the original is set aside and the faults let every
      stage of the deployment pass. */
  lemma SucceedsExactly(h: Host, p: Plan)
    requires p.container != p.backup
    ensures Roll(h, p).1 == Success <==> Succeeds(h, p)
  {
    AbortedExactly(h, p);
    if SetsAside(h, p) {
      RollExactly(h, p);
    }
  }

  /** What a rollout needs of the host itself. */
  predicate Ready(h: Host, p: Plan) {
    && p.container in h.names && p.backup !in h.names && MountMatches(h, p)
    && p.image in h.images && p.expectedImageId <= h.images[p.image] && p.tries > 0
  }

  ghost predicate Faultless(script: seq<Fault>) {
    forall k: nat :: FaultIn(script, k) == Works
  }

  lemma SucceedsOnlyIfReady(h: Host, p: Plan)
    requires p.container != p.backup && Succeeds(h, p)
    ensures Ready(h, p)
  {
    assert Answered(h.script, h.used + ASIDE + 2, p.tries);
  }

  lemma FaultlessAnswers(script: seq<Fault>, at: nat, tries: nat)
    requires Faultless(script) && tries > 0
    ensures Answered(script, at, tries)
  {
    assert FaultIn(script, at) == Works;
  }

  lemma FaultlessRecovers(x: Host, at: nat, p: Plan)
    requires Faultless(x.script) && p.tries > 0
    ensures Recovers(x, at, p)
  {
    FaultlessAnswers(x.script, x.used + at + 1, p.tries);
    FaultlessAnswers(x.script, x.used + at + 3, p.tries);
  }

  lemma FaultlessSucceeds(h: Host, p: Plan)
    requires p.container != p.backup && Faultless(h.script) && Ready(h, p)
    ensures Succeeds(h, p)
  {
    var y, at := AfterStart(Aside(h, p), ASIDE, p, Mounts(h, p)), ASIDE + 2;
    FaultlessAnswers(y.script, y.used + at, p.tries);
    FaultlessRecovers(y, CheckAt(y, at, p) + 1, p);
  }

  /** A rollout succeeds only on a host that is ready for it, and without faults on each
      of them, whatever its consensus runtime. */
  lemma ReadyExactly(h: Host, p: Plan)
    requires p.container != p.backup
    ensures Roll(h, p).1 == Success ==> Ready(h, p)
    ensures Faultless(h.script) ==> (Roll(h, p).1 == Success <==> Ready(h, p))
  {
    SucceedsExactly(h, p);
    if Succeeds(h, p) {
      SucceedsOnlyIfReady(h, p);
    }
    if Faultless(h.script) && Ready(h, p) {
      FaultlessSucceeds(h, p);
    }
  }

  // ---------- The original ----------

  /** The engine has given every container an ID of its own. */
  ghost predicate DistinctIds(h: Host) {
    && (forall n :: n in h.names ==> h.names[n].id < h.nextId)
    && forall m, n :: m in h.names && n in h.names && m != n ==> h.names[m].id != h.names[n].id
  }

  lemma TriedLeavesStopped(h: Host, p: Plan)
    requires DistinctIds(h) && p.container in h.names && p.backup !in h.names && p.container != p.backup
    requires p.consensus != InContainer(p.backup)
    ensures h.names[p.container].id !in Tried(h, p).running
    ensures p.container in Tried(h, p).names ==> Tried(h, p).names[p.container].id != h.names[p.container].id
  {
    TriedNames(h, p);
  }

  lemma GuardedOriginal(h: Host, p: Plan, now: Host, outcome: Outcome)
    requires DistinctIds(h) && p.container in h.names && p.backup !in h.names && p.container != p.backup
    requires p.consensus != InContainer(p.backup) && RolledExactly(h, p, now, outcome)
    ensures h.names[p.container].id in now.running <==>
              outcome != Success && StartsOriginal(Tried(h, p), UndoAt(h, p), p)
  {
    TriedHasBackup(h, p);
    TriedLeavesStopped(h, p);
  }

  /** Once it was set aside, the original runs again exactly when a rollback's start takes
      effect, unless its backup name is configured as the consensus container. */
  lemma OriginalRunsExactly(h: Host, p: Plan)
    requires DistinctIds(h) && p.container != p.backup && p.consensus != InContainer(p.backup)
    requires SetsAside(h, p)
    ensures h.names[p.container].id in Roll(h, p).0.running <==>
              Roll(h, p).1 != Success && StartsOriginal(Tried(h, p), UndoAt(h, p), p)
  {
    RollExactly(h, p);
    GuardedOriginal(h, p, Roll(h, p).0, Roll(h, p).1);
  }

  /** A host that was rolled out cannot be rolled out again: its backup name is taken. */
  lemma RepeatAborts(h: Host, p: Plan)
    requires p.container != p.backup
    ensures var (now, outcome) := Roll(h, p);
            outcome == Success ==> Roll(now, p).1 == Aborted && Roll(now, p).0.names == now.names
  {
    RollOutcome(h, p);
    AbortedExactly(Roll(h, p).0, p);
  }

  // ---------- Concrete schedules ----------

  const ORIGINAL := Container(0, "sha256:old", {})

  function OneHost(names: NameMap, script: seq<Fault>): Host {
    Host(names, {0}, 2, map["new" := "sha256:new"], script, 0, [])
  }

  const EXAMPLE_PLAN := Plan("abci", "abci-prev-1", "new", "sha256:new", None, NoConsensus, 1)

  /** A rename that takes effect and reports failure: the run aborts without a rollback,
      the original is stopped and under the backup name. */
  lemma AbortSetsAsideExample()
    ensures var h := OneHost(map["abci" := ORIGINAL], [Works, Works, Works, Works, FailsAfter]);
            var (now, outcome) := Roll(h, EXAMPLE_PLAN);
            outcome == Aborted && now.names == map["abci-prev-1" := ORIGINAL] && now.running == {}
  {
    var h := OneHost(map["abci" := ORIGINAL], [Works, Works, Works, Works, FailsAfter]);
    assert ReachesStop(h, EXAMPLE_PLAN);
    AbortedExactly(h, EXAMPLE_PLAN);
  }

  /** A backup probe that wrongly answers no: the rename is refused, and the original is
      left stopped under its own name. */
  lemma AbortStopsExample()
    ensures var names := map["abci" := ORIGINAL, "abci-prev-1" := Container(1, "sha256:older", {})];
            var (now, outcome) := Roll(OneHost(names, [Works, Works, FailsBefore]), EXAMPLE_PLAN);
            outcome == Aborted && now.names == names && now.running == {}
  {
    var names := map["abci" := ORIGINAL, "abci-prev-1" := Container(1, "sha256:older", {})];
    var h := OneHost(names, [Works, Works, FailsBefore]);
    assert ReachesStop(h, EXAMPLE_PLAN);
    AbortedExactly(h, EXAMPLE_PLAN);
  }

  /** A creation without effect and then a rename back without effect: the original is
      left stopped under the backup name. */
  lemma RollbackStrands(h: Host, p: Plan)
    requires p.container != p.backup && SetsAside(h, p)
    requires FaultAt(h, ASIDE) == FaultAt(h, ASIDE + 2) == FailsBefore
    ensures Roll(h, p).1 == RollbackFailed && SameContainers(Aside(h, p), Roll(h, p).0)
  {
    RollExactly(h, p);
    GuardedStrands(h, p, Roll(h, p).0, Roll(h, p).1);
  }

  lemma GuardedStrands(h: Host, p: Plan, now: Host, outcome: Outcome)
    requires p.container in h.names && p.container != p.backup && RolledExactly(h, p, now, outcome)
    requires FaultAt(h, ASIDE) == FaultAt(h, ASIDE + 2) == FailsBefore
    ensures outcome == RollbackFailed && SameContainers(Aside(h, p), now)
  {
    var a := Aside(h, p);
    assert FaultAt(a, ASIDE) == FailsBefore && FaultAt(a, ASIDE + 2) == FailsBefore;
    assert Tried(h, p) == a && UndoAt(h, p) == ASIDE + 1;
  }

  lemma StrandedHost() returns (h: Host)
    ensures h.names == map["abci" := ORIGINAL] && h.running == {0} && SetsAside(h, EXAMPLE_PLAN)
    ensures FaultAt(h, ASIDE) == FaultAt(h, ASIDE + 2) == FailsBefore
  {
    h := OneHost(map["abci" := ORIGINAL], [Works, Works, Works, Works, Works, FailsBefore, Works, FailsBefore]);
  }

  lemma RollbackStrandsExample() returns (h: Host)
    ensures h.names == map["abci" := ORIGINAL] && Roll(h, EXAMPLE_PLAN).1 == RollbackFailed
    ensures "abci" !in Roll(h, EXAMPLE_PLAN).0.names && Roll(h, EXAMPLE_PLAN).0.running == {}
  {
    h := StrandedHost();
    RollbackStrands(h, EXAMPLE_PLAN);
  }
}
