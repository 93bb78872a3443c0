/** What a rollout does, in closed form over the faults of its script: when it succeeds,
    when its rollback completes, and which containers exist and run after every outcome.

    The hosts of this module are snapshots: an index says how many further faults of their
    script have been used up. */
module RolloutExact {
  import opened Options
  import opened Rollout

  /** `h` has the containers of the snapshot `x` and `n` more faults of its script behind it. */
  ghost predicate At(x: Host, n: nat, h: Host) {
    SameContainers(x, h) && h.script == x.script && h.used == x.used + n
  }

  /** A command takes effect and succeeds as the fault at its index says. */
  lemma NextAt(x: Host, n: nat, h: Host, c: Command)
    requires At(x, n, h)
    ensures Issue(h, c).1 <==> Possible(x, c) && FaultAt(x, n) == Works
    ensures At(if Possible(x, c) && FaultAt(x, n) != FailsBefore then Effect(x, c) else x, n + 1, Issue(h, c).0)
  {
  }

  // ---------- Probes ----------

  /** One of the next `tries` probes works. */
  predicate Answered(script: seq<Fault>, at: nat, tries: nat) {
    exists k :: at <= k < at + tries && FaultIn(script, k) == Works
  }

  /** How many probes are sent. */
  function Asked(script: seq<Fault>, at: nat, tries: nat): nat
    decreases tries
  {
    if tries == 0 then 0
    else if FaultIn(script, at) == Works then 1
    else 1 + Asked(script, at + 1, tries - 1)
  }

  lemma ProbeAt(x: Host, n: nat, h: Host, c: Command)
    requires At(x, n, h) && (c.Health? || c.Rpc?)
    ensures Issue(h, c).1 <==> FaultAt(x, n) == Works
    ensures At(x, n + 1, Issue(h, c).0)
  {
  }

  lemma AnsweredNext(script: seq<Fault>, at: nat, tries: nat)
    requires tries > 0
    ensures Answered(script, at, tries) <==> FaultIn(script, at) == Works || Answered(script, at + 1, tries - 1)
  {
  }

  /** Probing ends with the first answer, or else after all tries. */
  lemma {:induction false} AskedIsFirst(script: seq<Fault>, at: nat, tries: nat)
    ensures !Answered(script, at, tries) ==> Asked(script, at, tries) == tries
    ensures Answered(script, at, tries) ==>
              && 0 < Asked(script, at, tries) <= tries
              && (var last := at + Asked(script, at, tries) - 1;
                  FaultIn(script, last) == Works && forall k :: at <= k < last ==> FaultIn(script, k) != Works)
    decreases tries
  {
    if tries > 0 && FaultIn(script, at) != Works {
      AskedIsFirst(script, at + 1, tries - 1);
    }
  }

  lemma {:induction false} TryExactly(x: Host, n: nat, h: Host, c: Command, tries: nat)
    requires At(x, n, h) && (c.Health? || c.Rpc?)
    ensures Try(h, c, tries).1 <==> Answered(x.script, x.used + n, tries)
    ensures At(x, n + Asked(x.script, x.used + n, tries), Try(h, c, tries).0)
    decreases tries
  {
    if tries > 0 {
      ProbeAt(x, n, h, c);
      AnsweredNext(x.script, x.used + n, tries);
      if FaultAt(x, n) != Works {
        TryExactly(x, n + 1, Issue(h, c).0, c, tries - 1);
      }
    }
  }

  // ---------- Recovering the consensus runtime ----------

  predicate Wakes(x: Host, at: nat, tries: nat) {
    FaultAt(x, at) == Works && Answered(x.script, x.used + at + 1, tries)
  }

  function AfterWake(x: Host, at: nat, name: Name): Host
    requires name in x.names
  {
    if FaultAt(x, at) != FailsBefore then x.(running := x.running + {x.names[name].id}) else x
  }

  /** How many commands it takes to restart a runtime and to wait for its answer. */
  function WakeAsked(x: Host, at: nat, tries: nat): nat {
    1 + if FaultAt(x, at) == Works then Asked(x.script, x.used + at + 1, tries) else 0
  }

  lemma WakeExactly(x: Host, n: nat, h: Host, name: Name, tries: nat)
    requires At(x, n, h) && name in x.names
    ensures Wake(h, name, tries).1 <==> Wakes(x, n, tries)
    ensures At(AfterWake(x, n, name), n + WakeAsked(x, n, tries), Wake(h, name, tries).0)
  {
    NextAt(x, n, h, Start(name));
    if FaultAt(x, n) == Works {
      TryExactly(AfterWake(x, n, name), n + 1, Issue(h, Start(name)).0, Rpc, tries);
    }
  }

  predicate Revives(x: Host, at: nat, tries: nat) {
    FaultAt(x, at) == Works && Wakes(x, at + 1, tries)
  }

  function AfterRevive(x: Host, at: nat, name: Name): Host
    requires name in x.names
  {
    if FaultAt(x, at) == Works then AfterWake(x, at + 1, name) else x
  }

  function ReviveAsked(x: Host, at: nat, tries: nat): nat {
    1 + if FaultAt(x, at) == Works then WakeAsked(x, at + 1, tries) else 0
  }

  lemma ReviveExactly(x: Host, n: nat, h: Host, name: Name, tries: nat)
    requires At(x, n, h) && name in x.names
    ensures Revive(h, name, tries).1 <==> Revives(x, n, tries)
    ensures At(AfterRevive(x, n, name), n + ReviveAsked(x, n, tries), Revive(h, name, tries).0)
  {
    NextAt(x, n, h, RestartPolicy(name));
    if FaultAt(x, n) == Works {
      WakeExactly(x, n + 1, Issue(h, RestartPolicy(name)).0, name, tries);
    }
  }

  predicate FindsConsensus(x: Host, at: nat, p: Plan) {
    p.consensus.InContainer? && p.consensus.name in x.names && FaultAt(x, at) == Works
  }

  predicate Recovers(x: Host, at: nat, p: Plan) {
    match p.consensus
    case NoConsensus => true
    case Service => Wakes(x, at, p.tries)
    case InContainer(_) => FindsConsensus(x, at, p) ==> Revives(x, at + 1, p.tries)
  }

  function AfterRecover(x: Host, at: nat, p: Plan): Host {
    if FindsConsensus(x, at, p) then AfterRevive(x, at + 1, p.consensus.name) else x
  }

  function RecoverAsked(x: Host, at: nat, p: Plan): nat {
    match p.consensus
    case NoConsensus => 0
    case Service => WakeAsked(x, at, p.tries)
    case InContainer(_) => 1 + if FindsConsensus(x, at, p) then ReviveAsked(x, at + 1, p.tries) else 0
  }

  lemma RecoverServiceExactly(x: Host, n: nat, h: Host, p: Plan)
    requires At(x, n, h) && p.consensus.Service?
    ensures Recover(h, p).1 <==> Recovers(x, n, p)
    ensures At(AfterRecover(x, n, p), n + RecoverAsked(x, n, p), Recover(h, p).0)
  {
    NextAt(x, n, h, RestartService);
    TryExactly(x, n + 1, Issue(h, RestartService).0, Rpc, p.tries);
  }

  lemma RecoverContainerExactly(x: Host, n: nat, h: Host, p: Plan)
    requires At(x, n, h) && p.consensus.InContainer?
    ensures Recover(h, p).1 <==> Recovers(x, n, p)
    ensures At(AfterRecover(x, n, p), n + RecoverAsked(x, n, p), Recover(h, p).0)
  {
    var name := p.consensus.name;
    NextAt(x, n, h, Inspect(name));
    if FindsConsensus(x, n, p) {
      ReviveExactly(x, n + 1, Issue(h, Inspect(name)).0, name, p.tries);
    }
  }

  lemma RecoverExactly(x: Host, n: nat, h: Host, p: Plan)
    requires At(x, n, h)
    ensures Recover(h, p).1 <==> Recovers(x, n, p)
    ensures At(AfterRecover(x, n, p), n + RecoverAsked(x, n, p), Recover(h, p).0)
  {
    match p.consensus
    case NoConsensus =>
    case Service => RecoverServiceExactly(x, n, h, p);
    case InContainer(_) => RecoverContainerExactly(x, n, h, p);
  }

  // ---------- Verifying ----------

  predicate ImageOk(x: Host, at: nat, p: Plan)
    requires p.container in x.names
  {
    FaultAt(x, at) == Works && p.expectedImageId <= x.names[p.container].imageId
  }

  predicate Checks(x: Host, at: nat, p: Plan)
    requires p.container in x.names
  {
    ImageOk(x, at, p) && Recovers(x, at + 1, p)
  }

  function AfterCheck(x: Host, at: nat, p: Plan): Host
    requires p.container in x.names
  {
    if ImageOk(x, at, p) then AfterRecover(x, at + 1, p) else x
  }

  function CheckAsked(x: Host, at: nat, p: Plan): nat
    requires p.container in x.names
  {
    1 + if ImageOk(x, at, p) then RecoverAsked(x, at + 1, p) else 0
  }

  lemma ImageExactly(x: Host, n: nat, h: Host, p: Plan)
    requires At(x, n, h) && p.container in x.names
    ensures var h1 := Issue(h, ImageOf(p.container)).0;
            At(x, n + 1, h1) && Check(h, p) == if ImageOk(x, n, p) then Recover(h1, p) else (h1, false)
  {
    NextAt(x, n, h, ImageOf(p.container));
  }

  lemma CheckExactly(x: Host, n: nat, h: Host, p: Plan)
    requires At(x, n, h) && p.container in x.names
    ensures Check(h, p).1 <==> Checks(x, n, p)
    ensures At(AfterCheck(x, n, p), n + CheckAsked(x, n, p), Check(h, p).0)
  {
    ImageExactly(x, n, h, p);
    if ImageOk(x, n, p) {
      RecoverExactly(x, n + 1, Issue(h, ImageOf(p.container)).0, p);
    }
  }

  /** The index of the image check. */
  function CheckAt(x: Host, at: nat, p: Plan): nat {
    at + Asked(x.script, x.used + at, p.tries)
  }

  /** The new container turns out healthy, of the expected image, and with a working
      consensus runtime. */
  predicate Verifies(x: Host, at: nat, p: Plan)
    requires p.container in x.names
  {
    Answered(x.script, x.used + at, p.tries) && Checks(x, CheckAt(x, at, p), p)
  }

  function AfterVerify(x: Host, at: nat, p: Plan): Host
    requires p.container in x.names
  {
    if Answered(x.script, x.used + at, p.tries) then AfterCheck(x, CheckAt(x, at, p), p) else x
  }

  /** The index of the first command after the verification. */
  function VerifiedAt(x: Host, at: nat, p: Plan): nat
    requires p.container in x.names
  {
    CheckAt(x, at, p) + if Answered(x.script, x.used + at, p.tries) then CheckAsked(x, CheckAt(x, at, p), p) else 0
  }

  lemma VerifyExactly(x: Host, n: nat, h: Host, p: Plan)
    requires At(x, n, h) && p.container in x.names
    ensures Verify(h, p).1 <==> Verifies(x, n, p)
    ensures At(AfterVerify(x, n, p), VerifiedAt(x, n, p), Verify(h, p).0)
  {
    TryExactly(x, n, h, Health, p.tries);
    if Answered(x.script, x.used + n, p.tries) {
      CheckExactly(x, CheckAt(x, n, p), Try(h, Health, p.tries).0, p);
    }
  }

  // ---------- Deploying ----------

  predicate Creates(x: Host, at: nat, p: Plan) {
    p.image in x.images && FaultAt(x, at) != FailsBefore
  }

  function AfterCreate(x: Host, at: nat, p: Plan, mounts: set<Mount>): Host {
    if Creates(x, at, p)
    then x.(names := x.names[p.container := Made(x, p, mounts)], nextId := x.nextId + 1)
    else x
  }

  /** The creation is reported, so that the new container is to be started. */
  predicate ReportsNew(x: Host, at: nat, p: Plan) {
    p.image in x.images && FaultAt(x, at) == Works
  }

  function AfterStart(x: Host, at: nat, p: Plan, mounts: set<Mount>): Host {
    var y := AfterCreate(x, at, p, mounts);
    if ReportsNew(x, at, p) && FaultAt(x, at + 1) != FailsBefore then y.(running := y.running + {x.nextId}) else y
  }

  /** The start is reported as well, so that the new container is to be verified. */
  predicate StartsNew(x: Host, at: nat, p: Plan) {
    ReportsNew(x, at, p) && FaultAt(x, at + 1) == Works
  }

  predicate Deploys(x: Host, at: nat, p: Plan, mounts: set<Mount>) {
    StartsNew(x, at, p) && Verifies(AfterStart(x, at, p, mounts), at + 2, p)
  }

  function AfterDeploy(x: Host, at: nat, p: Plan, mounts: set<Mount>): Host {
    var y := AfterStart(x, at, p, mounts);
    if StartsNew(x, at, p) then AfterVerify(y, at + 2, p) else y
  }

  /** The index of the first command after the deployment. */
  function DeployedAt(x: Host, at: nat, p: Plan, mounts: set<Mount>): nat {
    if !ReportsNew(x, at, p) then at + 1
    else if !StartsNew(x, at, p) then at + 2
    else VerifiedAt(AfterStart(x, at, p, mounts), at + 2, p)
  }

  /** Creating and starting the new container. */
  lemma StartNewExactly(x: Host, n: nat, h: Host, p: Plan, mounts: set<Mount>)
    requires At(x, n, h) && p.container !in x.names
    ensures var (h1, created) := Issue(h, Create(p.container, p.image, mounts));
            var (h2, started) := Issue(h1, Start(p.container));
            && (created <==> ReportsNew(x, n, p))
            && At(AfterCreate(x, n, p, mounts), n + 1, h1)
            && (created ==> (started <==> StartsNew(x, n, p)) && At(AfterStart(x, n, p, mounts), n + 2, h2))
  {
    NextAt(x, n, h, Create(p.container, p.image, mounts));
    var h1 := Issue(h, Create(p.container, p.image, mounts)).0;
    var y := AfterCreate(x, n, p, mounts);
    assert At(y, n + 1, h1);
    NextAt(y, n + 1, h1, Start(p.container));
  }

  lemma DeployExactly(x: Host, n: nat, h: Host, p: Plan, mounts: set<Mount>)
    requires At(x, n, h) && p.container !in x.names
    ensures Deploy(h, p, mounts).1 <==> Deploys(x, n, p, mounts)
    ensures At(AfterDeploy(x, n, p, mounts), DeployedAt(x, n, p, mounts), Deploy(h, p, mounts).0)
  {
    StartNewExactly(x, n, h, p, mounts);
    if StartsNew(x, n, p) {
      var h1 := Issue(h, Create(p.container, p.image, mounts)).0;
      VerifyExactly(AfterStart(x, n, p, mounts), n + 2, Issue(h1, Start(p.container)).0, p);
    }
  }

  // ---------- Rolling back ----------

  predicate FindsNew(x: Host, at: nat, p: Plan) {
    p.container in x.names && FaultAt(x, at) == Works
  }

  /** What stands under the container name is removed. */
  predicate Removes(x: Host, at: nat, p: Plan) {
    FindsNew(x, at, p) && FaultAt(x, at + 1) != FailsBefore
  }

  function AfterRemove(x: Host, at: nat, p: Plan): Host {
    if Removes(x, at, p)
    then x.(names := x.names - {p.container}, running := x.running - {x.names[p.container].id})
    else x
  }

  /** The index of the command that moves the original back. */
  function BackAt(x: Host, at: nat, p: Plan): nat {
    if FindsNew(x, at, p) then at + 2 else at + 1
  }

  /** The rollback goes on, having removed what it found. */
  predicate Proceeds(x: Host, at: nat, p: Plan) {
    FindsNew(x, at, p) ==> FaultAt(x, at + 1) == Works
  }

  lemma ClearExactly(x: Host, n: nat, h: Host, p: Plan)
    requires At(x, n, h)
    ensures Clear(h, p).1 <==> Proceeds(x, n, p)
    ensures At(AfterRemove(x, n, p), BackAt(x, n, p), Clear(h, p).0)
  {
    NextAt(x, n, h, Inspect(p.container));
    if FindsNew(x, n, p) {
      NextAt(x, n + 1, Issue(h, Inspect(p.container)).0, Remove(p.container));
    }
  }

  /** The original gets its name back. */
  predicate MovesBack(x: Host, at: nat, p: Plan) {
    p.container !in x.names && FaultAt(x, at) != FailsBefore
  }

  predicate Restarts(x: Host, at: nat, p: Plan) {
    p.container !in x.names && FaultAt(x, at) == Works && FaultAt(x, at + 1) != FailsBefore
  }

  predicate Restores(x: Host, at: nat, p: Plan) {
    p.container !in x.names && FaultAt(x, at) == FaultAt(x, at + 1) == Works
  }

  function AfterRestore(x: Host, at: nat, p: Plan): Host
    requires p.backup in x.names
  {
    var y := if MovesBack(x, at, p) then x.(names := Moved(x.names, p.backup, p.container)) else x;
    if Restarts(x, at, p) then y.(running := y.running + {x.names[p.backup].id}) else y
  }

  lemma RestoreExactly(x: Host, n: nat, h: Host, p: Plan)
    requires At(x, n, h) && p.backup in x.names && p.container != p.backup
    ensures Restore(h, p).1 <==> Restores(x, n, p)
    ensures SameContainers(AfterRestore(x, n, p), Restore(h, p).0)
  {
    NextAt(x, n, h, Rename(p.backup, p.container));
    if p.container !in x.names && FaultAt(x, n) == Works {
      NextAt(Effect(x, Rename(p.backup, p.container)), n + 1, Issue(h, Rename(p.backup, p.container)).0, Start(p.container));
    }
  }

  /** The rollback completes. */
  predicate Undoes(x: Host, at: nat, p: Plan) {
    Proceeds(x, at, p) && Restores(AfterRemove(x, at, p), BackAt(x, at, p), p)
  }

  function AfterRollback(x: Host, at: nat, p: Plan): Host
    requires p.backup in x.names && p.container != p.backup
  {
    var y := AfterRemove(x, at, p);
    if Proceeds(x, at, p) then AfterRestore(y, BackAt(x, at, p), p) else y
  }

  /** The rollback starts the original, with or without a report. */
  predicate StartsOriginal(x: Host, at: nat, p: Plan) {
    Proceeds(x, at, p) && Restarts(AfterRemove(x, at, p), BackAt(x, at, p), p)
  }

  /** A rollback completes exactly when nothing fails that it needs, and otherwise leaves
      what the faults so far say. */
  lemma RollbackExactly(x: Host, n: nat, h: Host, p: Plan)
    requires At(x, n, h) && p.backup in x.names && p.container != p.backup
    ensures Rollback(h, p).1 <==> Undoes(x, n, p)
    ensures SameContainers(AfterRollback(x, n, p), Rollback(h, p).0)
  {
    ClearExactly(x, n, h, p);
    if Proceeds(x, n, p) {
      RestoreExactly(AfterRemove(x, n, p), BackAt(x, n, p), Clear(h, p).0, p);
    }
  }

  // ---------- The whole rollout ----------

  /** The host once the original is set aside. */
  function Aside(h: Host, p: Plan): Host
    requires p.container in h.names
  {
    h.(names := Moved(h.names, p.container, p.backup), running := h.running - {h.names[p.container].id})
  }

  /** The number of commands that set the original aside. */
  const ASIDE: nat := 5

  lemma AsideExactly(h: Host, p: Plan)
    requires SetsAside(h, p) && p.container != p.backup
    ensures At(Aside(h, p), ASIDE, SetAside(BeforeStop(h, p), p).0)
  {
    BeforeStopFacts(h, p);
    SetAsideFacts(BeforeStop(h, p), p);
    AsideScript(h, p);
  }

  lemma AsideScript(h: Host, p: Plan)
    ensures ReachesStop(h, p) && FaultAt(h, 3) == Works ==>
              var a := SetAside(BeforeStop(h, p), p).0;
              a.script == h.script && a.used == h.used + ASIDE
  {
  }

  function Mounts(h: Host, p: Plan): set<Mount>
    requires p.container in h.names
  {
    h.names[p.container].mounts
  }

  predicate Succeeds(h: Host, p: Plan) {
    SetsAside(h, p) && Deploys(Aside(h, p), ASIDE, p, Mounts(h, p))
  }

  /** The host when a rollout ends its guarded part, and the index of the next command. */
  function Tried(h: Host, p: Plan): Host
    requires p.container in h.names
  {
    AfterDeploy(Aside(h, p), ASIDE, p, Mounts(h, p))
  }

  function UndoAt(h: Host, p: Plan): nat
    requires p.container in h.names
  {
    DeployedAt(Aside(h, p), ASIDE, p, Mounts(h, p))
  }

  lemma TriedHasBackup(h: Host, p: Plan)
    requires p.container in h.names && p.container != p.backup
    ensures p.backup in Tried(h, p).names && Tried(h, p).names[p.backup] == h.names[p.container]
  {
  }

  /** The outcome and the containers of every rollout that begins its guarded part. */
  ghost predicate RolledExactly(h: Host, p: Plan, now: Host, outcome: Outcome)
    requires p.container in h.names && p.container != p.backup
  {
    TriedHasBackup(h, p);
    if Deploys(Aside(h, p), ASIDE, p, Mounts(h, p)) then outcome == Success && SameContainers(Tried(h, p), now)
    else
      && outcome == (if Undoes(Tried(h, p), UndoAt(h, p), p) then RolledBack else RollbackFailed)
      && SameContainers(AfterRollback(Tried(h, p), UndoAt(h, p), p), now)
  }

  lemma ReplaceExactly(h: Host, a: Host, p: Plan)
    requires p.container in h.names && p.backup !in h.names && p.container != p.backup
    requires At(Aside(h, p), ASIDE, a)
    ensures RolledExactly(h, p, Replace(a, p, Mounts(h, p)).0, Replace(a, p, Mounts(h, p)).1)
  {
    DeployExactly(Aside(h, p), ASIDE, a, p, Mounts(h, p));
    TriedHasBackup(h, p);
    RollbackExactly(Tried(h, p), UndoAt(h, p), Deploy(a, p, Mounts(h, p)).0, p);
  }

  lemma RollExactly(h: Host, p: Plan)
    requires p.container != p.backup && SetsAside(h, p)
    ensures RolledExactly(h, p, Roll(h, p).0, Roll(h, p).1)
  {
    AsideExactly(h, p);
    BeforeStopFacts(h, p);
    SetAsideFacts(BeforeStop(h, p), p);
    ReplaceExactly(h, SetAside(BeforeStop(h, p), p).0, p);
  }
}
