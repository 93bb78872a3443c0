/** Rolling one immutable image out over a fleet, with a rollback container.

    The placement of faults is an input: a host carries a script that says, command by
    command, whether the next one works, fails before taking effect or fails after it.
    A failing probe answers no.  What holds for all scripts holds wherever remote
    commands fail, rollback steps included. */
module Rollout {
  import opened Options

  type Name = string

  type Mount = (string, string)

  datatype Container = Container(id: nat, imageId: string, mounts: set<Mount>)

  type NameMap = map<Name, Container>

  datatype Fault = Works | FailsBefore | FailsAfter

  datatype Command =
    | Connect
    | Inspect(name: Name)
    | Stop(name: Name)
    | Rename(from: Name, to: Name)
    | Create(name: Name, image: string, mounts: set<Mount>)
    | Start(name: Name)
    | Remove(name: Name)
    | Health
    | ImageOf(name: Name)
    | RestartService
    | RestartPolicy(name: Name)
    | Rpc

  /** A host: its containers by name, the IDs of the started ones, what image references
      resolve to, the script of faults with the number of those used up, and the commands
      that reported success. */
  datatype Host = Host(
    names: NameMap,
    running: set<nat>,
    nextId: nat,
    images: map<string, string>,
    script: seq<Fault>,
    used: nat,
    trail: seq<Command>)

  /** Which consensus runtime has to recover after the new container is healthy. */
  datatype Consensus = NoConsensus | Service | InContainer(name: Name)

  datatype Plan = Plan(
    container: Name,
    backup: Name,
    image: string,
    expectedImageId: string,
    expectedMount: Option<Mount>,
    consensus: Consensus,
    tries: nat)

  datatype Outcome = Success | Aborted | RolledBack | RollbackFailed

  // ---------- Remote commands ----------

  /** The `k`-th fault of a script, after which everything works. */
  function FaultIn(script: seq<Fault>, k: nat): Fault {
    if k < |script| then script[k] else Works
  }

  /** The `k`-th fault to come. */
  function FaultAt(h: Host, k: nat): Fault {
    FaultIn(h.script, h.used + k)
  }

  predicate Possible(h: Host, c: Command) {
    match c
    case Rename(from, to) => from in h.names && to !in h.names
    case Create(name, image, _) => name !in h.names && image in h.images
    case Inspect(name) => name in h.names
    case Stop(name) => name in h.names
    case Start(name) => name in h.names
    case Remove(name) => name in h.names
    case ImageOf(name) => name in h.names
    case RestartPolicy(name) => name in h.names
    case _ => true
  }

  function Moved(names: NameMap, from: Name, to: Name): NameMap
    requires from in names
  {
    names[to := names[from]] - {from}
  }

  function Effect(h: Host, c: Command): Host
    requires Possible(h, c)
  {
    match c
    case Stop(name) => h.(running := h.running - {h.names[name].id})
    case Start(name) => h.(running := h.running + {h.names[name].id})
    case Rename(from, to) => h.(names := Moved(h.names, from, to))
    case Create(name, image, mounts) =>
      h.(names := h.names[name := Container(h.nextId, h.images[image], mounts)], nextId := h.nextId + 1)
    case Remove(name) => h.(names := h.names - {name}, running := h.running - {h.names[name].id})
    case _ => h
  }

  /** `RemoteHost.run`: the next fault decides whether a possible command takes effect
      and whether it reports success. */
  function Issue(h: Host, c: Command): (Host, bool) {
    var took := Possible(h, c) && FaultAt(h, 0) != FailsBefore;
    var ok := took && FaultAt(h, 0) == Works;
    var after := if took then Effect(h, c) else h;
    (after.(used := h.used + 1, trail := if ok then h.trail + [c] else h.trail), ok)
  }

  /** A probe repeated until it answers or the clock runs out after `tries` attempts. */
  function Try(h: Host, c: Command, tries: nat): (Host, bool)
    decreases tries
  {
    if tries == 0 then (h, false)
    else
      var (h1, ok) := Issue(h, c);
      if ok then (h1, true) else Try(h1, c, tries - 1)
  }

  // ---------- The rollout of one host, as a function of the script ----------

  /** Start the consensus container and wait for its answer. */
  function Wake(h: Host, name: Name, tries: nat): (Host, bool) {
    var (h1, started) := Issue(h, Start(name));
    if !started then (h1, false) else Try(h1, Rpc, tries)
  }

  function Revive(h: Host, name: Name, tries: nat): (Host, bool) {
    var (h1, updated) := Issue(h, RestartPolicy(name));
    if !updated then (h1, false) else Wake(h1, name, tries)
  }

  function Recover(h: Host, p: Plan): (Host, bool) {
    match p.consensus
    case NoConsensus => (h, true)
    case Service =>
      var (h1, ok) := Issue(h, RestartService);
      if !ok then (h1, false) else Try(h1, Rpc, p.tries)
    case InContainer(name) =>
      var (h1, found) := Issue(h, Inspect(name));
      if !found then (h1, true) else Revive(h1, name, p.tries)
  }

  /** The image check and, if it passes, the recovery of the consensus runtime. */
  function Check(h: Host, p: Plan): (Host, bool) {
    var (h1, seen) := Issue(h, ImageOf(p.container));
    if !seen || !(p.expectedImageId <= h.names[p.container].imageId) then (h1, false)
    else Recover(h1, p)
  }

  /** What is asked of a started container. */
  function Verify(h: Host, p: Plan): (Host, bool) {
    var (h1, healthy) := Try(h, Health, p.tries);
    if !healthy then (h1, false) else Check(h1, p)
  }

  function Deploy(h: Host, p: Plan, mounts: set<Mount>): (Host, bool) {
    var (h1, created) := Issue(h, Create(p.container, p.image, mounts));
    if !created then (h1, false)
    else
      var (h2, started) := Issue(h1, Start(p.container));
      if !started then (h2, false) else Verify(h2, p)
  }

  /** Move the original back and start it. */
  function Restore(h: Host, p: Plan): (Host, bool) {
    var (h1, renamed) := Issue(h, Rename(p.backup, p.container));
    if !renamed then (h1, false) else Issue(h1, Start(p.container))
  }

  /** Remove what stands under the container name, if anything is found there. */
  function Clear(h: Host, p: Plan): (Host, bool) {
    var (h1, found) := Issue(h, Inspect(p.container));
    if found then Issue(h1, Remove(p.container)) else (h1, true)
  }

  function Rollback(h: Host, p: Plan): (Host, bool) {
    var (h1, cleared) := Clear(h, p);
    if !cleared then (h1, false) else Restore(h1, p)
  }

  /** The guarded part, entered once the original is set aside. */
  function Replace(h: Host, p: Plan, mounts: set<Mount>): (Host, Outcome) {
    var (h1, deployed) := Deploy(h, p, mounts);
    if deployed then (h1, Success)
    else
      var (h2, restored) := Rollback(h1, p);
      (h2, if restored then RolledBack else RollbackFailed)
  }

  predicate MountMatches(h: Host, p: Plan) {
    p.expectedMount.None? || (p.container in h.names && p.expectedMount.value in h.names[p.container].mounts)
  }

  /** Stop the original and set it aside under the backup name. */
  function SetAside(h: Host, p: Plan): (Host, bool) {
    var (h1, stopped) := Issue(h, Stop(p.container));
    if !stopped then (h1, false) else Issue(h1, Rename(p.container, p.backup))
  }

  function Roll(h: Host, p: Plan): (Host, Outcome) {
    var (h1, connected) := Issue(h, Connect);
    if !connected then (h1, Aborted)
    else
      var (h2, current) := Issue(h1, Inspect(p.container));
      if !current || !MountMatches(h, p) then (h2, Aborted)
      else
        var (h3, taken) := Issue(h2, Inspect(p.backup));
        if taken then (h3, Aborted)
        else
          var (h4, aside) := SetAside(h3, p);
          if !aside then (h4, Aborted) else Replace(h4, p, h.names[p.container].mounts)
  }

  // ---------- What each stage can leave behind ----------

  /** Every container of `before` still exists, under whatever name. */
  ghost predicate Survives(before: NameMap, now: NameMap) {
    before.Values <= now.Values
  }

  /** Since `h` exactly the commands `steps` reported success. */
  ghost predicate Extends(h: Host, now: Host, steps: seq<Command>) {
    now.trail == h.trail + steps
  }

  function Succeeded(steps: seq<Command>, c: Command, ok: bool): seq<Command> {
    if ok then steps + [c] else steps
  }

  lemma StepExtends(start: Host, h: Host, steps: seq<Command>, c: Command)
    requires Extends(start, h, steps)
    ensures Extends(start, Issue(h, c).0, Succeeded(steps, c, Issue(h, c).1))
  {
    assert (start.trail + steps) + [c] == start.trail + (steps + [c]);
  }

  lemma ExtendsTransitive(a: Host, b: Host, c: Host, s: seq<Command>, t: seq<Command>)
    requires Extends(a, b, s) && Extends(b, c, t)
    ensures Extends(a, c, s + t)
  {
    assert (a.trail + s) + t == a.trail + (s + t);
  }

  lemma {:induction false} TryExtends(start: Host, h: Host, steps: seq<Command>, c: Command, tries: nat)
    requires Extends(start, h, steps)
    ensures Extends(start, Try(h, c, tries).0, Succeeded(steps, c, Try(h, c, tries).1))
    decreases tries
  {
    if tries > 0 {
      StepExtends(start, h, steps, c);
      if !Issue(h, c).1 {
        TryExtends(start, Issue(h, c).0, steps, c, tries - 1);
      }
    }
  }

  /** Probing changes nothing but the script and the trail. */
  ghost predicate SameContainers(h: Host, now: Host) {
    now.names == h.names && now.running == h.running && now.nextId == h.nextId && now.images == h.images
  }

  // ---------- Bringing the consensus runtime back ----------

  /** The successful commands that bring a consensus runtime back; a consensus container
      that is not found is skipped. */
  ghost predicate Recovery(consensus: Consensus, steps: seq<Command>) {
    match consensus
    case NoConsensus => steps == []
    case Service => steps == [RestartService, Rpc]
    case InContainer(name) => steps == [] || steps == [Inspect(name), RestartPolicy(name), Start(name), Rpc]
  }

  lemma RecoverServiceSteps(h: Host, p: Plan) returns (steps: seq<Command>)
    requires p.consensus.Service?
    ensures Extends(h, Recover(h, p).0, steps) && (Recover(h, p).1 ==> Recovery(p.consensus, steps))
  {
    var (h1, ok) := Issue(h, RestartService);
    StepExtends(h, h, [], RestartService);
    TryExtends(h, h1, Succeeded([], RestartService, ok), Rpc, p.tries);
    steps := if ok then Succeeded([RestartService], Rpc, Try(h1, Rpc, p.tries).1) else [];
  }

  lemma RecoverContainerSteps(h: Host, p: Plan) returns (steps: seq<Command>)
    requires p.consensus.InContainer?
    ensures Extends(h, Recover(h, p).0, steps) && (Recover(h, p).1 ==> Recovery(p.consensus, steps))
  {
    var name := p.consensus.name;
    var (h1, found) := Issue(h, Inspect(name));
    StepExtends(h, h, [], Inspect(name));
    steps := Succeeded([], Inspect(name), found);
    if found {
      var (h2, updated) := Issue(h1, RestartPolicy(name));
      StepExtends(h, h1, steps, RestartPolicy(name));
      steps := Succeeded(steps, RestartPolicy(name), updated);
      if updated {
        var (h3, started) := Issue(h2, Start(name));
        StepExtends(h, h2, steps, Start(name));
        steps := Succeeded(steps, Start(name), started);
        if started {
          TryExtends(h, h3, steps, Rpc, p.tries);
          steps := Succeeded(steps, Rpc, Try(h3, Rpc, p.tries).1);
        }
      }
    }
  }

  lemma RecoverSteps(h: Host, p: Plan) returns (steps: seq<Command>)
    ensures Extends(h, Recover(h, p).0, steps) && (Recover(h, p).1 ==> Recovery(p.consensus, steps))
  {
    match p.consensus
    case NoConsensus => steps := [];
    case Service => steps := RecoverServiceSteps(h, p);
    case InContainer(_) => steps := RecoverContainerSteps(h, p);
  }

  // ---------- Deploying the new container ----------

  /** The container a deployment creates. */
  function Made(h: Host, p: Plan, mounts: set<Mount>): Container
    requires p.image in h.images
  {
    Container(h.nextId, h.images[p.image], mounts)
  }

  ghost predicate Deployed(p: Plan, mounts: set<Mount>, steps: seq<Command>) {
    && |steps| >= 4
    && steps[..4] == [Create(p.container, p.image, mounts), Start(p.container), Health, ImageOf(p.container)]
    && Recovery(p.consensus, steps[4..])
  }

  lemma DeploySteps(h: Host, p: Plan, mounts: set<Mount>) returns (steps: seq<Command>)
    ensures Extends(h, Deploy(h, p, mounts).0, steps) && (Deploy(h, p, mounts).1 ==> Deployed(p, mounts, steps))
  {
    var create, start, image := Create(p.container, p.image, mounts), Start(p.container), ImageOf(p.container);
    var (h1, created) := Issue(h, create);
    StepExtends(h, h, [], create);
    steps := Succeeded([], create, created);
    if created {
      var (h2, started) := Issue(h1, start);
      StepExtends(h, h1, steps, start);
      steps := Succeeded(steps, start, started);
      if started {
        var (h3, healthy) := Try(h2, Health, p.tries);
        TryExtends(h, h2, steps, Health, p.tries);
        steps := Succeeded(steps, Health, healthy);
        if healthy {
          steps := ImageSteps(h, h3, p, mounts);
        }
      }
    }
  }

  lemma ImageSteps(h: Host, h3: Host, p: Plan, mounts: set<Mount>) returns (steps: seq<Command>)
    requires Extends(h, h3, [Create(p.container, p.image, mounts), Start(p.container), Health])
    ensures var (h4, seen) := Issue(h3, ImageOf(p.container));
            if !seen || !(p.expectedImageId <= h3.names[p.container].imageId)
            then Extends(h, h4, steps)
            else Extends(h, Recover(h4, p).0, steps) && (Recover(h4, p).1 ==> Deployed(p, mounts, steps))
  {
    var three := [Create(p.container, p.image, mounts), Start(p.container), Health];
    var (h4, seen) := Issue(h3, ImageOf(p.container));
    StepExtends(h, h3, three, ImageOf(p.container));
    steps := Succeeded(three, ImageOf(p.container), seen);
    if seen && p.expectedImageId <= h3.names[p.container].imageId {
      var rest := RecoverSteps(h4, p);
      ExtendsTransitive(h, h4, Recover(h4, p).0, steps, rest);
      assert (steps + rest)[..4] == steps && (steps + rest)[4..] == rest;
      steps := steps + rest;
    }
  }

  // ---------- Rolling back ----------

  /** The last two successful commands put the original back and start it. */
  ghost predicate RestoredAtEnd(p: Plan, steps: seq<Command>) {
    |steps| >= 2 && steps[|steps| - 2..] == [Rename(p.backup, p.container), Start(p.container)]
  }

  lemma RollbackSteps(h: Host, p: Plan) returns (steps: seq<Command>)
    ensures Extends(h, Rollback(h, p).0, steps)
    ensures Rollback(h, p).1 ==> RestoredAtEnd(p, steps)
  {
    var (h1, found) := Issue(h, Inspect(p.container));
    StepExtends(h, h, [], Inspect(p.container));
    steps := Succeeded([], Inspect(p.container), found);
    var (h2, cleared) := if found then Issue(h1, Remove(p.container)) else (h1, true);
    if found {
      StepExtends(h, h1, steps, Remove(p.container));
      steps := Succeeded(steps, Remove(p.container), cleared);
    }
    if cleared {
      var (h3, renamed) := Issue(h2, Rename(p.backup, p.container));
      StepExtends(h, h2, steps, Rename(p.backup, p.container));
      steps := Succeeded(steps, Rename(p.backup, p.container), renamed);
      if renamed {
        StepExtends(h, h3, steps, Start(p.container));
        steps := Succeeded(steps, Start(p.container), Issue(h3, Start(p.container)).1);
      }
    }
  }

  // ---------- The whole rollout of one host ----------

  /** The rollout gets as far as stopping the original: it is connected, sees the
      original with the expected mount, and sees no backup, truly or by a failed probe. */
  predicate ReachesStop(h: Host, p: Plan) {
    && FaultAt(h, 0) == Works
    && FaultAt(h, 1) == Works && p.container in h.names
    && MountMatches(h, p)
    && !(p.backup in h.names && FaultAt(h, 2) == Works)
  }

  /** An abort moves the original exactly when the rename takes effect and still fails. */
  function AbortedNames(h: Host, p: Plan): NameMap {
    if ReachesStop(h, p) && p.backup !in h.names && FaultAt(h, 3) == Works && FaultAt(h, 4) == FailsAfter
    then Moved(h.names, p.container, p.backup) else h.names
  }

  /** An abort leaves the original stopped exactly when the stop takes effect. */
  function AbortedRunning(h: Host, p: Plan): set<nat> {
    if ReachesStop(h, p) && FaultAt(h, 3) != FailsBefore
    then h.running - {h.names[p.container].id} else h.running
  }

  /** The faults and names under which the original is set aside and the guarded part begins. */
  predicate SetsAside(h: Host, p: Plan) {
    ReachesStop(h, p) && p.backup !in h.names && FaultAt(h, 3) == FaultAt(h, 4) == Works
  }

  /** The host when the original is about to be stopped. */
  ghost function BeforeStop(h: Host, p: Plan): Host {
    Issue(Issue(Issue(h, Connect).0, Inspect(p.container)).0, Inspect(p.backup)).0
  }

  lemma BeforeStopFacts(h: Host, p: Plan)
    ensures SameContainers(h, BeforeStop(h, p))
    ensures forall k: nat :: FaultAt(BeforeStop(h, p), k) == FaultAt(h, k + 3)
    ensures ReachesStop(h, p) ==>
              Roll(h, p) == (var (h4, aside) := SetAside(BeforeStop(h, p), p);
                             if !aside then (h4, Aborted) else Replace(h4, p, h.names[p.container].mounts))
    ensures !ReachesStop(h, p) ==> Roll(h, p).1 == Aborted && SameContainers(h, Roll(h, p).0)
  {
    var h1 := Issue(h, Connect).0;
    assert SameContainers(h, h1) && forall k: nat :: FaultAt(h1, k) == FaultAt(h, k + 1);
    var h2 := Issue(h1, Inspect(p.container)).0;
    assert SameContainers(h1, h2) && forall k: nat :: FaultAt(h2, k) == FaultAt(h1, k + 1);
    var h3 := Issue(h2, Inspect(p.backup)).0;
    assert SameContainers(h2, h3) && forall k: nat :: FaultAt(h3, k) == FaultAt(h2, k + 1);
  }

  /** Stopping and renaming, fault by fault. */
  lemma SetAsideFacts(h: Host, p: Plan)
    requires p.container in h.names && p.container != p.backup
    ensures var (now, ok) := SetAside(h, p);
            && (ok <==> p.backup !in h.names && FaultAt(h, 0) == FaultAt(h, 1) == Works)
            && now.running == (if FaultAt(h, 0) != FailsBefore then h.running - {h.names[p.container].id} else h.running)
            && now.names == (if p.backup !in h.names && FaultAt(h, 0) == Works && FaultAt(h, 1) != FailsBefore
                             then Moved(h.names, p.container, p.backup) else h.names)
            && now.nextId == h.nextId && now.images == h.images
  {
    var h1 := Issue(h, Stop(p.container)).0;
    assert FaultAt(h1, 0) == FaultAt(h, 1);
  }

  /** A rollout aborts exactly when the original is not set aside cleanly, and then its
      names and running containers are given by the faults. */
  lemma AbortedExactly(h: Host, p: Plan)
    requires p.container != p.backup
    ensures Roll(h, p).1 == Aborted <==> !SetsAside(h, p)
    ensures !SetsAside(h, p) ==> Roll(h, p).0.names == AbortedNames(h, p) && Roll(h, p).0.running == AbortedRunning(h, p)
  {
    BeforeStopFacts(h, p);
    if ReachesStop(h, p) {
      SetAsideFacts(BeforeStop(h, p), p);
    }
  }

  /** All successful commands of a successful rollout, in order. */
  ghost predicate FullRollout(p: Plan, mounts: set<Mount>, steps: seq<Command>) {
    && |steps| >= 4
    && steps[..4] == [Connect, Inspect(p.container), Stop(p.container), Rename(p.container, p.backup)]
    && Deployed(p, mounts, steps[4..])
  }

  lemma ReplaceSteps(a: Host, p: Plan, mounts: set<Mount>) returns (steps: seq<Command>)
    ensures var (now, outcome) := Replace(a, p, mounts);
            && Extends(a, now, steps)
            && (outcome == Success ==> Deployed(p, mounts, steps))
            && (outcome == RolledBack ==> RestoredAtEnd(p, steps))
  {
    var (d, ok) := Deploy(a, p, mounts);
    steps := DeploySteps(a, p, mounts);
    if !ok {
      var undo := RollbackSteps(d, p);
      ExtendsTransitive(a, d, Rollback(d, p).0, steps, undo);
      steps := steps + undo;
    }
  }

  lemma BeforeStopSteps(h: Host, p: Plan)
    requires ReachesStop(h, p) && p.backup !in h.names
    ensures Extends(h, BeforeStop(h, p), [Connect, Inspect(p.container)])
  {
    var h1 := Issue(h, Connect).0;
    StepExtends(h, h, [], Connect);
    var h2 := Issue(h1, Inspect(p.container)).0;
    StepExtends(h, h1, [Connect], Inspect(p.container));
    StepExtends(h, h2, [Connect, Inspect(p.container)], Inspect(p.backup));
  }

  lemma SetAsideSteps(start: Host, h: Host, p: Plan)
    requires Extends(start, h, [Connect, Inspect(p.container)]) && SetAside(h, p).1
    ensures Extends(start, SetAside(h, p).0,
                    [Connect, Inspect(p.container), Stop(p.container), Rename(p.container, p.backup)])
  {
    StepExtends(start, h, [Connect, Inspect(p.container)], Stop(p.container));
    var h1 := Issue(h, Stop(p.container)).0;
    StepExtends(start, h1, [Connect, Inspect(p.container), Stop(p.container)], Rename(p.container, p.backup));
  }

  /** The four commands before the guarded part. */
  lemma AsideSteps(h: Host, p: Plan)
    requires SetsAside(h, p) && p.container != p.backup
    ensures Extends(h, SetAside(BeforeStop(h, p), p).0,
                    [Connect, Inspect(p.container), Stop(p.container), Rename(p.container, p.backup)])
  {
    BeforeStopFacts(h, p);
    SetAsideFacts(BeforeStop(h, p), p);
    BeforeStopSteps(h, p);
    SetAsideSteps(h, BeforeStop(h, p), p);
  }

  /** Success means that every command and probe succeeded in order; a completed rollback
      ends by putting the original back and starting it. */
  lemma RollSteps(h: Host, p: Plan) returns (steps: seq<Command>)
    requires SetsAside(h, p) && p.container != p.backup
    ensures var (now, outcome) := Roll(h, p);
            && Extends(h, now, steps)
            && (outcome == Success ==> FullRollout(p, h.names[p.container].mounts, steps))
            && (outcome == RolledBack ==> RestoredAtEnd(p, steps))
  {
    var mounts := h.names[p.container].mounts;
    var a := SetAside(BeforeStop(h, p), p).0;
    BeforeStopFacts(h, p);
    SetAsideFacts(BeforeStop(h, p), p);
    AsideSteps(h, p);
    var head := [Connect, Inspect(p.container), Stop(p.container), Rename(p.container, p.backup)];
    var rest := ReplaceSteps(a, p, mounts);
    ExtendsTransitive(h, a, Roll(h, p).0, head, rest);
    steps := head + rest;
    assert steps[..4] == head && steps[4..] == rest;
  }
}
