/** The rollout tool itself: commands issued one after the other against mutable hosts,
    and the loop over the fleet. */
module RolloutTool {
  import opened Options
  import opened Sorting
  import opened Rollout
  import opened RolloutExact
  import opened RolloutOutcomes

  /** What is common to all hosts of a run. */
  datatype Release = Release(container: Name, suffix: string, image: string, expectedImageId: string, tries: nat)

  function BackupName(r: Release): (backup: Name)
    ensures backup != r.container
  {
    var backup := r.container + "-prev-" + r.suffix;
    assert |backup| > |r.container|;
    backup
  }

  class RemoteHost {
    var state: Host
    const expectedMount: Option<Mount>
    const consensus: Consensus

    constructor (state: Host, expectedMount: Option<Mount>, consensus: Consensus)
      ensures this.state == state && this.expectedMount == expectedMount && this.consensus == consensus
    {
      this.state, this.expectedMount, this.consensus := state, expectedMount, consensus;
    }

    function PlanFor(r: Release): (p: Plan)
      ensures p.container == r.container && p.container != p.backup
      ensures p.consensus == consensus && p.tries == r.tries
    {
      Plan(r.container, BackupName(r), r.image, r.expectedImageId, expectedMount, consensus, r.tries)
    }

    method Run(c: Command) returns (ok: bool)
      modifies this
      ensures (state, ok) == Issue(old(state), c)
    {
      var r := Issue(state, c);
      state, ok := r.0, r.1;
    }

    /** The polling loops. */
    method Poll(c: Command, tries: nat) returns (ok: bool)
      modifies this
      ensures (state, ok) == Try(old(state), c, tries)
    {
      for i := 0 to tries
        invariant Try(state, c, tries - i) == Try(old(state), c, tries)
      {
        ok := Run(c);
        if ok { return; }
      }
      return false;
    }

    method RecoverConsensus(p: Plan) returns (ok: bool)
      modifies this
      ensures (state, ok) == Recover(old(state), p)
    {
      match p.consensus {
        case NoConsensus =>
          return true;
        case Service =>
          ok := Run(RestartService);
          if !ok { return; }
        case InContainer(name) =>
          var found := Run(Inspect(name));
          if !found { return true; }
          ok := Run(RestartPolicy(name));
          if !ok { return; }
          ok := Run(Start(name));
          if !ok { return; }
      }
      ok := Poll(Rpc, p.tries);
    }

    /** The body of the guarded part of `_rollout_host`. */
    method DeployNew(p: Plan, mounts: set<Mount>) returns (ok: bool)
      modifies this
      ensures (state, ok) == Deploy(old(state), p, mounts)
    {
      ok := Run(Create(p.container, p.image, mounts));
      if !ok { return; }
      ok := Run(Start(p.container));
      if !ok { return; }
      ok := Poll(Health, p.tries);
      if !ok { return; }
      var names := state.names;
      ok := Run(ImageOf(p.container));
      if !ok { return; }
      if !(p.expectedImageId <= names[p.container].imageId) { return false; }
      ok := RecoverConsensus(p);
    }

    /** `_rollback`. */
    method RollBack(p: Plan) returns (ok: bool)
      modifies this
      ensures (state, ok) == Rollback(old(state), p)
    {
      var found := Run(Inspect(p.container));
      if found {
        ok := Run(Remove(p.container));
        if !ok { return; }
      }
      ok := Run(Rename(p.backup, p.container));
      if !ok { return; }
      ok := Run(Start(p.container));
    }

    /** `_rollout_host`: the imperative tool computes `Roll`, so that every script of
        faults has the outcome described by `OutcomeOk` and loses no container. */
    method RolloutHost(p: Plan) returns (outcome: Outcome)
      requires p.container != p.backup
      modifies this
      ensures (state, outcome) == Roll(old(state), p)
      ensures OutcomeOk(old(state), state, p, outcome)
      ensures SetsAside(old(state), p) ==> RolledExactly(old(state), p, state, outcome)
      ensures Survives(old(state).names, state.names)
    {
      RollOutcome(state, p);
      RollSurvives(state, p);
      var ok := Run(Connect);
      if !ok { return Aborted; }
      var names := state.names;
      ok := Run(Inspect(p.container));
      if !ok { return Aborted; }
      var mounts := names[p.container].mounts;
      if p.expectedMount.Some? && p.expectedMount.value !in mounts { return Aborted; }
      var taken := Run(Inspect(p.backup));
      if taken { return Aborted; }
      ok := Run(Stop(p.container));
      if !ok { return Aborted; }
      ok := Run(Rename(p.container, p.backup));
      if !ok { return Aborted; }
      ok := DeployNew(p, mounts);
      if ok { return Success; }
      ok := RollBack(p);
      return if ok then RolledBack else RollbackFailed;
    }
  }

  ghost function Reached(hosts: seq<RemoteHost>, done: nat): set<RemoteHost>
    requires done <= |hosts|
  {
    set i | 0 <= i < done :: hosts[i]
  }

  lemma ReachedNext(hosts: seq<RemoteHost>, done: nat)
    requires done < |hosts|
    ensures Reached(hosts, done + 1) == Reached(hosts, done) + {hosts[done]}
  {
  }

  /** A host between turns: rolled out without losing a container if it had a turn, and
      otherwise as it was. */
  ghost predicate TurnOk(h: Host, p: Plan, reached: bool, now: Host) {
    if reached then (now, Success) == Roll(h, p) && Survives(h.names, now.names) else now == h
  }

  /** How the turn that ended the run left its host, which was in state `turn` before. */
  ghost predicate EndOk(h: Host, p: Plan, reached: bool, turn: Host, now: Host, last: Outcome) {
    TurnOk(h, p, reached, turn) && (now, last) == Roll(turn, p) && OutcomeOk(turn, now, p, last)
  }

  // ---------- What a run means for the release ----------

  /** The host can take the release: it has the container, with the expected mount if one
      is given, an image of the expected ID, a free backup name, and time for a probe. */
  predicate ReadyFor(h: Host, r: Release, expectedMount: Option<Mount>) {
    && r.container in h.names && (r.container + "-prev-" + r.suffix) !in h.names
    && (expectedMount.Some? ==> expectedMount.value in h.names[r.container].mounts)
    && r.image in h.images && r.expectedImageId <= h.images[r.image] && r.tries > 0
  }

  /** The container runs the released image with its former mounts, its former self is
      kept under the backup name, and no other name is touched. */
  ghost predicate Serves(was: Host, r: Release, now: Host)
    requires r.container in was.names && r.image in was.images
  {
    var backup := r.container + "-prev-" + r.suffix;
    && now.names.Keys == was.names.Keys + {backup}
    && now.names[r.container] == Container(was.nextId, was.images[r.image], was.names[r.container].mounts)
    && was.nextId in now.running
    && now.names[backup] == was.names[r.container]
    && forall n :: n in was.names && n != r.container ==> now.names[n] == was.names[n]
  }

  /** The former container is still there, under its own name or under the backup name. */
  ghost predicate Keeps(was: Host, r: Release, now: Host) {
    var backup := r.container + "-prev-" + r.suffix;
    r.container in was.names ==>
      || (r.container in now.names && now.names[r.container] == was.names[r.container])
      || (backup in now.names && now.names[backup] == was.names[r.container])
  }

  lemma PlanMeans(host: RemoteHost, r: Release, h: Host)
    ensures Ready(h, host.PlanFor(r)) <==> ReadyFor(h, r, host.expectedMount)
  {
  }

  lemma SuccessServes(host: RemoteHost, r: Release, was: Host, now: Host)
    requires (now, Success) == Roll(was, host.PlanFor(r))
    ensures ReadyFor(was, r, host.expectedMount) && Serves(was, r, now)
  {
    RollOutcome(was, host.PlanFor(r));
    ReadyExactly(was, host.PlanFor(r));
    PlanMeans(host, r, was);
    OutcomeServes(host, r, was, now);
  }

  lemma OutcomeServes(host: RemoteHost, r: Release, was: Host, now: Host)
    requires OutcomeOk(was, now, host.PlanFor(r), Success)
    ensures r.container in was.names && r.image in was.images && Serves(was, r, now)
  {
  }

  lemma OutcomeKeeps(host: RemoteHost, r: Release, was: Host, now: Host, outcome: Outcome)
    requires OutcomeOk(was, now, host.PlanFor(r), outcome)
    ensures Keeps(was, r, now)
    ensures outcome == RolledBack ==>
              now.names == was.names && r.container in was.names && was.names[r.container].id in now.running
  {
  }

  /** Without faults, a turn of a host that is ready succeeds. */
  lemma ReadySucceeds(host: RemoteHost, r: Release, h: Host)
    requires ReadyFor(h, r, host.expectedMount) && Faultless(h.script)
    ensures Roll(h, host.PlanFor(r)).1 == Success
  {
    ReadyExactly(h, host.PlanFor(r));
    PlanMeans(host, r, h);
  }

  /** One turn of the host loop. */
  method TakeTurn(host: RemoteHost, r: Release, ghost start: Host, ghost reached: bool) returns (last: Outcome)
    requires TurnOk(start, host.PlanFor(r), reached, host.state)
    modifies host
    ensures Survives(start.names, host.state.names)
    ensures last == Success ==> !reached && TurnOk(start, host.PlanFor(r), true, host.state)
    ensures last != Success ==> EndOk(start, host.PlanFor(r), reached, old(host.state), host.state, last)
  {
    if reached {
      RepeatAborts(start, host.PlanFor(r));
    }
    last := host.RolloutHost(host.PlanFor(r));
  }

  ghost function States(hosts: seq<RemoteHost>): (states: map<RemoteHost, Host>)
    reads set h | h in hosts
  {
    map h | h in hosts :: h.state
  }

  /** The hosts with a turn among the first `done` are rolled out, all different, and the
      others are as they were; the host `but` is not spoken of. */
  ghost predicate FleetOk(hosts: seq<RemoteHost>, r: Release, done: nat, start: map<RemoteHost, Host>, but: set<RemoteHost>)
    reads set h | h in hosts
  {
    && done <= |hosts| && |Reached(hosts, done)| == done
    && forall h :: h in hosts && h !in but ==>
         h in start && TurnOk(start[h], h.PlanFor(r), h in Reached(hosts, done), h.state)
  }

  /** The turn `done` went from the state `turn` to where its outcome says and ended the run. */
  ghost predicate FleetEnded(hosts: seq<RemoteHost>, r: Release, done: nat, start: map<RemoteHost, Host>,
                             turn: Host, last: Outcome)
    reads set h | h in hosts
  {
    && done < |hosts| && hosts[done] in start && last != Success
    && FleetOk(hosts, r, done, start, {hosts[done]})
    && EndOk(start[hosts[done]], hosts[done].PlanFor(r), hosts[done] in Reached(hosts, done), turn, hosts[done].state, last)
    && Survives(start[hosts[done]].names, hosts[done].state.names)
  }

  /** One round of the host loop. */
  method NextTurn(hosts: seq<RemoteHost>, r: Release, done: nat, ghost start: map<RemoteHost, Host>)
      returns (last: Outcome, ghost turn: Host)
    requires FleetOk(hosts, r, done, start, {}) && done < |hosts|
    modifies hosts[done]
    ensures last == Success ==> FleetOk(hosts, r, done + 1, start, {})
    ensures last != Success ==> FleetEnded(hosts, r, done, start, turn, last)
  {
    var host := hosts[done];
    ReachedNext(hosts, done);
    turn := host.state;
    last := TakeTurn(host, r, start[host], host in Reached(hosts, done));
  }

  /** Why the turn `done` ended a run: its host had its turn before, was not ready for the
      release, or had a fault; and where that leaves it. */
  ghost predicate EndedBy(hosts: seq<RemoteHost>, r: Release, done: nat, start: map<RemoteHost, Host>, turn: Host, last: Outcome)
    requires done < |hosts| && hosts[done] in start
    reads hosts[done]
  {
    var host := hosts[done];
    && (|| host in Reached(hosts, done)
        || !ReadyFor(start[host], r, host.expectedMount) || !Faultless(start[host].script))
    && Keeps(turn, r, host.state)
    && (last == RolledBack ==>
          && host.state.names == turn.names && r.container in turn.names
          && turn.names[r.container].id in host.state.running)
  }

  lemma WhyEnded(hosts: seq<RemoteHost>, r: Release, done: nat, start: map<RemoteHost, Host>, turn: Host, last: Outcome)
    requires FleetEnded(hosts, r, done, start, turn, last)
    ensures EndedBy(hosts, r, done, start, turn, last)
  {
    var host := hosts[done];
    OutcomeKeeps(host, r, turn, host.state, last);
    if host !in Reached(hosts, done) && ReadyFor(start[host], r, host.expectedMount) && Faultless(start[host].script) {
      ReadySucceeds(host, r, start[host]);
    }
  }

  lemma FleetServes(hosts: seq<RemoteHost>, r: Release, done: nat, start: map<RemoteHost, Host>, but: set<RemoteHost>)
    requires FleetOk(hosts, r, done, start, but)
    ensures forall h :: h in Reached(hosts, done) && h !in but ==>
              h in start && ReadyFor(start[h], r, h.expectedMount) && Serves(start[h], r, h.state)
    ensures forall h :: h in hosts && h !in Reached(hosts, done) && h !in but ==> h in start && h.state == start[h]
  {
    forall h | h in Reached(hosts, done) && h !in but
      ensures h in start && ReadyFor(start[h], r, h.expectedMount) && Serves(start[h], r, h.state)
    {
      SuccessServes(h, r, start[h], h.state);
    }
  }

  /** The host loop of `main`: hosts take their turns in order, and the first one that does
      not succeed ends the run. */
  method RunFleet(hosts: seq<RemoteHost>, r: Release) returns (done: nat, last: Outcome, ghost turn: Option<Host>)
    modifies set h | h in hosts
    ensures last == Success ==> done == |hosts| && FleetOk(hosts, r, done, old(States(hosts)), {})
    ensures last != Success ==> turn.Some? && FleetEnded(hosts, r, done, old(States(hosts)), turn.value, last)
  {
    ghost var start := States(hosts);
    done, last, turn := 0, Success, None;
    while done < |hosts|
      invariant last == Success && FleetOk(hosts, r, done, start, {})
    {
      ghost var begun;
      last, begun := NextTurn(hosts, r, done, start);
      if last != Success {
        turn := Some(begun);
        return;
      }
      done := done + 1;
    }
  }

  /** What the host loop means for the release.  Hosts with a turn before its end serve the
      release, hosts without one are exactly as they were, and the one that ended the run
      went from `turn` to where its outcome says; a host listed twice ends the run at its
      second turn. */
  method RolloutFleet(hosts: seq<RemoteHost>, r: Release) returns (done: nat, last: Outcome, ghost turn: Option<Host>)
    modifies set h | h in hosts
    ensures last == Success ==> done == |hosts| && FleetOk(hosts, r, done, old(States(hosts)), {})
    ensures last == Success ==>
              && (forall i, j :: 0 <= i < j < |hosts| ==> hosts[i] != hosts[j])
              && forall h :: h in hosts ==> ReadyFor(old(h.state), r, h.expectedMount) && Serves(old(h.state), r, h.state)
    ensures last != Success ==> turn.Some? && FleetEnded(hosts, r, done, old(States(hosts)), turn.value, last)
    ensures last != Success ==> done < |hosts| && EndedBy(hosts, r, done, old(States(hosts)), turn.value, last)
    ensures forall h :: h in hosts && (last != Success ==> h != hosts[done]) ==>
              if h in Reached(hosts, done)
              then ReadyFor(old(h.state), r, h.expectedMount) && Serves(old(h.state), r, h.state)
              else h.state == old(h.state)
    ensures (&& Distinct(hosts)
             && forall h :: h in hosts ==>
                  ReadyFor(old(h.state), r, h.expectedMount) && Faultless(old(h.state).script)) ==>
              last == Success
  {
    ghost var start := States(hosts);
    done, last, turn := RunFleet(hosts, r);
    FleetMeans(hosts, r, done, start, turn, last);
  }

  lemma FleetMeans(hosts: seq<RemoteHost>, r: Release, done: nat, start: map<RemoteHost, Host>, turn: Option<Host>, last: Outcome)
    requires start.Keys == Elements(hosts)
    requires last == Success ==> done == |hosts| && FleetOk(hosts, r, done, start, {})
    requires last != Success ==> turn.Some? && FleetEnded(hosts, r, done, start, turn.value, last)
    ensures last == Success ==> Distinct(hosts) && Reached(hosts, done) == Elements(hosts)
    ensures last != Success ==> EndedBy(hosts, r, done, start, turn.value, last)
    ensures done <= |hosts|
    ensures forall h :: h in hosts && (last != Success ==> h != hosts[done]) ==>
              if h in Reached(hosts, done)
              then ReadyFor(start[h], r, h.expectedMount) && Serves(start[h], r, h.state)
              else h.state == start[h]
    ensures last != Success && Distinct(hosts) ==>
              !ReadyFor(start[hosts[done]], r, hosts[done].expectedMount) || !Faultless(start[hosts[done]].script)
  {
    if last == Success {
      FleetServes(hosts, r, done, start, {});
      AllReached(hosts);
    } else {
      WhyEnded(hosts, r, done, start, turn.value, last);
      FleetServes(hosts, r, done, start, {hosts[done]});
    }
  }

  lemma AllReached(hosts: seq<RemoteHost>)
    ensures Reached(hosts, |hosts|) == Elements(hosts)
    ensures |Reached(hosts, |hosts|)| == |hosts| ==> Distinct(hosts)
  {
    DistinctCardinality(hosts);
  }
}
