/** What the broker promises its clients, over every execution. */
module BrokerTheorems {
  import opened BrokerJobs
  import opened BrokerProtocol
  import opened BrokerSafety
  import BrokerArgv

  // ---------- What no step undoes ----------

  /** From `s` to `t` nothing was forgotten, renamed, rewritten or reopened. */
  ghost predicate JobGrows(s: System, t: System, id: JobId)
    requires id in s.jobs && id in s.history
  {
    && id in t.jobs && id in t.history
    && s.history[id] <= t.history[id]
    && t.jobs[id].clientJobId == s.jobs[id].clientJobId
    && t.jobs[id].request == s.jobs[id].request
    && (Terminal(s.jobs[id].status) ==> t.jobs[id] == s.jobs[id] && t.history[id] == s.history[id])
  }

  ghost predicate Grows(s: System, t: System) {
    && s.runs <= t.runs
    && forall id :: id in s.jobs && id in s.history ==> JobGrows(s, t, id)
  }

  lemma StoredGrows(s: System, id: JobId, job: Job, status: Status, progress: int)
    requires id in s.jobs ==> !Terminal(s.jobs[id].status)
                              && job.clientJobId == s.jobs[id].clientJobId && job.request == s.jobs[id].request
    ensures Grows(s, Stored(s, id, job, status, progress))
  {
  }

  lemma ReloadGrows(s: System, t: System)
    requires s.disk == s.jobs && forall id :: id in s.jobs ==> Loadable(id, s.jobs[id])
    requires t.jobs == Reload(s.disk) && t.history == ReloadHistory(s.disk, s.history) && t.runs == s.runs
    ensures Grows(s, t)
  {
    forall id | id in s.jobs && id in s.history
      ensures JobGrows(s, t, id)
    {
      assert Loadable(id, s.jobs[id]);
    }
  }

  lemma WorkerGrows(cfg: Config, s: System, a: Action)
    requires cfg.allow.Covers() && Enabled(s, a) && TasksOk(s) && (a.WorkerAnnounce? || a.WorkerReport?)
    ensures Grows(s, Apply(cfg, s, a))
  {
    var id := a.id;
    assert Coupled(s, id);
    if a.WorkerAnnounce? {
      UpdateGrows(s, id, Running, 10, NoResult);
    } else {
      var status := if s.tasks[id].future.phase == Ran(true) then Succeeded else Failed;
      var code := if s.tasks[id].future.phase.Raised? then BrokerInternalError else ActionCompleted;
      UpdateGrows(s, id, status, 100, JobResult(status, code));
    }
  }

  lemma ControlGrows(cfg: Config, s: System, a: Action)
    requires cfg.allow.Covers() && Enabled(s, a) && ControlOk(s) && (a.Submit? || a.Cancel? || a.CancelRecord?)
    ensures Grows(s, Apply(cfg, s, a))
  {
    match a
    case Submit(client, request, newId) =>
      StoredGrows(s, newId, NewJob(newId, client, request), Queued, 0);
    case Cancel(id) =>
      if id in s.jobs && !Terminal(s.jobs[id].status) {
        StoredGrows(s, id, CancelMarked(s.jobs[id]), s.jobs[id].status, s.jobs[id].progress);
      }
    case CancelRecord =>
      UpdateGrows(s, s.control.id, Cancelled, 100, JobResult(Cancelled, CancelledBeforeDispatch));
  }

  lemma QuietGrows(cfg: Config, s: System, a: Action)
    requires cfg.allow.Covers() && Enabled(s, a) && !TouchesStore(a)
    ensures Grows(s, Apply(cfg, s, a))
  {
    QuietStep(cfg, s, a);
  }

  lemma StepGrows(cfg: Config, s: System, a: Action)
    requires cfg.allow.Covers() && Enabled(s, a) && Core(s) && s.disk == s.jobs
    requires forall id :: id in s.jobs ==> Loadable(id, s.jobs[id])
    ensures Grows(s, Apply(cfg, s, a))
  {
    if !TouchesStore(a) {
      QuietGrows(cfg, s, a);
    } else if a.WorkerAnnounce? || a.WorkerReport? {
      WorkerGrows(cfg, s, a);
    } else if a.Restart? {
      ReloadGrows(s, Apply(cfg, s, a));
    } else {
      ControlGrows(cfg, s, a);
    }
  }

  lemma UpdateGrows(s: System, id: JobId, status: Status, progress: int, result: JobResult)
    requires id in s.jobs && !Terminal(s.jobs[id].status)
    ensures Grows(s, Update(s, id, status, progress, result))
  {
    StoredGrows(s, id, Updated(s.jobs[id], status, progress, result), status, progress);
  }

  lemma NextGrows(cfg: Config, trace: seq<System>, n: nat)
    requires cfg.allow.Covers() && Execution(cfg, trace) && n + 1 < |trace|
    ensures Grows(trace[n], trace[n + 1])
  {
    var s := trace[n];
    CoreAt(cfg, trace, n);
    StoreAt(cfg, trace, n);
    assert Next(cfg, trace[n], trace[n + 1]);
    var a :| Enabled(s, a) && trace[n + 1] == Apply(cfg, s, a);
    StepGrows(cfg, s, a);
  }

  lemma {:induction false} ExecutionGrows(cfg: Config, trace: seq<System>, i: nat, j: nat)
    requires cfg.allow.Covers() && Execution(cfg, trace) && i <= j < |trace|
    ensures Grows(trace[i], trace[j])
    decreases j
  {
    if i < j {
      ExecutionGrows(cfg, trace, i, j - 1);
      NextGrows(cfg, trace, j - 1);
      GrowsTransitive(trace[i], trace[j - 1], trace[j]);
    }
  }

  lemma GrowsTransitive(s: System, t: System, u: System)
    requires Grows(s, t) && Grows(t, u)
    ensures Grows(s, u)
  {
    forall id | id in s.jobs && id in s.history
      ensures JobGrows(s, u, id)
    {
      assert JobGrows(s, t, id) && JobGrows(t, u, id);
    }
  }

  lemma JobAt(cfg: Config, trace: seq<System>, n: nat, id: JobId)
    requires cfg.allow.Covers() && Execution(cfg, trace) && n < |trace| && id in trace[n].jobs
    ensures id in trace[n].history && JobOk(id, trace[n].jobs[id], trace[n].history[id])
  {
    ExecutionKeepsInv(cfg, trace, n);
  }

  /** A job never disappears, and its history only grows. */
  lemma JobLater(cfg: Config, trace: seq<System>, n: nat, m: nat, id: JobId)
    requires cfg.allow.Covers() && Execution(cfg, trace) && n <= m < |trace| && id in trace[n].jobs
    ensures id in trace[n].history && JobGrows(trace[n], trace[m], id)
  {
    JobAt(cfg, trace, n, id);
    ExecutionGrows(cfg, trace, n, m);
  }

  lemma ProgressNeverDecreases(h: seq<Event>)
    requires Life(h)
    ensures forall i, j :: 0 <= i < j < |h| ==> h[i].progress <= h[j].progress
  {
  }

  // ---------- Theorems ----------

  /** Each client job ID has at most one job, its argv is launched at most once in
      the whole execution, restarts included, and what is launched is what was
      submitted under that ID: an allow-listed command line. */
  lemma ExecutedAtMostOnce(cfg: Config, trace: seq<System>, n: nat)
    requires cfg.allow.Covers() && Execution(cfg, trace) && n < |trace|
    ensures var s := trace[n];
            && ClientsUnique(s.jobs)
            && (forall i :: 0 <= i < |s.runs| ==>
                  && s.runs[i].id in s.jobs
                  && s.runs[i].request == s.jobs[s.runs[i].id].request
                  && 1 <= s.runs[i].request.timeoutSeconds <= 3600
                  && exists c :: BrokerArgv.WellFormed(cfg.allow, c)
                                 && BrokerArgv.Print(cfg.dispatcher, c) == s.runs[i].request.argv)
            && (forall i, j :: 0 <= i < j < |s.runs| ==>
                  s.jobs[s.runs[i].id].clientJobId != s.jobs[s.runs[j].id].clientJobId)
  {
    var s := trace[n];
    CoreAt(cfg, trace, n);
    IdentitiesAt(cfg, trace, n);
    forall i | 0 <= i < |s.runs|
      ensures s.runs[i].id in s.jobs && s.runs[i].request == s.jobs[s.runs[i].id].request
      ensures exists c :: BrokerArgv.WellFormed(cfg.allow, c)
                          && BrokerArgv.Print(cfg.dispatcher, c) == s.runs[i].request.argv
    {
      assert CanHaveRun(s, s.runs[i].id);
      BrokerArgv.AcceptedLanguage(cfg.allow, cfg.dispatcher, s.runs[i].request.argv);
    }
  }

  lemma CancelledNotInRuns(s: System, id: JobId)
    requires RunsOk(s) && id in s.jobs && s.jobs[id].status == Cancelled
    ensures forall i :: 0 <= i < |s.runs| ==> s.runs[i].id != id
  {
    forall i | 0 <= i < |s.runs|
      ensures s.runs[i].id != id
    {
      assert CanHaveRun(s, s.runs[i].id);
    }
  }

  /** A job that is CANCELLED at any point of the execution is launched at none. */
  lemma CancelledNeverExecuted(cfg: Config, trace: seq<System>, n: nat, m: nat, id: JobId)
    requires cfg.allow.Covers() && Execution(cfg, trace) && n < |trace| && m < |trace|
    requires id in trace[n].jobs && trace[n].jobs[id].status == Cancelled
    ensures forall i :: 0 <= i < |trace[m].runs| ==> trace[m].runs[i].id != id
  {
    if m <= n {
      CoreAt(cfg, trace, n);
      CancelledNotInRuns(trace[n], id);
      ExecutionGrows(cfg, trace, m, n);
      assert forall i :: 0 <= i < |trace[m].runs| ==> trace[m].runs[i] == trace[n].runs[i];
    } else {
      CoreAt(cfg, trace, m);
      JobLater(cfg, trace, n, m, id);
      CancelledNotInRuns(trace[m], id);
    }
  }

  /** Resubmitting a client job ID never creates or changes anything; with a
      different request it is rejected, with the same one it names the job. */
  lemma ReusedClientId(cfg: Config, trace: seq<System>, n: nat, a: Action, id: JobId)
    requires cfg.allow.Covers() && Execution(cfg, trace) && n < |trace|
    requires a.Submit? && Enabled(trace[n], a) && id in trace[n].jobs
    requires trace[n].jobs[id].clientJobId == a.client && Admissible(cfg, a.client, a.request)
    ensures Apply(cfg, trace[n], a) == trace[n]
    ensures SubmitAnswer(cfg, trace[n].jobs, a.client, a.request)
            == (if a.request == trace[n].jobs[id].request then Existing(id) else Conflict)
  {
    IdentitiesAt(cfg, trace, n);
  }

  /** Over its whole history a job's events read QUEUED+ RUNNING* and at most one
      terminal status, which is final; progress never decreases; the stored status
      is that of the last event. */
  lemma HistoryShape(cfg: Config, trace: seq<System>, n: nat, id: JobId)
    requires cfg.allow.Covers() && Execution(cfg, trace) && n < |trace| && id in trace[n].jobs
    ensures id in trace[n].history
    ensures var h := trace[n].history[id];
            && Life(h)
            && (forall i, j :: 0 <= i < j < |h| ==> h[i].progress <= h[j].progress)
            && trace[n].jobs[id].status == h[|h| - 1].status
    ensures ResultOk(trace[n].jobs[id])
    ensures forall m :: n <= m < |trace| && Terminal(trace[n].jobs[id].status) ==>
              id in trace[m].history && trace[m].history[id] == trace[n].history[id]
  {
    JobAt(cfg, trace, n, id);
    ProgressNeverDecreases(trace[n].history[id]);
    forall m | n <= m < |trace| && Terminal(trace[n].jobs[id].status)
      ensures id in trace[m].history && trace[m].history[id] == trace[n].history[id]
    {
      JobLater(cfg, trace, n, m, id);
    }
  }

  /** No lookup of the protocol ever misses: whoever is in the middle of an
      operation finds its job and its future, so the next step is available. */
  lemma LookupsNeverFail(cfg: Config, trace: seq<System>, n: nat)
    requires cfg.allow.Covers() && Execution(cfg, trace) && n < |trace|
    ensures var s := trace[n];
            && (s.control.CancelHolding? ==> Enabled(s, CancelTry))
            && (s.control.CancelWon? ==> Enabled(s, CancelRecord))
            && forall id :: id in s.tasks && s.tasks[id].future.Busy? ==>
                 match s.tasks[id].future.phase
                 case Starting => Enabled(s, WorkerAnnounce(id))
                 case Ran(_) => Enabled(s, WorkerReport(id))
                 case Raised => Enabled(s, WorkerReport(id))
                 case _ => id in s.jobs
  {
    CoreAt(cfg, trace, n);
  }

  /** A restart of a running broker drops no job, leaves finished jobs untouched and
      gives every unfinished one exactly one further event, FAILED. */
  lemma RestartPreserves(cfg: Config, trace: seq<System>, n: nat)
    requires cfg.allow.Covers() && Execution(cfg, trace) && n < |trace|
    ensures var s := trace[n];
            && Reload(s.disk).Keys == s.jobs.Keys == s.history.Keys
            && forall id :: id in s.jobs ==>
                 var job := Reload(s.disk)[id];
                 if Terminal(s.jobs[id].status) then job == s.jobs[id]
                 else job.status == Failed && LogOf(job, Logged(s.history[id], Failed, 100))
  {
    var s := trace[n];
    StoreAt(cfg, trace, n);
    ReloadKeepsKeys(s.disk);
    forall id | id in s.jobs && !Terminal(s.jobs[id].status)
      ensures Reload(s.disk)[id].status == Failed && LogOf(Reload(s.disk)[id], Logged(s.history[id], Failed, 100))
    {
      JobAt(cfg, trace, n, id);
      ReconcileKeepsJobOk(id, s.jobs[id], s.history[id]);
    }
  }

  /** What is made of any state file: records with their own ID, a known status and a
      non-negative offset are kept; finished ones as they are, the others FAILED by the
      restart with one event more. */
  lemma ReloadExactly(file: map<JobId, Job>, id: JobId)
    ensures id in Reload(file) <==>
              && id in file && file[id].brokerJobId == id && file[id].eventOffset >= 0
              && file[id].status in {Queued, Running, Succeeded, Failed, Cancelled}
    ensures id in Reload(file) ==>
              var was, job := file[id], Reload(file)[id];
              if was.status in {Succeeded, Failed, Cancelled} then job == was
              else
                && job.status == Failed && job.progress == 100 && job.result == JobResult(Failed, BrokerRestarted)
                && job.eventOffset == was.eventOffset + 1
                && job.events != [] && job.events[|job.events| - 1] == Event(was.eventOffset + 1, Failed, 100)
                && job.clientJobId == was.clientJobId && job.request == was.request && job.cancelRequested == was.cancelRequested
  {
  }

  /** Reconciling any state file twice is reconciling it once. */
  lemma RestartIdempotent(file: map<JobId, Job>)
    ensures Reload(Reload(file)) == Reload(file)
  {
    var once := Reload(file);
    forall id | id in once
      ensures Loadable(id, once[id]) && Reconciled(once[id]) == once[id]
    {
      assert Loadable(id, file[id]);
    }
  }

  /** The job maps a client sees when it polls at the given moments. */
  ghost function PollsAt(trace: seq<System>, moments: seq<nat>): seq<map<JobId, Job>>
    requires forall k :: 0 <= k < |moments| ==> moments[k] < |trace|
  {
    seq(|moments|, k requires 0 <= k < |moments| => trace[moments[k]].jobs)
  }

  /** A client polling a job at any moments of any execution, restarts included,
      collects its entire history in order as long as no reply signals a loss. */
  lemma PollingClientSeesHistory(cfg: Config, trace: seq<System>, id: JobId, moments: seq<nat>)
    requires cfg.allow.Covers() && Execution(cfg, trace) && |moments| > 0
    requires forall k :: 0 <= k < |moments| ==> moments[k] < |trace|
    requires forall k, l :: 0 <= k < l < |moments| ==> moments[k] <= moments[l]
    requires id in trace[moments[0]].jobs
    requires LosslessSession(PollsAt(trace, moments), id)
    ensures id in trace[moments[|moments| - 1]].history
    ensures Collect(PollsAt(trace, moments), id) == trace[moments[|moments| - 1]].history[id]
  {
    var histories := HistoriesAt(cfg, trace, id, moments);
    SessionReceivesHistory(PollsAt(trace, moments), id, histories);
  }

  /** The job's histories at the polled moments: each is logged, and they only grow. */
  lemma HistoriesAt(cfg: Config, trace: seq<System>, id: JobId, moments: seq<nat>) returns (histories: seq<seq<Event>>)
    requires cfg.allow.Covers() && Execution(cfg, trace) && |moments| > 0
    requires forall k :: 0 <= k < |moments| ==> moments[k] < |trace|
    requires forall k, l :: 0 <= k < l < |moments| ==> moments[k] <= moments[l]
    requires id in trace[moments[0]].jobs
    ensures |histories| == |moments|
    ensures forall k :: 0 <= k < |moments| ==>
              && id in trace[moments[k]].jobs && id in trace[moments[k]].history
              && histories[k] == trace[moments[k]].history[id] && LogOf(trace[moments[k]].jobs[id], histories[k])
    ensures forall k, l :: 0 <= k < l < |moments| ==> histories[k] <= histories[l]
  {
    forall k | 0 <= k < |moments|
      ensures id in trace[moments[k]].jobs && id in trace[moments[k]].history
      ensures LogOf(trace[moments[k]].jobs[id], trace[moments[k]].history[id])
    {
      JobLater(cfg, trace, moments[0], moments[k], id);
      JobAt(cfg, trace, moments[k], id);
    }
    histories := seq(|moments|, k requires 0 <= k < |moments| => trace[moments[k]].history[id]);
    forall k, l | 0 <= k < l < |moments|
      ensures histories[k] <= histories[l]
    {
      JobLater(cfg, trace, moments[k], moments[l], id);
    }
  }
}
