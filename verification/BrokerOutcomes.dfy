/** What a job's final status says about what happened to it, over every execution with
    its actions: which of them lead to which status, and what the runs record. */
module BrokerOutcomes {
  import opened BrokerJobs
  import opened BrokerProtocol
  import opened BrokerSafety
  import opened BrokerTheorems
  import BrokerArgv

  // ---------- Executions with their actions ----------

  ghost predicate Step(cfg: Config, s: System, a: Action, t: System)
    requires cfg.allow.Covers()
  {
    Enabled(s, a) && t == Apply(cfg, s, a)
  }

  /** `trace[i + 1]` follows from `trace[i]` by `acts[i]`. */
  ghost predicate Performs(cfg: Config, trace: seq<System>, acts: seq<Action>)
    requires cfg.allow.Covers()
  {
    && |trace| == |acts| + 1 && trace[0] == INITIAL
    && forall i {:trigger acts[i]} :: 0 <= i < |acts| ==> Step(cfg, trace[i], acts[i], trace[i + 1])
  }

  lemma PerformsIsExecution(cfg: Config, trace: seq<System>, acts: seq<Action>)
    requires cfg.allow.Covers() && Performs(cfg, trace, acts)
    ensures Execution(cfg, trace)
  {
    forall i | 0 <= i < |trace| - 1
      ensures Next(cfg, trace[i], trace[i + 1])
    {
      assert Step(cfg, trace[i], acts[i], trace[i + 1]);
    }
  }

  lemma ActOf(cfg: Config, s: System, t: System) returns (a: Action)
    requires cfg.allow.Covers() && Next(cfg, s, t)
    ensures Step(cfg, s, a, t)
  {
    a :| Enabled(s, a) && t == Apply(cfg, s, a);
  }

  /** Every execution has its actions. */
  lemma {:induction false} ExecutionPerforms(cfg: Config, trace: seq<System>) returns (acts: seq<Action>)
    requires cfg.allow.Covers() && Execution(cfg, trace)
    ensures Performs(cfg, trace, acts)
  {
    acts := [];
    while |acts| < |trace| - 1
      invariant |acts| <= |trace| - 1
      invariant forall i {:trigger acts[i]} :: 0 <= i < |acts| ==> Step(cfg, trace[i], acts[i], trace[i + 1])
    {
      var i := |acts|;
      assert Next(cfg, trace[i], trace[i + 1]);
      var a := ActOf(cfg, trace[i], trace[i + 1]);
      acts := acts + [a];
    }
  }

  // ---------- Every status has its cause ----------

  /** A job's final status and result are explained by actions of the past. */
  ghost predicate StatusCaused(past: set<Action>, id: JobId, job: Job) {
    match job.status
    case Succeeded =>
      job.result == JobResult(Succeeded, ActionCompleted) && {WorkerLaunch(id), WorkerReturn(id, true)} <= past
    case Failed =>
      || (job.result == JobResult(Failed, ActionCompleted) && {WorkerLaunch(id), WorkerReturn(id, false)} <= past)
      || (job.result == JobResult(Failed, BrokerInternalError) && WorkerRaise(id) in past)
      || (job.result == JobResult(Failed, BrokerRestarted) && Restart in past)
    case Cancelled => job.result == JobResult(Cancelled, CancelledBeforeDispatch) && Cancel(id) in past
    case _ => job.result == NoResult
  }

  /** What a worker holds in its hands is what its command did. */
  ghost predicate FutureCaused(past: set<Action>, id: JobId, future: Future) {
    future.Busy? ==>
      && (future.phase.Launched? || future.phase.Ran? ==> WorkerLaunch(id) in past)
      && (future.phase.Ran? ==> WorkerReturn(id, future.phase.ok) in past)
      && (future.phase.Raised? ==> WorkerRaise(id) in past)
  }

  ghost predicate ControlCaused(past: set<Action>, control: Control) {
    control.CancelAsked? || control.CancelHolding? || control.CancelWon? ==> Cancel(control.id) in past
  }

  ghost predicate JobsCaused(past: set<Action>, s: System) {
    forall id :: id in s.jobs ==> StatusCaused(past, id, s.jobs[id])
  }

  ghost predicate Caused(past: set<Action>, s: System) {
    && JobsCaused(past, s)
    && TasksCaused(past, s.tasks)
    && ControlCaused(past, s.control)
  }

  lemma StoredCaused(past: set<Action>, a: Action, s: System, id: JobId, job: Job, status: Status, progress: int)
    requires JobsCaused(past, s) && StatusCaused(past + {a}, id, job)
    ensures JobsCaused(past + {a}, Stored(s, id, job, status, progress))
  {
    forall j | j in s.jobs
      ensures StatusCaused(past + {a}, j, s.jobs[j])
    {
      assert StatusCaused(past, j, s.jobs[j]);
    }
  }

  lemma QuietCaused(cfg: Config, past: set<Action>, s: System, a: Action)
    requires cfg.allow.Covers() && Enabled(s, a) && !TouchesStore(a) && JobsCaused(past, s)
    ensures JobsCaused(past + {a}, Apply(cfg, s, a))
  {
    QuietStep(cfg, s, a);
    forall j | j in s.jobs
      ensures StatusCaused(past + {a}, j, s.jobs[j])
    {
      assert StatusCaused(past, j, s.jobs[j]);
    }
  }

  lemma WorkerCaused(cfg: Config, past: set<Action>, s: System, a: Action)
    requires cfg.allow.Covers() && Enabled(s, a) && TasksOk(s) && Caused(past, s) && (a.WorkerAnnounce? || a.WorkerReport?)
    ensures JobsCaused(past + {a}, Apply(cfg, s, a))
  {
    var id, t := a.id, Apply(cfg, s, a);
    assert Coupled(s, id) && StatusCaused(past, id, s.jobs[id]) && FutureCaused(past, id, s.tasks[id].future);
    assert StatusCaused(past + {a}, id, t.jobs[id]);
    StoredCaused(past, a, s, id, t.jobs[id], t.jobs[id].status, t.jobs[id].progress);
  }

  lemma ControlStepCaused(cfg: Config, past: set<Action>, s: System, a: Action)
    requires cfg.allow.Covers() && Enabled(s, a) && ControlOk(s) && Caused(past, s)
    requires a.Submit? || a.Cancel? || a.CancelRecord?
    ensures JobsCaused(past + {a}, Apply(cfg, s, a))
  {
    var t := Apply(cfg, s, a);
    if t.jobs == s.jobs {
      forall j | j in s.jobs
        ensures StatusCaused(past + {a}, j, s.jobs[j])
      {
        assert StatusCaused(past, j, s.jobs[j]);
      }
    } else {
      var id := if a.Submit? then a.newId else if a.Cancel? then a.id else s.control.id;
      assert id in s.jobs ==> StatusCaused(past, id, s.jobs[id]);
      assert StatusCaused(past + {a}, id, t.jobs[id]);
      StoredCaused(past, a, s, id, t.jobs[id], t.jobs[id].status, t.jobs[id].progress);
    }
  }

  lemma RestartCaused(cfg: Config, past: set<Action>, s: System)
    requires cfg.allow.Covers() && s.disk == s.jobs && JobsCaused(past, s)
    ensures JobsCaused(past + {Restart}, Apply(cfg, s, Restart))
  {
    forall j | j in s.jobs
      ensures StatusCaused(past + {Restart}, j, Reconciled(s.jobs[j])) || s.jobs[j].status.Unrecognised?
    {
      assert StatusCaused(past, j, s.jobs[j]);
    }
  }

  lemma StepJobsCaused(cfg: Config, past: set<Action>, s: System, a: Action)
    requires cfg.allow.Covers() && Enabled(s, a) && Core(s) && s.disk == s.jobs && Caused(past, s)
    ensures JobsCaused(past + {a}, Apply(cfg, s, a))
  {
    if !TouchesStore(a) {
      QuietCaused(cfg, past, s, a);
    } else if a.WorkerAnnounce? || a.WorkerReport? {
      WorkerCaused(cfg, past, s, a);
    } else if a.Restart? {
      RestartCaused(cfg, past, s);
    } else {
      ControlStepCaused(cfg, past, s, a);
    }
  }

  ghost predicate TasksCaused(past: set<Action>, tasks: map<JobId, Task>) {
    forall id :: id in tasks ==> FutureCaused(past, id, tasks[id].future)
  }

  lemma MovedCaused(past: set<Action>, a: Action, s: System, id: JobId, future: Future)
    requires TasksCaused(past, s.tasks) && id in s.tasks && FutureCaused(past + {a}, id, future)
    ensures TasksCaused(past + {a}, Moved(s, id, future))
  {
    forall j | j in s.tasks
      ensures FutureCaused(past + {a}, j, s.tasks[j].future)
    {
      assert FutureCaused(past, j, s.tasks[j].future);
    }
  }

  predicate OfWorker(a: Action) {
    a.WorkerTake? || a.WorkerAnnounce? || a.WorkerLaunch? || a.WorkerReturn? || a.WorkerRaise? || a.WorkerReport? || a.WorkerForget?
  }

  lemma WorkerTasksCaused(cfg: Config, past: set<Action>, s: System, a: Action)
    requires cfg.allow.Covers() && Enabled(s, a) && OfWorker(a) && TasksCaused(past, s.tasks)
    ensures TasksCaused(past + {a}, Apply(cfg, s, a).tasks)
  {
    var t := Apply(cfg, s, a);
    assert FutureCaused(past, a.id, s.tasks[a.id].future);
    MovedCaused(past, a, s, a.id, t.tasks[a.id].future);
    assert t.tasks == Moved(s, a.id, t.tasks[a.id].future);
  }

  lemma StepTasksCaused(cfg: Config, past: set<Action>, s: System, a: Action)
    requires cfg.allow.Covers() && Enabled(s, a) && TasksCaused(past, s.tasks)
    ensures TasksCaused(past + {a}, Apply(cfg, s, a).tasks)
  {
    if OfWorker(a) {
      WorkerTasksCaused(cfg, past, s, a);
    } else {
      forall id | id in Apply(cfg, s, a).tasks
        ensures FutureCaused(past + {a}, id, Apply(cfg, s, a).tasks[id].future)
      {
        assert id in s.tasks ==> FutureCaused(past, id, s.tasks[id].future);
      }
    }
  }

  lemma StepControlCaused(cfg: Config, past: set<Action>, s: System, a: Action)
    requires cfg.allow.Covers() && Enabled(s, a) && ControlCaused(past, s.control)
    ensures ControlCaused(past + {a}, Apply(cfg, s, a).control)
  {
  }

  ghost function Past(acts: seq<Action>, n: nat): set<Action>
    requires n <= |acts|
  {
    set i | 0 <= i < n :: acts[i]
  }

  lemma CausedNext(cfg: Config, trace: seq<System>, acts: seq<Action>, n: nat, past: set<Action>)
    requires cfg.allow.Covers() && Performs(cfg, trace, acts) && n < |acts| && Caused(past, trace[n])
    ensures Caused(past + {acts[n]}, trace[n + 1])
  {
    PerformsIsExecution(cfg, trace, acts);
    CoreAt(cfg, trace, n);
    StoreAt(cfg, trace, n);
    assert Step(cfg, trace[n], acts[n], trace[n + 1]);
    StepJobsCaused(cfg, past, trace[n], acts[n]);
    StepTasksCaused(cfg, past, trace[n], acts[n]);
    StepControlCaused(cfg, past, trace[n], acts[n]);
  }

  lemma {:induction false} CausedAt(cfg: Config, trace: seq<System>, acts: seq<Action>, n: nat)
    requires cfg.allow.Covers() && Performs(cfg, trace, acts) && n < |trace|
    ensures Caused(Past(acts, n), trace[n])
  {
    if n > 0 {
      CausedAt(cfg, trace, acts, n - 1);
      CausedNext(cfg, trace, acts, n - 1, Past(acts, n - 1));
      assert Past(acts, n) == Past(acts, n - 1) + {acts[n - 1]};
    }
  }

  /** Every status has its cause: SUCCEEDED comes only after the job's command was launched
      and returned zero, FAILED as a completed action only after it returned something
      else, as an internal error only after it raised, as a restart only after one, and
      CANCELLED only after a cancel request; until then there is no result. */
  lemma StatusHasCause(cfg: Config, trace: seq<System>, acts: seq<Action>, n: nat, id: JobId)
    requires cfg.allow.Covers() && Performs(cfg, trace, acts) && n < |trace| && id in trace[n].jobs
    ensures StatusCaused(Past(acts, n), id, trace[n].jobs[id])
  {
    CausedAt(cfg, trace, acts, n);
  }

  // ---------- What a returned command leads to ----------

  /** The status and code a worker records for what its command did. */
  predicate Verdict(phase: Phase, status: Status, code: Code) {
    || (phase == Ran(true) && status == Succeeded && code == ActionCompleted)
    || (phase == Ran(false) && status == Failed && code == ActionCompleted)
    || (phase == Raised && status == Failed && code == BrokerInternalError)
  }

  /** The worker is about to record what its command did, or has done so. */
  ghost predicate Settling(s: System, id: JobId, phase: Phase, status: Status, code: Code) {
    && id in s.jobs && id in s.tasks
    && (|| (s.tasks[id].future == Busy(phase) && s.jobs[id].status == Running)
        || (&& (s.tasks[id].future == Busy(Reported) || s.tasks[id].future == Done)
            && s.jobs[id].status == status && s.jobs[id].result == JobResult(status, code)))
  }

  /** The step reads or moves the record or the future of `id`. */
  ghost predicate Concerns(s: System, a: Action, id: JobId) {
    match a
    case Cancel(j) => j == id
    case Schedule => s.control.Created? && s.control.id == id
    case CancelTry => s.control.CancelHolding? && s.control.id == id
    case CancelRecord => s.control.CancelWon? && s.control.id == id
    case WorkerTake(j) => j == id
    case WorkerAnnounce(j) => j == id
    case WorkerLaunch(j) => j == id
    case WorkerReturn(j, _) => j == id
    case WorkerRaise(j) => j == id
    case WorkerReport(j) => j == id
    case WorkerForget(j) => j == id
    case Restart => true
    case _ => false
  }

  lemma ElsewhereKeepsJob(cfg: Config, s: System, a: Action, id: JobId)
    requires cfg.allow.Covers() && Enabled(s, a) && !Concerns(s, a, id) && id in s.jobs
    ensures id in Apply(cfg, s, a).jobs && Apply(cfg, s, a).jobs[id] == s.jobs[id]
  {
  }

  lemma ElsewhereKeepsTask(cfg: Config, s: System, a: Action, id: JobId)
    requires cfg.allow.Covers() && Enabled(s, a) && !Concerns(s, a, id)
    requires id in s.tasks && !s.tasks[id].future.Pending?
    ensures id in Apply(cfg, s, a).tasks && Apply(cfg, s, a).tasks[id] == s.tasks[id]
  {
  }

  lemma OwnSettling(cfg: Config, s: System, a: Action, id: JobId, phase: Phase, status: Status, code: Code)
    requires cfg.allow.Covers() && ControlOk(s) && Enabled(s, a) && !a.Restart? && Concerns(s, a, id)
    requires Verdict(phase, status, code) && Settling(s, id, phase, status, code)
    ensures Settling(Apply(cfg, s, a), id, phase, status, code)
  {
  }

  lemma SettlingNext(cfg: Config, trace: seq<System>, acts: seq<Action>, n: nat, id: JobId, phase: Phase, status: Status, code: Code)
    requires cfg.allow.Covers() && Performs(cfg, trace, acts) && n < |acts| && !acts[n].Restart?
    requires Verdict(phase, status, code) && Settling(trace[n], id, phase, status, code)
    ensures Settling(trace[n + 1], id, phase, status, code)
  {
    PerformsIsExecution(cfg, trace, acts);
    CoreAt(cfg, trace, n);
    assert Step(cfg, trace[n], acts[n], trace[n + 1]);
    if Concerns(trace[n], acts[n], id) {
      OwnSettling(cfg, trace[n], acts[n], id, phase, status, code);
    } else {
      ElsewhereKeepsJob(cfg, trace[n], acts[n], id);
      ElsewhereKeepsTask(cfg, trace[n], acts[n], id);
    }
  }

  lemma {:induction false} SettlingLater(cfg: Config, trace: seq<System>, acts: seq<Action>, i: nat, n: nat,
                                         id: JobId, phase: Phase, status: Status, code: Code)
    requires cfg.allow.Covers() && Performs(cfg, trace, acts) && i <= n < |trace|
    requires Verdict(phase, status, code) && Settling(trace[i], id, phase, status, code)
    requires forall j :: i <= j < n ==> !acts[j].Restart?
    ensures Settling(trace[n], id, phase, status, code)
    decreases n
  {
    if i < n {
      SettlingLater(cfg, trace, acts, i, n - 1, id, phase, status, code);
      SettlingNext(cfg, trace, acts, n - 1, id, phase, status, code);
    }
  }

  lemma SettlingStarts(cfg: Config, trace: seq<System>, acts: seq<Action>, i: nat, id: JobId, phase: Phase, status: Status, code: Code)
    requires cfg.allow.Covers() && Performs(cfg, trace, acts) && i < |acts| && Verdict(phase, status, code)
    requires phase.Raised? ==> acts[i] == WorkerRaise(id)
    requires phase.Ran? ==> acts[i] == WorkerReturn(id, phase.ok)
    ensures Settling(trace[i + 1], id, phase, status, code)
  {
    PerformsIsExecution(cfg, trace, acts);
    CoreAt(cfg, trace, i);
    assert Step(cfg, trace[i], acts[i], trace[i + 1]);
    assert Coupled(trace[i], id);
  }

  /** What the command did decides: once it has returned, and until a restart, the job
      either still waits for its worker's report or is SUCCEEDED exactly for a zero return
      and FAILED otherwise, with the matching result. */
  lemma ReturnDecides(cfg: Config, trace: seq<System>, acts: seq<Action>, i: nat, n: nat, id: JobId, ok: bool)
    requires cfg.allow.Covers() && Performs(cfg, trace, acts) && i < n < |trace| && acts[i] == WorkerReturn(id, ok)
    requires forall j :: i < j < n ==> !acts[j].Restart?
    ensures id in trace[n].jobs
    ensures var job := trace[n].jobs[id];
            || (job.status == Running && Enabled(trace[n], WorkerReport(id)))
            || (ok && job.status == Succeeded && job.result == JobResult(Succeeded, ActionCompleted))
            || (!ok && job.status == Failed && job.result == JobResult(Failed, ActionCompleted))
  {
    var status := if ok then Succeeded else Failed;
    SettlingStarts(cfg, trace, acts, i, id, Ran(ok), status, ActionCompleted);
    SettlingLater(cfg, trace, acts, i + 1, n, id, Ran(ok), status, ActionCompleted);
  }

  lemma RaiseDecides(cfg: Config, trace: seq<System>, acts: seq<Action>, i: nat, n: nat, id: JobId)
    requires cfg.allow.Covers() && Performs(cfg, trace, acts) && i < n < |trace| && acts[i] == WorkerRaise(id)
    requires forall j :: i < j < n ==> !acts[j].Restart?
    ensures id in trace[n].jobs
    ensures var job := trace[n].jobs[id];
            || (job.status == Running && Enabled(trace[n], WorkerReport(id)))
            || (job.status == Failed && job.result == JobResult(Failed, BrokerInternalError))
  {
    SettlingStarts(cfg, trace, acts, i, id, Raised, Failed, BrokerInternalError);
    SettlingLater(cfg, trace, acts, i + 1, n, id, Raised, Failed, BrokerInternalError);
  }

  // ---------- The step that finishes a job ----------

  ghost predicate FinishedBy(s: System, a: Action, id: JobId, job: Job) {
    match a
    case WorkerReport(j) => j == id && (job.status == Succeeded || job.status == Failed)
      && (job.result == JobResult(job.status, ActionCompleted) || job.result == JobResult(Failed, BrokerInternalError))
    case CancelRecord => s.control == CancelWon(id) && job.status == Cancelled
    case Restart => job.status == Failed && job.result == JobResult(Failed, BrokerRestarted)
    case _ => false
  }

  ghost predicate Unfinished(s: System, id: JobId) {
    id in s.jobs ==> s.jobs[id].status == Queued || s.jobs[id].status == Running || s.jobs[id].status.Unrecognised?
  }

  ghost predicate Finished(s: System, id: JobId) {
    id in s.jobs && (s.jobs[id].status == Succeeded || s.jobs[id].status == Failed || s.jobs[id].status == Cancelled)
  }

  lemma FinishingStep(cfg: Config, s: System, a: Action, id: JobId)
    requires cfg.allow.Covers() && Enabled(s, a) && s.disk == s.jobs && Unfinished(s, id) && Finished(Apply(cfg, s, a), id)
    requires id in s.jobs ==> s.jobs[id].result.NoResult?
    ensures FinishedBy(s, a, id, Apply(cfg, s, a).jobs[id])
  {
  }

  lemma FinishedHere(cfg: Config, trace: seq<System>, acts: seq<Action>, n: nat, id: JobId)
    requires cfg.allow.Covers() && Performs(cfg, trace, acts) && n < |acts|
    requires !Finished(trace[n], id) && Finished(trace[n + 1], id)
    ensures Unfinished(trace[n], id) && FinishedBy(trace[n], acts[n], id, trace[n + 1].jobs[id])
  {
    PerformsIsExecution(cfg, trace, acts);
    StoreAt(cfg, trace, n);
    StatusesHaveCauses(cfg, trace, acts, n, id);
    assert Step(cfg, trace[n], acts[n], trace[n + 1]);
    FinishingStep(cfg, trace[n], acts[n], id);
  }

  lemma StatusesHaveCauses(cfg: Config, trace: seq<System>, acts: seq<Action>, n: nat, id: JobId)
    requires cfg.allow.Covers() && Performs(cfg, trace, acts) && n < |trace|
    ensures id in trace[n].jobs ==> StatusCaused(Past(acts, n), id, trace[n].jobs[id])
  {
    if id in trace[n].jobs {
      StatusHasCause(cfg, trace, acts, n, id);
    }
  }

  /** A finished job never changes again. */
  lemma FinishedForever(cfg: Config, trace: seq<System>, n: nat, m: nat, id: JobId)
    requires cfg.allow.Covers() && Execution(cfg, trace) && n <= m < |trace| && Finished(trace[n], id)
    ensures id in trace[m].jobs && trace[m].jobs[id] == trace[n].jobs[id]
  {
    JobLater(cfg, trace, n, m, id);
  }

  lemma FinishedStays(cfg: Config, trace: seq<System>, acts: seq<Action>, n: nat, id: JobId)
    requires cfg.allow.Covers() && Performs(cfg, trace, acts) && n < |acts| && Finished(trace[n], id)
    ensures Finished(trace[n + 1], id) && trace[n + 1].jobs[id] == trace[n].jobs[id]
  {
    PerformsIsExecution(cfg, trace, acts);
    FinishedForever(cfg, trace, n, n + 1, id);
  }

  /** A finished job was finished by one step, of its worker, of its cancellation or of a
      restart, and has been as that step left it ever since. */
  lemma {:induction false} FinishedOnce(cfg: Config, trace: seq<System>, acts: seq<Action>, n: nat, id: JobId) returns (i: nat)
    requires cfg.allow.Covers() && Performs(cfg, trace, acts) && n < |trace| && Finished(trace[n], id)
    ensures i < n && Unfinished(trace[i], id) && Finished(trace[i + 1], id)
    ensures FinishedBy(trace[i], acts[i], id, trace[n].jobs[id]) && trace[i + 1].jobs[id] == trace[n].jobs[id]
  {
    if Finished(trace[n - 1], id) {
      FinishedStays(cfg, trace, acts, n - 1, id);
      i := FinishedOnce(cfg, trace, acts, n - 1, id);
    } else {
      i := n - 1;
      FinishedHere(cfg, trace, acts, i, id);
    }
  }

  // ---------- Launches ----------

  /** The IDs launched by the first `n` actions, in order. */
  ghost function Launches(acts: seq<Action>, n: nat): seq<JobId>
    requires n <= |acts|
  {
    if n == 0 then []
    else if acts[n - 1].WorkerLaunch? then Launches(acts, n - 1) + [acts[n - 1].id]
    else Launches(acts, n - 1)
  }

  ghost function Ids(runs: seq<Run>): seq<JobId> {
    seq(|runs|, i requires 0 <= i < |runs| => runs[i].id)
  }

  lemma StepRuns(cfg: Config, s: System, a: Action)
    requires cfg.allow.Covers() && Enabled(s, a)
    ensures Apply(cfg, s, a).runs ==
            if a.WorkerLaunch? then s.runs + [Run(a.id, s.tasks[a.id].request)] else s.runs
  {
  }

  /** The runs on record are the launches, one by one and in order. */
  lemma {:induction false} RunsAreLaunches(cfg: Config, trace: seq<System>, acts: seq<Action>, n: nat)
    requires cfg.allow.Covers() && Performs(cfg, trace, acts) && n < |trace|
    ensures Ids(trace[n].runs) == Launches(acts, n)
  {
    if n > 0 {
      RunsAreLaunches(cfg, trace, acts, n - 1);
      assert Step(cfg, trace[n - 1], acts[n - 1], trace[n - 1 + 1]);
      StepRuns(cfg, trace[n - 1], acts[n - 1]);
    }
  }

  // ---------- Submissions ----------

  /** A submission creates a job exactly if its argv is a printed well-formed command, its
      timeout lies in 1 to 3600 seconds, its client ID is bounded non-blank text without
      control characters, and no job has that client ID; the job is then queued under the
      new ID, on disk as in memory, and every other job is untouched. */
  lemma SubmitExactly(cfg: Config, s: System, client: ClientId, request: Request, newId: JobId)
    requires cfg.allow.Covers() && Enabled(s, Submit(client, request, newId))
    ensures var t := Apply(cfg, s, Submit(client, request, newId));
            var admissible :=
              && (exists c :: BrokerArgv.WellFormed(cfg.allow, c) && BrokerArgv.Print(cfg.dispatcher, c) == request.argv)
              && 1 <= request.timeoutSeconds <= 3600
              && |client| <= 160 && '\0' !in client && '\r' !in client && '\n' !in client
              && exists i :: 0 <= i < |client| && !Blank(client[i]);
            if admissible && forall id :: id in s.jobs ==> s.jobs[id].clientJobId != client
            then
              && SubmitAnswer(cfg, s.jobs, client, request) == Accepted
              && t.jobs == s.jobs[newId := t.jobs[newId]] && t.disk == t.jobs
              && t.jobs[newId] == Job(newId, client, request, Queued, 0, 1, [Event(1, Queued, 0)], 0, NoResult, false)
              && t.control == Created(newId, request) && t.tasks == s.tasks && t.runs == s.runs
            else t == s && SubmitAnswer(cfg, s.jobs, client, request) != Accepted
                 && (!admissible ==> SubmitAnswer(cfg, s.jobs, client, request) == Refused)
  {
    BrokerArgv.AcceptedLanguage(cfg.allow, cfg.dispatcher, request.argv);
  }

  // ---------- Undisturbed runs ----------

  /** A new job is handed to the executor and entered in the registry. */
  lemma SubmissionRuns(cfg: Config, s: System) returns (t: System, u: System)
    requires cfg.allow.Covers() && s.control.Created? && s.control.id in s.jobs
    ensures Step(cfg, s, Schedule, t) && Step(cfg, t, Register, u)
    ensures var id := s.control.id;
            && u.jobs == s.jobs && u.control == Idle && u.registry == s.registry + {id}
            && u.tasks == s.tasks[id := Task(s.control.request, Pending)]
  {
    t := Apply(cfg, s, Schedule);
    u := Apply(cfg, t, Register);
  }

  /** A pending future is taken, announced as RUNNING and launched. */
  lemma WorkerRuns(cfg: Config, s: System, id: JobId) returns (t: System, u: System, w: System)
    requires cfg.allow.Covers() && id in s.jobs && id in s.tasks && s.tasks[id].future == Pending
    ensures Step(cfg, s, WorkerTake(id), t) && Step(cfg, t, WorkerAnnounce(id), u) && Step(cfg, u, WorkerLaunch(id), w)
    ensures u.jobs[id].status == Running && u.jobs[id].progress == 10
    ensures w.runs == s.runs + [Run(id, s.tasks[id].request)] && w.jobs == u.jobs
    ensures id in w.tasks && w.tasks[id].future == Busy(Launched)
  {
    t := Apply(cfg, s, WorkerTake(id));
    u := Apply(cfg, t, WorkerAnnounce(id));
    w := Apply(cfg, u, WorkerLaunch(id));
  }

  /** A launched command returns, its worker reports and forgets it. */
  lemma WorkerReports(cfg: Config, s: System, id: JobId, ok: bool) returns (t: System, u: System, w: System)
    requires cfg.allow.Covers() && id in s.jobs && id in s.tasks && s.tasks[id].future == Busy(Launched)
    ensures Step(cfg, s, WorkerReturn(id, ok), t) && Step(cfg, t, WorkerReport(id), u) && Step(cfg, u, WorkerForget(id), w)
    ensures w.jobs[id].status == (if ok then Succeeded else Failed) && w.jobs[id].progress == 100
    ensures w.jobs[id].result == JobResult(w.jobs[id].status, ActionCompleted)
    ensures w.tasks[id].future == Done && id !in w.registry && w.disk == w.jobs
  {
    t := Apply(cfg, s, WorkerReturn(id, ok));
    u := Apply(cfg, t, WorkerReport(id));
    w := Apply(cfg, u, WorkerForget(id));
  }

  // ---------- Cancelling ----------

  /** Cancelling a queued job whose future nobody has taken withdraws it: the request is
      recorded, the future withdrawn and the job CANCELLED. */
  lemma CancelRuns(cfg: Config, s: System, id: JobId) returns (t: System, u: System, w: System)
    requires cfg.allow.Covers() && s.control.Idle? && id in s.jobs && s.jobs[id].status == Queued
    requires id in s.registry && id in s.tasks && s.tasks[id].future == Pending
    ensures Step(cfg, s, Cancel(id), t) && Step(cfg, t, CancelLookup, u) && Step(cfg, u, CancelTry, w)
    ensures w.control == CancelWon(id) && id in w.jobs && w.jobs[id].cancelRequested
    ensures id in w.tasks && w.tasks[id].future == Withdrawn && id in w.registry
  {
    t := Apply(cfg, s, Cancel(id));
    u := Apply(cfg, t, CancelLookup);
    w := Apply(cfg, u, CancelTry);
  }

  lemma CancelEnds(cfg: Config, s: System, id: JobId) returns (t: System, u: System)
    requires cfg.allow.Covers() && s.control == CancelWon(id) && id in s.jobs
    ensures Step(cfg, s, CancelRecord, t) && Step(cfg, t, CancelForget, u)
    ensures u.jobs[id].status == Cancelled && u.jobs[id].progress == 100
    ensures u.jobs[id].result == JobResult(Cancelled, CancelledBeforeDispatch)
    ensures u.control == Idle && id !in u.registry && u.runs == s.runs && u.disk == u.jobs
  {
    t := Apply(cfg, s, CancelRecord);
    u := Apply(cfg, t, CancelForget);
  }

  /** A cancellation that has withdrawn the future is on its way to CANCELLED. */
  ghost predicate Withdrawing(s: System, id: JobId) {
    id in s.jobs && (s.control == CancelWon(id) || s.jobs[id].status == Cancelled)
  }

  lemma WonStep(cfg: Config, s: System, a: Action, id: JobId)
    requires cfg.allow.Covers() && Enabled(s, a) && !a.Restart? && id in s.jobs && s.control == CancelWon(id)
    ensures Withdrawing(Apply(cfg, s, a), id)
  {
  }

  lemma WithdrawingNext(cfg: Config, trace: seq<System>, acts: seq<Action>, n: nat, id: JobId)
    requires cfg.allow.Covers() && Performs(cfg, trace, acts) && n < |acts| && !acts[n].Restart? && Withdrawing(trace[n], id)
    ensures Withdrawing(trace[n + 1], id)
  {
    if trace[n].control == CancelWon(id) {
      assert Step(cfg, trace[n], acts[n], trace[n + 1]);
      WonStep(cfg, trace[n], acts[n], id);
    } else {
      PerformsIsExecution(cfg, trace, acts);
      FinishedForever(cfg, trace, n, n + 1, id);
    }
  }

  lemma WithdrawingStarts(cfg: Config, trace: seq<System>, acts: seq<Action>, i: nat, id: JobId)
    requires cfg.allow.Covers() && Performs(cfg, trace, acts) && i < |acts| && acts[i] == CancelTry
    requires trace[i].control == CancelHolding(id) && id in trace[i].tasks && trace[i].tasks[id].future == Pending
    ensures Withdrawing(trace[i + 1], id)
  {
    PerformsIsExecution(cfg, trace, acts);
    CoreAt(cfg, trace, i);
    assert Step(cfg, trace[i], acts[i], trace[i + 1]);
  }

  /** Whatever the workers do meanwhile, a withdrawn job is CANCELLED unless the process
      restarts before that is recorded. */
  lemma {:induction false} CancelWins(cfg: Config, trace: seq<System>, acts: seq<Action>, i: nat, n: nat, id: JobId)
    requires cfg.allow.Covers() && Performs(cfg, trace, acts) && i < n < |trace| && acts[i] == CancelTry
    requires trace[i].control == CancelHolding(id) && id in trace[i].tasks && trace[i].tasks[id].future == Pending
    requires forall j :: i < j < n ==> !acts[j].Restart?
    ensures Withdrawing(trace[n], id)
    decreases n
  {
    if i < n - 1 {
      CancelWins(cfg, trace, acts, i, n - 1, id);
      WithdrawingNext(cfg, trace, acts, n - 1, id);
    } else {
      WithdrawingStarts(cfg, trace, acts, i, id);
    }
  }

  // ---------- Shutting down ----------

  ghost predicate NothingPending(s: System) {
    s.control.Stopped? ==> forall id :: id in s.tasks ==> s.tasks[id].future != Pending
  }

  lemma StepKeepsNothingPending(cfg: Config, s: System, a: Action)
    requires cfg.allow.Covers() && Enabled(s, a) && NothingPending(s)
    ensures NothingPending(Apply(cfg, s, a))
  {
  }

  /** A broker that is shutting down starts no further job. */
  lemma {:induction false} StoppedStartsNothing(cfg: Config, trace: seq<System>, n: nat, id: JobId)
    requires cfg.allow.Covers() && Execution(cfg, trace) && n < |trace| && trace[n].control.Stopped?
    ensures !Enabled(trace[n], WorkerTake(id))
  {
    NothingPendingAt(cfg, trace, n);
  }

  lemma {:induction false} NothingPendingAt(cfg: Config, trace: seq<System>, n: nat)
    requires cfg.allow.Covers() && Execution(cfg, trace) && n < |trace|
    ensures NothingPending(trace[n])
  {
    if n > 0 {
      NothingPendingAt(cfg, trace, n - 1);
      assert Next(cfg, trace[n - 1], trace[n - 1 + 1]);
      var a :| Enabled(trace[n - 1], a) && trace[n] == Apply(cfg, trace[n - 1], a);
      StepKeepsNothingPending(cfg, trace[n - 1], a);
    }
  }
}
