/** Safety of the broker over every execution.

    `update` writes whatever status it is told, so nothing in the store keeps a
    finished job finished.  What does is the coupling between a job's status, its
    future and the control thread, stated as `Inv` and kept by every step. */
module BrokerSafety {
  import opened BrokerJobs
  import opened BrokerProtocol
  import BrokerArgv

  // ---------- The life of one job ----------

  function Level(s: Status): nat {
    match s
    case Queued => 0
    case Running => 1
    case _ => 2
  }

  function ProgressOf(s: Status): int {
    match s
    case Queued => 0
    case Running => 10
    case _ => 100
  }

  /** QUEUED+, then RUNNING*, then at most one terminal event, which is the last. */
  ghost predicate Life(h: seq<Event>) {
    && |h| > 0
    && h[0].status == Queued
    && (forall i :: 0 <= i < |h| ==> !h[i].status.Unrecognised? && h[i].progress == ProgressOf(h[i].status))
    && (forall i, j :: 0 <= i < j < |h| ==> !Terminal(h[i].status) && Level(h[i].status) <= Level(h[j].status))
  }

  ghost predicate ResultOk(job: Job) {
    if Terminal(job.status) then
      && job.result.JobResult?
      && job.result.status == job.status
      && (job.status == Cancelled <==> job.result.code == CancelledBeforeDispatch)
      && (job.status == Cancelled ==> job.cancelRequested)
    else job.result.NoResult?
  }

  ghost predicate JobOk(id: JobId, job: Job, h: seq<Event>) {
    && job.brokerJobId == id
    && LogOf(job, h)
    && Life(h)
    && job.status == h[|h| - 1].status
    && job.progress == h[|h| - 1].progress
    && ResultOk(job)
  }

  // ---------- The invariant ----------

  ghost predicate JobsOk(s: System) {
    && s.disk == s.jobs
    && s.history.Keys == s.jobs.Keys
    && forall id {:trigger JobOk(id, s.jobs[id], s.history[id])} ::
         id in s.jobs ==> JobOk(id, s.jobs[id], s.history[id])
  }

  ghost predicate ClientsUnique(jobs: map<JobId, Job>) {
    forall i, j :: i in jobs && j in jobs && jobs[i].clientJobId == jobs[j].clientJobId ==> i == j
  }

  ghost predicate RequestsOk(cfg: Config, s: System)
    requires cfg.allow.Covers()
  {
    forall id :: id in s.jobs ==> Admissible(cfg, s.jobs[id].clientJobId, s.jobs[id].request)
  }

  /** How a job's status, its future and the control thread go together. */
  ghost predicate Coupled(s: System, id: JobId)
    requires id in s.jobs
  {
    var st := s.jobs[id].status;
    if id in s.tasks then
      && s.tasks[id].request == s.jobs[id].request
      && match s.tasks[id].future
         case Pending => st == Queued
         case Withdrawn => st == Cancelled || (st == Queued && (s.control == CancelWon(id) || s.control.Stopped?))
         case Busy(Starting) => st == Queued
         case Busy(Reported) => st == Succeeded || st == Failed
         case Busy(_) => st == Running
         case Done => st == Succeeded || st == Failed
    else
      Terminal(st) || (st == Queued && s.control == Created(id, s.jobs[id].request))
  }

  ghost predicate TasksOk(s: System) {
    && s.tasks.Keys <= s.jobs.Keys
    && s.registry <= s.tasks.Keys
    && forall id :: id in s.jobs ==> Coupled(s, id)
  }

  ghost predicate ControlOk(s: System) {
    match s.control
    case Idle => true
    case Created(id, request) =>
      id in s.jobs && id !in s.tasks && s.jobs[id].status == Queued && s.jobs[id].request == request
    case Scheduled(id) => id in s.tasks
    case CancelAsked(id, seen) =>
      id in s.jobs && (seen == Queued ==> s.jobs[id].status != Cancelled && s.jobs[id].cancelRequested)
    case CancelHolding(id) =>
      id in s.jobs && id in s.tasks && s.jobs[id].status != Cancelled && s.jobs[id].cancelRequested
    case CancelWon(id) =>
      id in s.jobs && id in s.tasks && s.tasks[id].future == Withdrawn && s.jobs[id].status == Queued
      && s.jobs[id].cancelRequested
    case CancelRecorded(id) => id in s.jobs
    case Stopped => true
  }

  /** The only situations in which a job's argv can have been launched. */
  ghost predicate CanHaveRun(s: System, id: JobId) {
    && id in s.jobs
    && (s.jobs[id].status == Succeeded || s.jobs[id].status == Failed
        || (s.jobs[id].status == Running && id in s.tasks && s.tasks[id].future != Busy(Announced)))
  }

  ghost predicate RunsOk(s: System) {
    && (forall i :: 0 <= i < |s.runs| ==>
          CanHaveRun(s, s.runs[i].id) && s.runs[i].request == s.jobs[s.runs[i].id].request)
    && (forall i, j :: 0 <= i < j < |s.runs| ==> s.runs[i].id != s.runs[j].id)
  }

  /** The part of the invariant that speaks of statuses, futures and control only. */
  ghost predicate Core(s: System) {
    TasksOk(s) && ControlOk(s) && RunsOk(s)
  }

  ghost predicate Inv(cfg: Config, s: System)
    requires cfg.allow.Covers()
  {
    JobsOk(s) && ClientsUnique(s.jobs) && RequestsOk(cfg, s) && Core(s)
  }

  // ---------- One event more ----------

  lemma LifeExtends(h: seq<Event>, status: Status)
    requires Life(h) && !Terminal(h[|h| - 1].status) && !status.Unrecognised?
    requires Level(h[|h| - 1].status) <= Level(status)
    ensures Life(Logged(h, status, ProgressOf(status)))
  {
    var longer := Logged(h, status, ProgressOf(status));
    forall i, j | 0 <= i < j < |longer|
      ensures !Terminal(longer[i].status) && Level(longer[i].status) <= Level(longer[j].status)
    {
      if j == |h| && i < |h| - 1 {
        assert Level(h[i].status) <= Level(h[|h| - 1].status);
      }
    }
  }

  lemma UpdateKeepsJobOk(id: JobId, job: Job, h: seq<Event>, status: Status, result: JobResult)
    requires JobOk(id, job, h) && !Terminal(job.status) && !status.Unrecognised?
    requires Level(job.status) <= Level(status)
    requires ResultOk(job.(status := status, result := result))
    ensures JobOk(id, Updated(job, status, ProgressOf(status), result), Logged(h, status, ProgressOf(status)))
  {
    AppendKeepsLog(job, h, status, ProgressOf(status));
    LifeExtends(h, status);
  }

  lemma CancelKeepsJobOk(id: JobId, job: Job, h: seq<Event>)
    requires JobOk(id, job, h) && !Terminal(job.status)
    ensures JobOk(id, CancelMarked(job), Logged(h, job.status, job.progress))
  {
    AppendKeepsLog(job.(cancelRequested := true), h, job.status, job.progress);
    LifeExtends(h, job.status);
  }

  lemma ReconcileKeepsJobOk(id: JobId, job: Job, h: seq<Event>)
    requires JobOk(id, job, h) && !Terminal(job.status)
    ensures JobOk(id, Reconciled(job), Logged(h, Failed, 100))
  {
    AppendKeepsLog(job, h, Failed, 100);
    LifeExtends(h, Failed);
  }

  lemma FirstEventLife()
    ensures Logged([], Queued, 0) == [Event(1, Queued, 0)]
    ensures Life(Logged([], Queued, 0))
  {
    var h := Logged([], Queued, 0);
    assert h == [Event(1, Queued, 0)];
  }

  lemma NewJobLog(id: JobId, client: ClientId, request: Request)
    ensures LogOf(NewJob(id, client, request), Logged([], Queued, 0))
  {
    var blank := Job(id, client, request, Queued, 0, 0, [], 0, NoResult, false);
    AppendKeepsLog(blank, [], Queued, 0);
  }

  lemma NewJobFields(id: JobId, client: ClientId, request: Request)
    ensures var job := NewJob(id, client, request);
            && job.brokerJobId == id && job.clientJobId == client && job.request == request
            && job.status == Queued && job.progress == 0 && job.result.NoResult?
  {
  }

  lemma NewJobOk(id: JobId, client: ClientId, request: Request)
    ensures JobOk(id, NewJob(id, client, request), Logged([], Queued, 0))
  {
    NewJobLog(id, client, request);
    NewJobFields(id, client, request);
    FirstEventLife();
  }

  // ---------- Steps keep the logs and lives ----------

  lemma StoredKeepsJobs(s: System, id: JobId, job: Job, status: Status, progress: int)
    requires JobsOk(s)
    requires JobOk(id, job, Logged(if id in s.history then s.history[id] else [], status, progress))
    ensures JobsOk(Stored(s, id, job, status, progress))
  {
  }

  lemma UpdateKeepsJobs(s: System, id: JobId, status: Status, result: JobResult)
    requires JobsOk(s) && id in s.jobs && !Terminal(s.jobs[id].status) && !status.Unrecognised?
    requires Level(s.jobs[id].status) <= Level(status)
    requires ResultOk(s.jobs[id].(status := status, result := result))
    ensures JobsOk(Update(s, id, status, ProgressOf(status), result))
  {
    UpdateKeepsJobOk(id, s.jobs[id], s.history[id], status, result);
    StoredKeepsJobs(s, id, Updated(s.jobs[id], status, ProgressOf(status), result), status, ProgressOf(status));
  }

  lemma RestartKeepsJob(s: System, id: JobId)
    requires s.disk == s.jobs && id in s.jobs && id in s.history && JobOk(id, s.jobs[id], s.history[id])
    ensures id in Reload(s.disk) && id in ReloadHistory(s.disk, s.history)
    ensures JobOk(id, Reload(s.disk)[id], ReloadHistory(s.disk, s.history)[id])
  {
    assert Loadable(id, s.jobs[id]);
    if !Terminal(s.jobs[id].status) {
      ReconcileKeepsJobOk(id, s.jobs[id], s.history[id]);
    }
  }

  lemma ReloadKeepsKeys(file: map<JobId, Job>)
    requires forall id :: id in file ==> Loadable(id, file[id])
    ensures Reload(file).Keys == file.Keys
  {
  }

  lemma RestartKeepsJobs(s: System, t: System)
    requires JobsOk(s)
    requires t.jobs == t.disk == Reload(s.disk) && t.history == ReloadHistory(s.disk, s.history)
    ensures JobsOk(t)
  {
    JobsAreLoadable(s);
    ReloadKeepsKeys(s.disk);
    assert t.history.Keys == s.history.Keys;
    forall id | id in t.jobs
      ensures JobOk(id, t.jobs[id], t.history[id])
    {
      RestartKeepsJob(s, id);
    }
  }

  lemma CancelKeepsJobs(s: System, id: JobId)
    requires JobsOk(s) && id in s.jobs && !Terminal(s.jobs[id].status)
    ensures JobsOk(Stored(s, id, CancelMarked(s.jobs[id]), s.jobs[id].status, s.jobs[id].progress))
  {
    CancelKeepsJobOk(id, s.jobs[id], s.history[id]);
    StoredKeepsJobs(s, id, CancelMarked(s.jobs[id]), s.jobs[id].status, s.jobs[id].progress);
  }

  lemma SubmitKeepsJobs(s: System, id: JobId, client: ClientId, request: Request)
    requires JobsOk(s) && id !in s.jobs
    ensures JobsOk(Stored(s, id, NewJob(id, client, request), Queued, 0))
  {
    NewJobOk(id, client, request);
    StoredKeepsJobs(s, id, NewJob(id, client, request), Queued, 0);
  }

  /** `JobsOk` only looks at the stored maps. */
  lemma JobsOkDependsOnStore(s: System, t: System)
    requires JobsOk(s) && t.jobs == s.jobs && t.disk == s.disk && t.history == s.history
    ensures JobsOk(t)
  {
  }

  lemma AnnounceKeepsJobs(cfg: Config, s: System, a: Action)
    requires cfg.allow.Covers() && JobsOk(s) && TasksOk(s) && Enabled(s, a) && a.WorkerAnnounce?
    ensures JobsOk(Apply(cfg, s, a))
  {
    var id := a.id;
    assert Coupled(s, id) && JobOk(id, s.jobs[id], s.history[id]);
    UpdateKeepsJobs(s, id, Running, NoResult);
    JobsOkDependsOnStore(Update(s, id, Running, 10, NoResult), Apply(cfg, s, a));
  }

  lemma ReportKeepsJobs(cfg: Config, s: System, a: Action)
    requires cfg.allow.Covers() && JobsOk(s) && TasksOk(s) && Enabled(s, a) && a.WorkerReport?
    ensures JobsOk(Apply(cfg, s, a))
  {
    var id := a.id;
    assert Coupled(s, id) && JobOk(id, s.jobs[id], s.history[id]);
    var status := if s.tasks[id].future.phase == Ran(true) then Succeeded else Failed;
    var code := if s.tasks[id].future.phase.Raised? then BrokerInternalError else ActionCompleted;
    UpdateKeepsJobs(s, id, status, JobResult(status, code));
    JobsOkDependsOnStore(Update(s, id, status, 100, JobResult(status, code)), Apply(cfg, s, a));
  }

  lemma ControlKeepsJobs(cfg: Config, s: System, a: Action)
    requires cfg.allow.Covers() && JobsOk(s) && ControlOk(s) && Enabled(s, a)
    requires a.Submit? || a.Cancel? || a.CancelRecord?
    ensures JobsOk(Apply(cfg, s, a))
  {
    match a
    case Submit(client, request, newId) =>
      SubmitKeepsJobs(s, newId, client, request);
    case Cancel(id) =>
      if id in s.jobs && !Terminal(s.jobs[id].status) {
        CancelKeepsJobs(s, id);
      }
    case CancelRecord =>
      UpdateKeepsJobs(s, s.control.id, Cancelled, JobResult(Cancelled, CancelledBeforeDispatch));
  }

  predicate TouchesStore(a: Action) {
    a.Submit? || a.Cancel? || a.CancelRecord? || a.WorkerAnnounce? || a.WorkerReport? || a.Restart?
  }

  lemma QuietStep(cfg: Config, s: System, a: Action)
    requires cfg.allow.Covers() && Enabled(s, a) && !TouchesStore(a)
    ensures var t := Apply(cfg, s, a);
            t.jobs == s.jobs && t.disk == s.disk && t.history == s.history
  {
  }

  lemma QuietKeepsJobs(cfg: Config, s: System, a: Action)
    requires cfg.allow.Covers() && JobsOk(s) && Enabled(s, a) && !TouchesStore(a)
    ensures JobsOk(Apply(cfg, s, a))
  {
    QuietStep(cfg, s, a);
    JobsOkDependsOnStore(s, Apply(cfg, s, a));
  }

  lemma StepKeepsJobs(cfg: Config, s: System, a: Action)
    requires cfg.allow.Covers() && JobsOk(s) && TasksOk(s) && ControlOk(s) && Enabled(s, a)
    ensures JobsOk(Apply(cfg, s, a))
  {
    if !TouchesStore(a) {
      QuietKeepsJobs(cfg, s, a);
    } else if a.WorkerAnnounce? {
      AnnounceKeepsJobs(cfg, s, a);
    } else if a.WorkerReport? {
      ReportKeepsJobs(cfg, s, a);
    } else if a.Restart? {
      RestartKeepsJobs(s, Apply(cfg, s, a));
    } else {
      ControlKeepsJobs(cfg, s, a);
    }
  }

  // ---------- Steps keep the coupling ----------

  /** `t.jobs` is `s.jobs` up to log fields, except that `id` may have moved to `status`. */
  ghost predicate OnlyStatus(s: System, t: System, id: JobId, status: Status)
    requires id in s.jobs
  {
    && t.jobs.Keys == s.jobs.Keys
    && t.jobs[id].status == status
    && t.jobs[id].request == s.jobs[id].request
    && t.jobs[id].clientJobId == s.jobs[id].clientJobId
    && (s.jobs[id].cancelRequested ==> t.jobs[id].cancelRequested)
    && forall j :: j in s.jobs && j != id ==> t.jobs[j] == s.jobs[j]
  }

  lemma UpdateMovesStatus(s: System, id: JobId, status: Status, progress: int, result: JobResult)
    requires id in s.jobs
    ensures OnlyStatus(s, Update(s, id, status, progress, result), id, status)
  {
  }

  lemma CancelMovesNoStatus(s: System, id: JobId)
    requires id in s.jobs
    ensures OnlyStatus(s, Stored(s, id, CancelMarked(s.jobs[id]), s.jobs[id].status, s.jobs[id].progress),
                       id, s.jobs[id].status)
    ensures CancelMarked(s.jobs[id]).cancelRequested
  {
  }

  lemma SubmitKeepsCore(s: System, t: System, id: JobId, job: Job)
    requires Core(s) && s.control.Idle? && id !in s.jobs && job.status == Queued
    requires t.jobs == s.jobs[id := job] && t.tasks == s.tasks && t.registry == s.registry && t.runs == s.runs
    requires t.control == Created(id, job.request)
    ensures Core(t)
  {
    forall j | j in t.jobs
      ensures Coupled(t, j)
    {
      if j != id {
        assert Coupled(s, j);
      }
    }
    forall i | 0 <= i < |s.runs|
      ensures CanHaveRun(t, t.runs[i].id) && t.runs[i].request == t.jobs[t.runs[i].id].request
    {
      assert CanHaveRun(s, s.runs[i].id);
    }
  }

  /** Any step that touches one job's future and status, and the control thread. */
  lemma MoveKeepsCore(s: System, t: System, id: JobId)
    requires Core(s) && id in s.jobs && id in t.jobs && OnlyStatus(s, t, id, t.jobs[id].status)
    requires t.tasks.Keys <= s.tasks.Keys + {id} && s.tasks.Keys <= t.tasks.Keys
    requires forall j :: j in s.tasks && j != id ==> t.tasks[j] == s.tasks[j]
    requires t.registry <= s.registry + {id} && (id in t.registry ==> id in t.tasks)
    requires Coupled(t, id) && ControlOk(t)
    requires t.control == s.control || (!s.control.Stopped? && (s.control.Created? || s.control.CancelWon? ==> s.control.id == id))
    requires t.runs == s.runs || (t.runs == s.runs + [Run(id, s.jobs[id].request)] && !CanHaveRun(s, id) && CanHaveRun(t, id))
    requires CanHaveRun(s, id) ==> CanHaveRun(t, id)
    ensures Core(t)
  {
    forall j | j in t.jobs
      ensures Coupled(t, j)
    {
      assert Coupled(s, j);
    }
    forall i | 0 <= i < |t.runs|
      ensures CanHaveRun(t, t.runs[i].id) && t.runs[i].request == t.jobs[t.runs[i].id].request
    {
      if i < |s.runs| {
        assert CanHaveRun(s, s.runs[i].id);
      }
    }
    forall i, j | 0 <= i < j < |t.runs|
      ensures t.runs[i].id != t.runs[j].id
    {
      assert CanHaveRun(s, s.runs[i].id);
    }
  }

  lemma SubmitStepKeepsCore(cfg: Config, s: System, a: Action)
    requires cfg.allow.Covers() && Core(s) && Enabled(s, a) && (a.Schedule? || a.Register?)
    ensures Core(Apply(cfg, s, a))
  {
    assert Coupled(s, s.control.id);
    MoveKeepsCore(s, Apply(cfg, s, a), s.control.id);
  }

  lemma CancelStepKeepsCore(cfg: Config, s: System, a: Action)
    requires cfg.allow.Covers() && Core(s) && Enabled(s, a) && (a.CancelLookup? || a.CancelForget?)
    ensures Core(Apply(cfg, s, a))
  {
    assert Coupled(s, s.control.id);
    MoveKeepsCore(s, Apply(cfg, s, a), s.control.id);
  }

  lemma CancelTryKeepsCore(cfg: Config, s: System, a: Action)
    requires cfg.allow.Covers() && Core(s) && Enabled(s, a) && a.CancelTry?
    ensures Core(Apply(cfg, s, a))
  {
    assert Coupled(s, s.control.id);
    MoveKeepsCore(s, Apply(cfg, s, a), s.control.id);
  }

  lemma CancelRecordKeepsCore(cfg: Config, s: System, a: Action)
    requires cfg.allow.Covers() && Core(s) && Enabled(s, a) && a.CancelRecord?
    ensures Core(Apply(cfg, s, a))
  {
    var id := s.control.id;
    assert Coupled(s, id);
    UpdateMovesStatus(s, id, Cancelled, 100, JobResult(Cancelled, CancelledBeforeDispatch));
    MoveKeepsCore(s, Apply(cfg, s, a), id);
  }

  lemma CancelKeepsCore(cfg: Config, s: System, a: Action)
    requires cfg.allow.Covers() && Core(s) && Enabled(s, a) && a.Cancel?
    ensures Core(Apply(cfg, s, a))
  {
    var t := Apply(cfg, s, a);
    if a.id in s.jobs {
      assert Coupled(s, a.id);
      CancelMovesNoStatus(s, a.id);
      MoveKeepsCore(s, t, a.id);
    }
  }

  /** A worker moving its own future along, without a store operation. */
  lemma FutureMoveKeepsCore(s: System, id: JobId, future: Future, registry: set<JobId>)
    requires Core(s) && id in s.tasks && registry <= s.registry
    requires s.tasks[id].future != Withdrawn && future != Withdrawn
    requires Coupled(s.(tasks := Moved(s, id, future)), id)
    requires CanHaveRun(s, id) ==> future != Busy(Announced)
    ensures Core(s.(tasks := Moved(s, id, future), registry := registry))
  {
    var t := s.(tasks := Moved(s, id, future), registry := registry);
    MoveKeepsCore(s, t, id);
  }

  lemma WorkerMoveKeepsCore(cfg: Config, s: System, a: Action)
    requires cfg.allow.Covers() && Core(s) && Enabled(s, a)
    requires a.WorkerTake? || a.WorkerReturn? || a.WorkerRaise? || a.WorkerForget?
    ensures Core(Apply(cfg, s, a))
  {
    assert Coupled(s, a.id);
    if a.WorkerTake? {
      FutureMoveKeepsCore(s, a.id, Busy(Starting), s.registry);
    } else if a.WorkerReturn? {
      FutureMoveKeepsCore(s, a.id, Busy(Ran(a.ok)), s.registry);
    } else if a.WorkerRaise? {
      FutureMoveKeepsCore(s, a.id, Busy(Raised), s.registry);
    } else {
      FutureMoveKeepsCore(s, a.id, Done, s.registry - {a.id});
    }
  }

  lemma WorkerLaunchKeepsCore(cfg: Config, s: System, a: Action)
    requires cfg.allow.Covers() && Core(s) && Enabled(s, a) && a.WorkerLaunch?
    ensures Core(Apply(cfg, s, a))
  {
    assert Coupled(s, a.id);
    MoveKeepsCore(s, Apply(cfg, s, a), a.id);
  }

  /** A worker recording a status together with the move of its future. */
  lemma RecordKeepsCore(s: System, t: System, id: JobId, phase: Phase, status: Status)
    requires Core(s) && id in s.tasks && OnlyStatus(s, t, id, status)
    requires s.tasks[id].future.Busy? && t.tasks == Moved(s, id, Busy(phase))
    requires t.registry == s.registry && t.control == s.control && t.runs == s.runs
    requires Coupled(t, id) && (CanHaveRun(s, id) ==> CanHaveRun(t, id))
    requires status != Cancelled && s.control != CancelWon(id)
    ensures Core(t)
  {
    MoveKeepsCore(s, t, id);
  }

  lemma WorkerReportKeepsCore(cfg: Config, s: System, a: Action)
    requires cfg.allow.Covers() && Core(s) && Enabled(s, a) && (a.WorkerAnnounce? || a.WorkerReport?)
    ensures Core(Apply(cfg, s, a))
  {
    var id := a.id;
    assert Coupled(s, id);
    if a.WorkerAnnounce? {
      UpdateMovesStatus(s, id, Running, 10, NoResult);
      RecordKeepsCore(s, Apply(cfg, s, a), id, Announced, Running);
    } else {
      var status := if s.tasks[id].future.phase == Ran(true) then Succeeded else Failed;
      var code := if s.tasks[id].future.phase.Raised? then BrokerInternalError else ActionCompleted;
      UpdateMovesStatus(s, id, status, 100, JobResult(status, code));
      RecordKeepsCore(s, Apply(cfg, s, a), id, Reported, status);
    }
  }

  lemma ShutdownKeepsCore(cfg: Config, s: System)
    requires cfg.allow.Covers() && Core(s) && Enabled(s, Shutdown)
    ensures Core(Apply(cfg, s, Shutdown))
  {
    var t := Apply(cfg, s, Shutdown);
    forall j | j in t.jobs
      ensures Coupled(t, j)
    {
      assert Coupled(s, j);
    }
    forall i | 0 <= i < |s.runs|
      ensures CanHaveRun(t, t.runs[i].id)
    {
      assert CanHaveRun(s, s.runs[i].id) && Coupled(s, s.runs[i].id);
    }
  }

  lemma RestartKeepsCore(cfg: Config, s: System)
    requires cfg.allow.Covers() && Core(s) && s.disk == s.jobs
    requires forall id :: id in s.jobs ==> Loadable(id, s.jobs[id])
    ensures Core(Apply(cfg, s, Restart))
  {
    var t := Apply(cfg, s, Restart);
    forall i | 0 <= i < |s.runs|
      ensures CanHaveRun(t, t.runs[i].id) && t.runs[i].request == t.jobs[t.runs[i].id].request
    {
      assert CanHaveRun(s, s.runs[i].id);
      assert Loadable(s.runs[i].id, s.jobs[s.runs[i].id]);
    }
  }

  lemma StepKeepsCore(cfg: Config, s: System, a: Action)
    requires cfg.allow.Covers() && Core(s) && Enabled(s, a) && s.disk == s.jobs
    requires forall id :: id in s.jobs ==> Loadable(id, s.jobs[id])
    ensures Core(Apply(cfg, s, a))
  {
    match a
    case Submit(client, request, newId) =>
      if SubmitAnswer(cfg, s.jobs, client, request).Accepted? {
        SubmitKeepsCore(s, Apply(cfg, s, a), newId, NewJob(newId, client, request));
      }
    case Cancel(_) => CancelKeepsCore(cfg, s, a);
    case Shutdown => ShutdownKeepsCore(cfg, s);
    case Restart => RestartKeepsCore(cfg, s);
    case Schedule => SubmitStepKeepsCore(cfg, s, a);
    case Register => SubmitStepKeepsCore(cfg, s, a);
    case CancelLookup => CancelStepKeepsCore(cfg, s, a);
    case CancelTry => CancelTryKeepsCore(cfg, s, a);
    case CancelRecord => CancelRecordKeepsCore(cfg, s, a);
    case CancelForget => CancelStepKeepsCore(cfg, s, a);
    case WorkerAnnounce(_) => WorkerReportKeepsCore(cfg, s, a);
    case WorkerReport(_) => WorkerReportKeepsCore(cfg, s, a);
    case WorkerLaunch(_) => WorkerLaunchKeepsCore(cfg, s, a);
    case _ => WorkerMoveKeepsCore(cfg, s, a);
  }

  // ---------- Steps keep clients and requests ----------

  /** Every job of `now` is a job of `before` with the same client and request. */
  ghost predicate SameIdentities(before: map<JobId, Job>, now: map<JobId, Job>) {
    forall id :: id in now ==>
      id in before && now[id].clientJobId == before[id].clientJobId && now[id].request == before[id].request
  }

  lemma StepKeepsNames(cfg: Config, s: System, a: Action)
    requires cfg.allow.Covers() && Enabled(s, a) && s.disk == s.jobs
    ensures SameIdentities(s.jobs, Apply(cfg, s, a).jobs)
            || (a.Submit? && SubmitAnswer(cfg, s.jobs, a.client, a.request).Accepted?)
  {
  }

  lemma StepKeepsIdentities(cfg: Config, s: System, a: Action)
    requires cfg.allow.Covers() && Enabled(s, a) && s.disk == s.jobs
    requires ClientsUnique(s.jobs) && RequestsOk(cfg, s)
    ensures ClientsUnique(Apply(cfg, s, a).jobs) && RequestsOk(cfg, Apply(cfg, s, a))
  {
    StepKeepsNames(cfg, s, a);
    if a.Submit? && SubmitAnswer(cfg, s.jobs, a.client, a.request).Accepted? {
      var job := NewJob(a.newId, a.client, a.request);
      assert job.clientJobId == a.client && job.request == a.request;
    }
  }

  // ---------- The invariant along executions ----------

  lemma JobsAreLoadable(s: System)
    requires JobsOk(s)
    ensures forall id :: id in s.jobs ==> Loadable(id, s.jobs[id])
  {
    forall id | id in s.jobs
      ensures Loadable(id, s.jobs[id])
    {
      assert JobOk(id, s.jobs[id], s.history[id]);
    }
  }

  lemma StepKeepsInv(cfg: Config, s: System, a: Action)
    requires cfg.allow.Covers() && Inv(cfg, s) && Enabled(s, a)
    ensures Inv(cfg, Apply(cfg, s, a))
  {
    JobsAreLoadable(s);
    StepKeepsJobs(cfg, s, a);
    StepKeepsCore(cfg, s, a);
    StepKeepsIdentities(cfg, s, a);
  }

  lemma {:induction false} ExecutionKeepsInv(cfg: Config, trace: seq<System>, i: nat)
    requires cfg.allow.Covers() && Execution(cfg, trace) && i < |trace|
    ensures Inv(cfg, trace[i])
  {
    if i > 0 {
      ExecutionKeepsInv(cfg, trace, i - 1);
      assert Next(cfg, trace[i - 1], trace[i - 1 + 1]);
      var a :| Enabled(trace[i - 1], a) && trace[i] == Apply(cfg, trace[i - 1], a);
      StepKeepsInv(cfg, trace[i - 1], a);
    }
  }

  lemma CoreAt(cfg: Config, trace: seq<System>, n: nat)
    requires cfg.allow.Covers() && Execution(cfg, trace) && n < |trace|
    ensures Core(trace[n])
  {
    ExecutionKeepsInv(cfg, trace, n);
  }

  lemma IdentitiesAt(cfg: Config, trace: seq<System>, n: nat)
    requires cfg.allow.Covers() && Execution(cfg, trace) && n < |trace|
    ensures ClientsUnique(trace[n].jobs) && RequestsOk(cfg, trace[n])
  {
    ExecutionKeepsInv(cfg, trace, n);
  }

  lemma StoreAt(cfg: Config, trace: seq<System>, n: nat)
    requires cfg.allow.Covers() && Execution(cfg, trace) && n < |trace|
    ensures trace[n].disk == trace[n].jobs && trace[n].history.Keys == trace[n].jobs.Keys
    ensures forall id :: id in trace[n].jobs ==> Loadable(id, trace[n].jobs[id])
  {
    ExecutionKeepsInv(cfg, trace, n);
    JobsAreLoadable(trace[n]);
  }
}
