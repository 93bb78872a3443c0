/** The broker process as an interleaved step system.

    One control thread (submit, cancel), a pool of workers and process restarts
    race on the job map.  Every store operation runs under the store's lock and
    ends by persisting, so it is one step; everything the code does outside the
    lock (handing a job to the executor, entering it in `_futures`, looking a
    future up, cancelling it, running the argv, popping it) is a step of its own,
    and a restart may strike between any two of them.  A crash inside a store
    operation leaves the old state file, so it is a restart just before it. */
module BrokerProtocol {
  import opened BrokerJobs
  import BrokerArgv

  const MAX_TIMEOUT_SECONDS: int := 3600

  datatype Config = Config(allow: BrokerArgv.Allowlist, dispatcher: string)

  /** Where a running worker is inside `_execute_job`. */
  datatype Phase =
    | Starting               // the future is running, nothing recorded yet
    | Announced              // RUNNING recorded, `_run_argv` not entered
    | Launched               // the argv is being executed
    | Ran(ok: bool)          // `_run_argv` returned
    | Raised                 // `_run_argv` raised, before or after launching
    | Reported               // terminal status recorded, future not popped yet

  datatype Future = Pending | Withdrawn | Busy(phase: Phase) | Done

  /** What was handed to the executor: the argv travels with the future. */
  datatype Task = Task(request: Request, future: Future)

  /** Where the control thread is between two atomic effects. */
  datatype Control =
    | Idle
    | Created(id: JobId, request: Request)    // job stored, not yet handed to the executor
    | Scheduled(id: JobId)                    // handed over, not yet in `_futures`
    | CancelAsked(id: JobId, seen: Status)    // `request_cancel` returned a copy
    | CancelHolding(id: JobId)                // saw QUEUED and holds the future
    | CancelWon(id: JobId)                    // `future.cancel()` returned True
    | CancelRecorded(id: JobId)               // CANCELLED stored, future not popped yet
    | Stopped                                 // the serve loop ended

  /** One launch of an argv. */
  datatype Run = Run(id: JobId, request: Request)

  /** `history` and `runs` record everything that ever happened, across restarts. */
  datatype System = System(
    jobs: map<JobId, Job>,
    disk: map<JobId, Job>,
    tasks: map<JobId, Task>,
    registry: set<JobId>,
    control: Control,
    history: map<JobId, seq<Event>>,
    runs: seq<Run>)

  datatype Action =
    | Submit(client: ClientId, request: Request, newId: JobId)
    | Schedule
    | Register
    | Cancel(id: JobId)
    | CancelLookup
    | CancelTry
    | CancelRecord
    | CancelForget
    | WorkerTake(id: JobId)
    | WorkerAnnounce(id: JobId)
    | WorkerLaunch(id: JobId)
    | WorkerReturn(id: JobId, ok: bool)
    | WorkerRaise(id: JobId)
    | WorkerReport(id: JobId)
    | WorkerForget(id: JobId)
    | Shutdown
    | Restart

  const INITIAL := System(map[], map[], map[], {}, Idle, map[], [])

  // ---------- Store operations ----------

  predicate ValidIdentifier(s: string) {
    |s| <= 160 && BrokerArgv.ControlFree(s) && exists i :: 0 <= i < |s| && !Blank(s[i])
  }

  /** The characters `str.strip` removes. */
  predicate Blank(c: char) {
    || '\t' <= c <= '\r'
    || '\U{1c}' <= c <= ' '
    || c == '\U{85}' || c == '\U{a0}' || c == '\U{1680}'
    || '\U{2000}' <= c <= '\U{200a}'
    || c == '\U{2028}' || c == '\U{2029}' || c == '\U{202f}' || c == '\U{205f}' || c == '\U{3000}'
  }

  ghost predicate Admissible(cfg: Config, client: ClientId, request: Request)
    requires cfg.allow.Covers()
  {
    && BrokerArgv.Parse(cfg.allow, cfg.dispatcher, request.argv).Ok?
    && 1 <= request.timeoutSeconds <= MAX_TIMEOUT_SECONDS
    && ValidIdentifier(client)
  }

  ghost predicate Known(jobs: map<JobId, Job>, client: ClientId) {
    exists id :: id in jobs && jobs[id].clientJobId == client
  }

  datatype SubmitReply = Refused | Conflict | Existing(id: JobId) | Accepted

  /** The answer to a submission: checks first, then `create_or_get`. */
  ghost function SubmitAnswer(cfg: Config, jobs: map<JobId, Job>, client: ClientId, request: Request): SubmitReply
    requires cfg.allow.Covers()
  {
    if !Admissible(cfg, client, request) then Refused
    else if !Known(jobs, client) then Accepted
    else
      var id :| id in jobs && jobs[id].clientJobId == client;
      if jobs[id].request == request then Existing(id) else Conflict
  }

  function Logged(history: seq<Event>, status: Status, progress: int): seq<Event> {
    history + [Event(|history| + 1, status, Clamp(progress))]
  }

  /** Store `job`, whose log gained one event, and persist. */
  function Stored(s: System, id: JobId, job: Job, status: Status, progress: int): System {
    var jobs := s.jobs[id := job];
    var past := if id in s.history then s.history[id] else [];
    s.(jobs := jobs, disk := jobs, history := s.history[id := Logged(past, status, progress)])
  }

  function Update(s: System, id: JobId, status: Status, progress: int, result: JobResult): System
    requires id in s.jobs
  {
    Stored(s, id, Updated(s.jobs[id], status, progress, result), status, progress)
  }

  // ---------- Loading a state file ----------

  predicate Loadable(id: JobId, job: Job) {
    job.brokerJobId == id && !job.status.Unrecognised? && job.eventOffset >= 0
  }

  function Reconciled(job: Job): Job {
    if Terminal(job.status) then job
    else Append(job, Failed, 100).(status := Failed, progress := 100, result := JobResult(Failed, BrokerRestarted))
  }

  /** `_load_and_reconcile` on any state file. */
  function Reload(file: map<JobId, Job>): map<JobId, Job> {
    map id | id in file && Loadable(id, file[id]) :: Reconciled(file[id])
  }

  function ReloadHistory(file: map<JobId, Job>, history: map<JobId, seq<Event>>): map<JobId, seq<Event>> {
    map id | id in history ::
      if id in file && Loadable(id, file[id]) && !Terminal(file[id].status)
      then Logged(history[id], Failed, 100) else history[id]
  }

  // ---------- Steps ----------

  ghost predicate Enabled(s: System, a: Action) {
    match a
    case Submit(_, _, newId) => s.control.Idle? && newId !in s.jobs
    case Schedule => s.control.Created?
    case Register => s.control.Scheduled?
    case Cancel(_) => s.control.Idle?
    case CancelLookup => s.control.CancelAsked?
    case CancelTry => s.control.CancelHolding? && s.control.id in s.tasks
    case CancelRecord => s.control.CancelWon? && s.control.id in s.jobs
    case CancelForget => s.control.CancelRecorded?
    case WorkerTake(id) => id in s.tasks && s.tasks[id].future == Pending
    case WorkerAnnounce(id) => id in s.tasks && id in s.jobs && s.tasks[id].future == Busy(Starting)
    case WorkerLaunch(id) => id in s.tasks && s.tasks[id].future == Busy(Announced)
    case WorkerReturn(id, _) => id in s.tasks && s.tasks[id].future == Busy(Launched)
    case WorkerRaise(id) =>
      id in s.tasks && (s.tasks[id].future == Busy(Announced) || s.tasks[id].future == Busy(Launched))
    case WorkerReport(id) =>
      id in s.tasks && id in s.jobs && s.tasks[id].future.Busy?
      && (s.tasks[id].future.phase.Ran? || s.tasks[id].future.phase.Raised?)
    case WorkerForget(id) => id in s.tasks && s.tasks[id].future == Busy(Reported)
    case Shutdown => s.control.Idle?
    case Restart => true
  }

  function Moved(s: System, id: JobId, future: Future): map<JobId, Task>
    requires id in s.tasks
  {
    s.tasks[id := s.tasks[id].(future := future)]
  }

  ghost function Apply(cfg: Config, s: System, a: Action): System
    requires cfg.allow.Covers() && Enabled(s, a)
  {
    match a
    case Submit(client, request, newId) =>
      if SubmitAnswer(cfg, s.jobs, client, request).Accepted?
      then Stored(s, newId, NewJob(newId, client, request), Queued, 0).(control := Created(newId, request))
      else s
    case Schedule =>
      s.(tasks := s.tasks[s.control.id := Task(s.control.request, Pending)], control := Scheduled(s.control.id))
    case Register =>
      s.(registry := s.registry + {s.control.id}, control := Idle)
    case Cancel(id) =>
      if id !in s.jobs then s
      else if Terminal(s.jobs[id].status) then s.(control := CancelAsked(id, s.jobs[id].status))
      else Stored(s, id, CancelMarked(s.jobs[id]), s.jobs[id].status, s.jobs[id].progress)
           .(control := CancelAsked(id, s.jobs[id].status))
    case CancelLookup =>
      s.(control := if s.control.seen == Queued && s.control.id in s.registry
                    then CancelHolding(s.control.id) else Idle)
    case CancelTry =>
      var id := s.control.id;
      (match s.tasks[id].future
       case Pending => s.(tasks := Moved(s, id, Withdrawn), control := CancelWon(id))
       case Withdrawn => s.(control := CancelWon(id))
       case _ => s.(control := Idle))
    case CancelRecord =>
      Update(s, s.control.id, Cancelled, 100, JobResult(Cancelled, CancelledBeforeDispatch))
      .(control := CancelRecorded(s.control.id))
    case CancelForget =>
      s.(registry := s.registry - {s.control.id}, control := Idle)
    case WorkerTake(id) => s.(tasks := Moved(s, id, Busy(Starting)))
    case WorkerAnnounce(id) =>
      Update(s, id, Running, 10, NoResult).(tasks := Moved(s, id, Busy(Announced)))
    case WorkerLaunch(id) =>
      s.(tasks := Moved(s, id, Busy(Launched)), runs := s.runs + [Run(id, s.tasks[id].request)])
    case WorkerReturn(id, ok) => s.(tasks := Moved(s, id, Busy(Ran(ok))))
    case WorkerRaise(id) => s.(tasks := Moved(s, id, Busy(Raised)))
    case WorkerReport(id) =>
      var status := if s.tasks[id].future.phase == Ran(true) then Succeeded else Failed;
      var code := if s.tasks[id].future.phase.Raised? then BrokerInternalError else ActionCompleted;
      Update(s, id, status, 100, JobResult(status, code)).(tasks := Moved(s, id, Busy(Reported)))
    case WorkerForget(id) =>
      s.(tasks := Moved(s, id, Done), registry := s.registry - {id})
    case Shutdown =>
      s.(tasks := map id | id in s.tasks ::
           s.tasks[id].(future := if s.tasks[id].future.Pending? then Withdrawn else s.tasks[id].future),
         control := Stopped)
    case Restart =>
      System(Reload(s.disk), Reload(s.disk), map[], {}, Idle, ReloadHistory(s.disk, s.history), s.runs)
  }

  /** Every finite execution: `trace[i + 1]` follows from `trace[i]` by one step. */
  ghost predicate Execution(cfg: Config, trace: seq<System>)
    requires cfg.allow.Covers()
  {
    && |trace| > 0
    && trace[0] == INITIAL
    && forall i :: 0 <= i < |trace| - 1 ==> Next(cfg, trace[i], trace[i + 1])
  }

  ghost predicate Next(cfg: Config, s: System, t: System)
    requires cfg.allow.Covers()
  {
    exists a :: Enabled(s, a) && t == Apply(cfg, s, a)
  }
}
