/** `_BrokerJobStore`: the durable job map, mutated in place under a lock.
    Each method is proved against the pure store operations of the protocol. */
module BrokerStore {
  import opened BrokerJobs
  import opened BrokerProtocol
  import opened BrokerSafety

  datatype CreateReply = Reused | Found(job: Job) | Made(job: Job)

  datatype Lookup = Missing | Copy(job: Job)

  /** The first loop of `_load_and_reconcile`: drop what does not look like a job. */
  method KeepLoadable(found: map<JobId, Job>) returns (valid: map<JobId, Job>, dropped: bool)
    ensures valid == map id | id in found && Loadable(id, found[id]) :: found[id]
    ensures !dropped ==> valid == found
  {
    valid, dropped := map[], false;
    var left := found.Keys;
    while left != {}
      invariant left <= found.Keys && valid.Keys <= found.Keys
      invariant forall id :: id in valid <==> id in found && id !in left && Loadable(id, found[id])
      invariant forall id :: id in valid ==> valid[id] == found[id]
      invariant !dropped ==> forall id :: id in found && id !in left ==> id in valid
    {
      var id :| id in left;
      left := left - {id};
      if Loadable(id, found[id]) {
        valid := valid[id := found[id]];
      } else {
        dropped := true;
      }
    }
  }

  /** The second loop: close every job that was not finished. */
  method FailUnfinished(valid: map<JobId, Job>) returns (kept: map<JobId, Job>, changed: bool)
    ensures kept == map id | id in valid :: Reconciled(valid[id])
    ensures !changed ==> kept == valid
  {
    kept, changed := valid, false;
    var left := valid.Keys;
    while left != {}
      invariant left <= kept.Keys == valid.Keys
      invariant forall id :: id in kept ==> kept[id] == if id in left then valid[id] else Reconciled(valid[id])
      invariant !changed ==> kept == valid
    {
      var id :| id in left;
      left := left - {id};
      if !Terminal(kept[id].status) {
        var job := Append(kept[id], Failed, 100);
        kept := kept[id := job.(status := Failed, progress := 100, result := JobResult(Failed, BrokerRestarted))];
        changed := true;
      }
    }
  }

  class BrokerJobStore {
    var jobs: map<JobId, Job>
    var file: map<JobId, Job>  // the state file; an absent file counts as empty

    /** What is in memory is what is on disk, and client IDs name one job each. */
    ghost predicate Valid()
      reads this
    {
      file == jobs && ClientsUnique(jobs)
    }

    /** `_load_and_reconcile` on whatever the file contains. */
    constructor (found: map<JobId, Job>)
      ensures jobs == Reload(found) && file == jobs
      ensures ClientsUnique(found) ==> Valid()
    {
      var valid, dropped := KeepLoadable(found);
      var kept, changed := FailUnfinished(valid);
      assert kept == Reload(found);
      jobs := kept;
      file := if dropped || changed then kept else found;
    }

    /** `create_or_get`: idempotent in the client job ID. */
    method CreateOrGet(client: ClientId, request: Request, newId: JobId) returns (r: CreateReply)
      requires Valid() && newId !in jobs
      modifies this
      ensures Valid()
      ensures Known(old(jobs), client) ==> jobs == old(jobs)
      ensures forall id :: id in old(jobs) && old(jobs)[id].clientJobId == client ==>
                r == if old(jobs)[id].request == request then Found(old(jobs)[id]) else Reused
      ensures !Known(old(jobs), client) ==>
                r == Made(NewJob(newId, client, request)) && jobs == old(jobs)[newId := NewJob(newId, client, request)]
    {
      var left := jobs.Keys;
      while left != {}
        invariant left <= jobs.Keys && jobs == old(jobs) && Valid()
        invariant forall id :: id in jobs && id !in left ==> jobs[id].clientJobId != client
      {
        var id :| id in left;
        left := left - {id};
        if jobs[id].clientJobId != client { continue; }
        if jobs[id].request != request { return Reused; }
        return Found(jobs[id]);
      }
      var job := Append(Job(newId, client, request, Queued, 0, 0, [], 0, NoResult, false), Queued, 0);
      assert job.clientJobId == client;
      jobs := jobs[newId := job];
      file := jobs;
      return Made(job);
    }

    /** `get` with the events after an offset. */
    method Get(id: JobId, offset: int) returns (r: Lookup)
      ensures r == if id in jobs then Copy(jobs[id].(events := After(jobs[id].events, offset))) else Missing
    {
      if id !in jobs { return Missing; }
      var kept := [];
      var events := jobs[id].events;
      var i := |events|;
      while i > 0
        invariant 0 <= i <= |events|
        invariant kept == After(events[i..], offset)
      {
        i := i - 1;
        assert events[i..][1..] == events[i + 1..];
        if events[i].offset > offset {
          kept := [events[i]] + kept;
        }
      }
      assert events[0..] == events;
      return Copy(jobs[id].(events := kept));
    }

    /** `update`: unguarded. */
    method Update(id: JobId, status: Status, progress: int, result: JobResult) returns (r: Lookup)
      requires Valid()
      modifies this
      ensures Valid()
      ensures id !in old(jobs) ==> r == Missing && jobs == old(jobs)
      ensures id in old(jobs) ==>
                var job := Updated(old(jobs)[id], status, progress, result);
                r == Copy(job) && jobs == old(jobs)[id := job]
    {
      if id !in jobs { return Missing; }
      var job := Append(jobs[id], status, progress);
      job := job.(status := status);
      if result != NoResult {
        job := job.(result := result);
      }
      assert job.clientJobId == jobs[id].clientJobId;
      jobs := jobs[id := job];
      file := jobs;
      return Copy(job);
    }

    /** `request_cancel`: a finished job is returned as it is. */
    method RequestCancel(id: JobId) returns (r: Lookup)
      requires Valid()
      modifies this
      ensures Valid()
      ensures id !in old(jobs) ==> r == Missing && jobs == old(jobs)
      ensures id in old(jobs) ==>
                var job := if Terminal(old(jobs)[id].status) then old(jobs)[id] else CancelMarked(old(jobs)[id]);
                r == Copy(job) && jobs == old(jobs)[id := job]
    {
      if id !in jobs { return Missing; }
      var job := jobs[id];
      if Terminal(job.status) { return Copy(job); }
      job := job.(cancelRequested := true);
      job := Append(job, job.status, job.progress);
      assert job.clientJobId == jobs[id].clientJobId;
      jobs := jobs[id := job];
      file := jobs;
      return Copy(job);
    }
  }
}
