/** Broker job records and their bounded, replayable event logs. */
module BrokerJobs {

  type JobId = string

  type ClientId = string

  const MAX_JOB_EVENTS: nat := 64
  const MAX_EVENT_OFFSET: nat := 1_000_000_000

  /** `Unrecognised` stands for any other text found in a state file. */
  datatype Status = Queued | Running | Succeeded | Failed | Cancelled | Unrecognised(text: string)

  /** A request is compared by its SHA-256 digest; the digest is taken to be
      collision-free, so the request stands for it. */
  datatype Request = Request(argv: seq<string>, timeoutSeconds: int)

  datatype Event = Event(offset: int, status: Status, progress: int)

  datatype Code = ActionCompleted | BrokerInternalError | CancelledBeforeDispatch | BrokerRestarted

  datatype JobResult = NoResult | JobResult(status: Status, code: Code)

  datatype Job = Job(
    brokerJobId: JobId,
    clientJobId: ClientId,
    request: Request,
    status: Status,
    progress: int,
    eventOffset: int,
    events: seq<Event>,
    truncatedBefore: int,
    result: JobResult,
    cancelRequested: bool)

  predicate Terminal(s: Status) {
    s == Succeeded || s == Failed || s == Cancelled
  }

  function Clamp(progress: int): int {
    if progress < 0 then 0 else if progress > 100 then 100 else progress
  }

  // ---------- Single-job operations ----------

  /** `_append_event_locked`. */
  function Append(job: Job, status: Status, progress: int): Job {
    var offset := job.eventOffset + 1;
    var appended := job.events + [Event(offset, status, Clamp(progress))];
    var truncated := |appended| > MAX_JOB_EVENTS;
    var events := if truncated then appended[|appended| - MAX_JOB_EVENTS..] else appended;
    job.(events := events,
         truncatedBefore := if truncated then events[0].offset else job.truncatedBefore,
         eventOffset := offset,
         progress := Clamp(progress))
  }

  function NewJob(id: JobId, client: ClientId, request: Request): Job {
    Append(Job(id, client, request, Queued, 0, 0, [], 0, NoResult, false), Queued, 0)
  }

  /** `update`: there is no guard on the current status. */
  function Updated(job: Job, status: Status, progress: int, result: JobResult): Job {
    Append(job, status, progress).(status := status, result := if result.NoResult? then job.result else result)
  }

  /** The effect of `request_cancel` on a job that is not terminal. */
  function CancelMarked(job: Job): Job {
    Append(job.(cancelRequested := true), job.status, job.progress)
  }

  /** `get`: the record with only the events after the client's offset. */
  function After(events: seq<Event>, offset: int): seq<Event> {
    if events == [] then []
    else
      var tail := After(events[1..], offset);
      if events[0].offset > offset then [events[0]] + tail else tail
  }

  /** What an update and a cancel request change: one event with the progress cut to 0 to
      100, the status given or kept, a result only if one is given, and for a cancel request
      the mark; nothing else but the progress and the bounded log. */
  lemma UpdateExactly(job: Job, status: Status, progress: int, result: JobResult)
    ensures var cut := if progress < 0 then 0 else if progress > 100 then 100 else progress;
            var event := Event(job.eventOffset + 1, status, cut);
            var now := Updated(job, status, progress, result);
            && now.events != [] && now.events[|now.events| - 1] == event && now.eventOffset == job.eventOffset + 1
            && now == job.(status := status, progress := cut, result := now.result, eventOffset := now.eventOffset,
                           events := now.events, truncatedBefore := now.truncatedBefore)
            && now.result == (if result == NoResult then job.result else result)
    ensures var cut := if job.progress < 0 then 0 else if job.progress > 100 then 100 else job.progress;
            var event := Event(job.eventOffset + 1, job.status, cut);
            var now := CancelMarked(job);
            && now.events != [] && now.events[|now.events| - 1] == event && now.eventOffset == job.eventOffset + 1
            && now == job.(cancelRequested := true, progress := cut, eventOffset := now.eventOffset,
                           events := now.events, truncatedBefore := now.truncatedBefore)
  {
  }

  // ---------- What the log means: a window on the whole history ----------

  ghost predicate Numbered(history: seq<Event>) {
    forall i :: 0 <= i < |history| ==> history[i].offset == i + 1
  }

  function WindowStart(n: nat): nat {
    if n <= MAX_JOB_EVENTS then 0 else n - MAX_JOB_EVENTS
  }

  /** The record keeps exactly the last 64 of the events ever appended, and
      `events_truncated_before` is 0 until the first loss, then n - 63. */
  ghost predicate LogOf(job: Job, history: seq<Event>) {
    && Numbered(history)
    && job.eventOffset == |history|
    && job.events == history[WindowStart(|history|)..]
    && job.truncatedBefore == (if |history| <= MAX_JOB_EVENTS then 0 else |history| - 63)
  }

  /** A full window drops its oldest event when one is appended. */
  lemma FullWindow(history: seq<Event>, event: Event)
    requires |history| >= MAX_JOB_EVENTS
    ensures (history[|history| - MAX_JOB_EVENTS..] + [event])[1..] == (history + [event])[|history| + 1 - MAX_JOB_EVENTS..]
  {
  }

  lemma NumberedAppend(history: seq<Event>, status: Status, progress: int)
    requires Numbered(history)
    ensures Numbered(history + [Event(|history| + 1, status, progress)])
  {
  }

  lemma AppendKeepsLog(job: Job, history: seq<Event>, status: Status, progress: int)
    requires LogOf(job, history)
    ensures LogOf(Append(job, status, progress),
                  history + [Event(|history| + 1, status, Clamp(progress))])
  {
    var n := |history|;
    var event := Event(n + 1, status, Clamp(progress));
    NumberedAppend(history, status, Clamp(progress));
    if n < MAX_JOB_EVENTS {
      assert history[0..] == history;
      assert (history + [event])[0..] == history + [event];
    } else {
      FullWindow(history, event);
      assert history[WindowStart(n)..] == history[n - MAX_JOB_EVENTS..];
      assert Append(job, status, progress).events == (job.events + [event])[1..];
      var longer := history + [event];
      assert longer[n + 1 - MAX_JOB_EVENTS..][0] == longer[n + 1 - MAX_JOB_EVENTS];
    }
  }

  /** Filtering by offset is slicing, because offsets are contiguous. */
  lemma {:induction false} AfterIsSlice(history: seq<Event>, from: nat, offset: nat)
    requires Numbered(history) && from <= |history|
    ensures After(history[from..], offset) ==
            if offset <= from then history[from..]
            else if offset <= |history| then history[offset..]
            else []
    decreases |history| - from
  {
    if from < |history| {
      assert history[from..][1..] == history[from + 1..];
      AfterIsSlice(history, from + 1, offset);
      assert history[from..] == [history[from]] + history[from + 1..];
    }
  }

  /** The events a client at `offset` has not been given yet. */
  ghost function Missed(history: seq<Event>, offset: nat): seq<Event> {
    if offset <= |history| then history[offset..] else []
  }

  /** A poll returns every event after the client's offset, in order, unless
      `events_truncated_before > offset + 1`; that test holds exactly when some
      of them are gone. */
  lemma PollIsComplete(job: Job, history: seq<Event>, offset: nat)
    requires LogOf(job, history)
    ensures After(job.events, offset) == Missed(history, offset) <==> job.truncatedBefore <= offset + 1
    ensures job.truncatedBefore > offset + 1 ==>
              After(job.events, offset) == history[WindowStart(|history|)..] && WindowStart(|history|) > offset
  {
    AfterIsSlice(history, WindowStart(|history|), offset);
    if job.truncatedBefore > offset + 1 {
      assert |After(job.events, offset)| < |Missed(history, offset)|;
    }
  }

  /** `_job_response` for a status request, including the offset bounds. */
  datatype Reply = Rejected | NotFound | Report(job: Job, events: seq<Event>, nextOffset: int)

  function StatusReply(jobs: map<JobId, Job>, id: JobId, offset: int): Reply {
    if offset < 0 || offset > MAX_EVENT_OFFSET then Rejected
    else if id !in jobs then NotFound
    else
      var events := After(jobs[id].events, offset);
      Report(jobs[id].(events := events), events, jobs[id].eventOffset + 1)
  }

  /** Which reply a poll gets, and what it holds: the record, its later events, and the
      offset after the last one. */
  lemma StatusReplyExactly(jobs: map<JobId, Job>, id: JobId, offset: int)
    ensures var reply := StatusReply(jobs, id, offset);
            && (reply.Rejected? <==> offset < 0 || offset > 1_000_000_000)
            && (reply.NotFound? <==> 0 <= offset <= 1_000_000_000 && id !in jobs)
            && (reply.Report? ==>
                  && id in jobs && reply.job == jobs[id].(events := reply.events)
                  && reply.nextOffset == jobs[id].eventOffset + 1
                  && forall e :: e in reply.events <==> e in jobs[id].events && e.offset > offset)
  {
    if id in jobs {
      AfterHolds(jobs[id].events, offset);
    }
  }

  lemma {:induction false} AfterHolds(events: seq<Event>, offset: int)
    ensures forall e :: e in After(events, offset) <==> e in events && e.offset > offset
  {
    if events != [] {
      AfterHolds(events[1..], offset);
    }
  }

  /** The client's own test on a reply: nothing was dropped since `offset`. */
  predicate Lossless(reply: Reply, offset: int) {
    reply.Report? && reply.job.truncatedBefore <= offset + 1
  }

  // ---------- A whole polling session ----------

  /** One poll: the job map at that moment, seen by a client that has collected `got`. */
  function Collect(polls: seq<map<JobId, Job>>, id: JobId): (got: seq<Event>) {
    if polls == [] then []
    else
      var before := Collect(polls[..|polls| - 1], id);
      var reply := StatusReply(polls[|polls| - 1], id, LastSeen(before));
      if reply.Report? then before + reply.events else before
  }

  function LastSeen(got: seq<Event>): int {
    if got == [] then 0 else got[|got| - 1].offset
  }

  ghost predicate LosslessSession(polls: seq<map<JobId, Job>>, id: JobId) {
    forall i :: 0 <= i < |polls| ==> Lossless(StatusReply(polls[i], id, LastSeen(Collect(polls[..i], id))),
                                              LastSeen(Collect(polls[..i], id)))
  }

  /** One lossless poll by a client that holds a prefix of the history completes it. */
  lemma PollCompletes(jobs: map<JobId, Job>, id: JobId, before: seq<Event>, history: seq<Event>)
    requires id in jobs && LogOf(jobs[id], history) && before <= history
    requires Lossless(StatusReply(jobs, id, |before|), |before|)
    ensures before + StatusReply(jobs, id, |before|).events == history
  {
    PollIsComplete(jobs[id], history, |before|);
  }

  lemma PrefixNumbered(before: seq<Event>, history: seq<Event>)
    requires Numbered(history) && before <= history
    ensures LastSeen(before) == |before|
  {
  }

  lemma SessionPrefix(polls: seq<map<JobId, Job>>, id: JobId, m: nat)
    requires LosslessSession(polls, id) && m <= |polls|
    ensures LosslessSession(polls[..m], id)
  {
    forall i | 0 <= i < m
      ensures Lossless(StatusReply(polls[..m][i], id, LastSeen(Collect(polls[..m][..i], id))),
                       LastSeen(Collect(polls[..m][..i], id)))
    {
      assert polls[..m][..i] == polls[..i];
    }
  }

  /** Whatever happens between polls, as long as no reply reports a loss the
      client has received the job's entire history, once and in order. */
  lemma {:induction false} SessionReceivesHistory(
      polls: seq<map<JobId, Job>>, id: JobId, histories: seq<seq<Event>>)
    requires |polls| == |histories| > 0
    requires forall i :: 0 <= i < |polls| ==> id in polls[i] && LogOf(polls[i][id], histories[i])
    requires forall i, j :: 0 <= i < j < |polls| ==> histories[i] <= histories[j]
    requires LosslessSession(polls, id)
    ensures Collect(polls, id) == histories[|histories| - 1]
  {
    var m := |polls| - 1;
    var before := Collect(polls[..m], id);
    assert before <= histories[m] by {
      if m > 0 {
        SessionPrefix(polls, id, m);
        SessionReceivesHistory(polls[..m], id, histories[..m]);
        assert histories[m - 1] <= histories[m];
      }
    }
    PrefixNumbered(before, histories[m]);
    PollCompletes(polls[m], id, before, histories[m]);
  }

  /** `next_offset` is the offset of the event that would be appended next. */
  lemma NextOffsetIsNext(jobs: map<JobId, Job>, id: JobId, history: seq<Event>, offset: int, status: Status, progress: int)
    requires id in jobs && LogOf(jobs[id], history) && 0 <= offset <= MAX_EVENT_OFFSET
    ensures StatusReply(jobs, id, offset).nextOffset == |history| + 1
    ensures Append(jobs[id], status, progress).events[|Append(jobs[id], status, progress).events| - 1].offset
            == StatusReply(jobs, id, offset).nextOffset
  {
    AppendKeepsLog(jobs[id], history, status, progress);
  }
}
