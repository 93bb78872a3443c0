/** The scheduler's read models agree with the admission plan. */
module SchedulerReadModel {
  import opened Options
  import opened Sorting
  import opened SchedulerModel
  import opened SchedulerPlan
  import opened SchedulerFairness

  const MAX_CANDIDATES: nat := 500
  const UNRANKED: nat := 1_000_000_000

  /** The queue facts of a candidate; its fit against the host is not modelled. */
  datatype Candidate = Candidate(task: Task, key: QueueKey, depth: nat, rank: nat)

  function Clip(limit: int): nat {
    if limit < 1 then 1 else if limit > MAX_CANDIDATES then MAX_CANDIDATES else limit
  }

  // ---------- Heads are the first entries of the plan ----------

  lemma {:induction false} TotalOfOnes(keys: set<QueueKey>, f: QueueKey -> nat)
    requires forall k :: k in keys ==> f(k) == 1
    ensures Total(keys, f) == |keys|
  {
    if keys != {} {
      TotalOfOnes(keys - {Pick(keys)}, f);
    }
  }

  /** One round of the plan serves every queue once. */
  lemma FirstRoundTotal(tasks: set<Task>, v: View)
    ensures Total(Keys(tasks, v), k => Min(Size(tasks, v, k), 1)) == |Keys(tasks, v)|
  {
    var f: QueueKey -> nat := k => Min(Size(tasks, v, k), 1);
    forall k | k in Keys(tasks, v)
      ensures f(k) == 1
    {
      var t :| t in tasks && KeyOf(t, v) == k;
      assert t in Members(tasks, v, k);
    }
    TotalOfOnes(Keys(tasks, v), f);
  }

  /** The queue heads are exactly the first plan entries, one per queue. */
  lemma HeadsComeFirst(tasks: set<Task>, v: View, plan: seq<PlanItem>, n: nat)
    requires IsPlan(tasks, v, plan) && n < |plan| && DistinctTasks(tasks)
    ensures plan[n].round == 0 <==> n < |Keys(tasks, v)|
  {
    var keys := Keys(tasks, v);
    RankBounds(tasks, v, plan, n);
    FirstRoundTotal(tasks, v);
    assert ItemOk(tasks, v, Elements(TasksOf(plan[..n])), n, plan[n]);
    var one: QueueKey -> nat := k => Min(Size(tasks, v, k), 1);
    var low: QueueKey -> nat := k => Min(Size(tasks, v, k), plan[n].round);
    var high: QueueKey -> nat := k => Min(Size(tasks, v, k), plan[n].round + 1);
    if plan[n].round > 0 {
      TotalMonotone(keys, one, low);
    } else {
      TotalMonotone(keys, high, one);
    }
  }

  lemma KeysFitPlan(tasks: set<Task>, v: View, plan: seq<PlanItem>)
    requires IsPlan(tasks, v, plan) && DistinctTasks(tasks)
    ensures |Keys(tasks, v)| <= |tasks| == |plan|
  {
    PlanOrderIsOrder(tasks, v);
    SortedIsDistinct(PlanOrder(tasks, v), TasksOf(plan));
    DistinctCardinality(TasksOf(plan));
    var one: QueueKey -> nat := k => Min(Size(tasks, v, k), 1);
    var share: QueueKey -> nat := k => |Members(tasks, v, k)|;
    FirstRoundTotal(tasks, v);
    TotalOfShares(tasks, v, Keys(tasks, v));
    TotalMonotone(Keys(tasks, v), one, share);
  }

  // ---------- scheduler_candidates ----------

  /** What the candidate list must be, given the plan. */
  ghost predicate CandidatesOk(tasks: set<Task>, v: View, plan: seq<PlanItem>, limit: int, cs: seq<Candidate>) {
    && |cs| == Min(|Keys(tasks, v)|, if limit < 1 then 1 else if limit > 500 then 500 else limit)
    && |cs| <= |plan|
    && forall i :: 0 <= i < |cs| ==>
         cs[i] == Candidate(plan[i].task, KeyOf(plan[i].task, v), Size(tasks, v, KeyOf(plan[i].task, v)), i + 1)
  }

  /** `plan_by_task`, keeping only the rank. */
  ghost predicate RanksOk(plan: seq<PlanItem>, ranks: map<string, nat>) {
    forall i :: 0 <= i < |plan| ==> plan[i].task.id in ranks && ranks[plan[i].task.id] == i + 1
  }

  method RankTable(plan: seq<PlanItem>, ghost tasks: set<Task>, v: View) returns (ranks: map<string, nat>)
    requires IsPlan(tasks, v, plan) && DistinctTasks(tasks)
    ensures RanksOk(plan, ranks)
  {
    PlanIdsDistinct(tasks, v, plan);
    ranks := map[];
    for i := 0 to |plan|
      invariant forall j :: 0 <= j < i ==> plan[j].task.id in ranks && ranks[plan[j].task.id] == j + 1
    {
      assert ItemOk(tasks, v, Elements(TasksOf(plan[..i])), i, plan[i]);
      ranks := ranks[plan[i].task.id := plan[i].rank];
    }
  }

  lemma PlanIdsDistinct(tasks: set<Task>, v: View, plan: seq<PlanItem>)
    requires IsPlan(tasks, v, plan) && DistinctTasks(tasks)
    ensures forall i, j :: 0 <= i < j < |plan| ==> plan[i].task.id != plan[j].task.id
  {
    PlanOrderIsOrder(tasks, v);
    SortedIsDistinct(PlanOrder(tasks, v), TasksOf(plan));
    forall i, j | 0 <= i < j < |plan|
      ensures plan[i].task.id != plan[j].task.id
    {
      assert TasksOf(plan)[i] in Elements(TasksOf(plan)) && TasksOf(plan)[j] in Elements(TasksOf(plan));
    }
  }

  function RankOf(ranks: map<string, nat>, t: Task): nat {
    if t.id in ranks then ranks[t.id] else UNRANKED
  }

  function ByRank(ranks: map<string, nat>): (Task, Task) -> bool {
    (a, b) => RankOf(ranks, a) < RankOf(ranks, b) || (RankOf(ranks, a) == RankOf(ranks, b) && a.index < b.index)
  }

  ghost function Heads(tasks: set<Task>, v: View): set<Task> {
    set t | t in tasks && Position(tasks, v, t) == 0
  }

  /** Sorting the heads by rank gives the first entries of the plan. */
  lemma SortedHeads(tasks: set<Task>, v: View, plan: seq<PlanItem>, ranks: map<string, nat>, heads: seq<Task>)
    requires IsPlan(tasks, v, plan) && DistinctTasks(tasks) && RanksOk(plan, ranks)
    requires Distinct(heads) && Elements(heads) == Heads(tasks, v)
    ensures |Keys(tasks, v)| <= |plan|
    ensures Sort(ByRank(ranks), heads) == TasksOf(plan)[..|Keys(tasks, v)|]
  {
    KeysFitPlan(tasks, v, plan);
    var first := TasksOf(plan)[..|Keys(tasks, v)|];
    forall i | 0 <= i < |first|
      ensures first[i] in Heads(tasks, v)
    {
      HeadsComeFirst(tasks, v, plan, i);
      RoundCountsDispatches(tasks, v, plan, i);
      assert TasksOf(plan)[i] in Elements(TasksOf(plan));
    }
    forall t | t in Heads(tasks, v)
      ensures t in first
    {
      var i := IndexOf(tasks, v, plan, t);
      HeadsComeFirst(tasks, v, plan, i);
      RoundCountsDispatches(tasks, v, plan, i);
      assert first[i] == t;
    }
    RankIsOrder(tasks, v, plan, ranks, Heads(tasks, v));
    SortSorts(ByRank(ranks), heads);
    assert StrictlySorted(ByRank(ranks), first);
    SortedUnique(ByRank(ranks), Sort(ByRank(ranks), heads), first);
  }

  lemma RankIsOrder(tasks: set<Task>, v: View, plan: seq<PlanItem>, ranks: map<string, nat>, some: set<Task>)
    requires IsPlan(tasks, v, plan) && DistinctTasks(tasks) && RanksOk(plan, ranks) && some <= tasks
    ensures StrictOrder(ByRank(ranks), some)
  {
  }

  /** `scheduler_candidates`: the heads of the queues, by admission rank. */
  method SchedulerCandidates(snapshot: seq<Task>, v: View, limit: int) returns (cs: seq<Candidate>)
    requires Distinct(snapshot) && DistinctTasks(Elements(snapshot))
    ensures forall plan :: IsPlan(QueuedTasks(snapshot), v, plan) ==>
              CandidatesOk(QueuedTasks(snapshot), v, plan, limit, cs)
  {
    var queued := QueuedOf(snapshot);
    ghost var tasks := QueuedTasks(snapshot);
    var plan := PendingTaskPlan(snapshot, v);
    var ranks := RankTable(plan, tasks, v);
    var grouped := GroupQueuedTasks(queued, v);
    GroupsNonEmpty(tasks, v, grouped);
    var heads, keys := CollectHeads(grouped);
    HeadsCollected(tasks, v, grouped, heads, keys);
    SortedHeads(tasks, v, plan, ranks, heads);
    heads := Sort(ByRank(ranks), heads);
    forall i | 0 <= i < |heads|
      ensures heads[i] == plan[i].task && KeyOf(heads[i], v) in grouped && RankOf(ranks, heads[i]) == i + 1
      ensures |grouped[KeyOf(heads[i], v)]| == Size(tasks, v, KeyOf(heads[i], v))
    {
      PlannedInQueue(tasks, v, plan, grouped, i);
    }
    cs := Project(heads, grouped, ranks, Clip(limit), v);
    forall other: seq<PlanItem> | IsPlan(tasks, v, other)
      ensures CandidatesOk(tasks, v, other, limit, cs)
    {
      PlanUnique(tasks, v, plan, other);
    }
  }

  /** `heads[:limit]`, turned into candidate records. */
  method Project(heads: seq<Task>, grouped: map<QueueKey, seq<Task>>, ranks: map<string, nat>, limit: nat, v: View)
      returns (cs: seq<Candidate>)
    requires forall i :: 0 <= i < |heads| ==> KeyOf(heads[i], v) in grouped
    ensures |cs| == Min(|heads|, limit)
    ensures forall j :: 0 <= j < |cs| ==>
              cs[j] == Candidate(heads[j], KeyOf(heads[j], v), |grouped[KeyOf(heads[j], v)]|, RankOf(ranks, heads[j]))
  {
    var count := if limit < |heads| then limit else |heads|;
    cs := [];
    for i := 0 to count
      invariant |cs| == i
      invariant forall j :: 0 <= j < i ==>
                  cs[j] == Candidate(heads[j], KeyOf(heads[j], v), |grouped[KeyOf(heads[j], v)]|, RankOf(ranks, heads[j]))
    {
      var key := KeyOf(heads[i], v);
      cs := cs + [Candidate(heads[i], key, |grouped[key]|, RankOf(ranks, heads[i]))];
    }
  }

  lemma PlannedInQueue(tasks: set<Task>, v: View, plan: seq<PlanItem>, grouped: map<QueueKey, seq<Task>>, i: nat)
    requires IsPlan(tasks, v, plan) && DistinctTasks(tasks) && Grouped(tasks, v, grouped) && i < |plan|
    ensures KeyOf(plan[i].task, v) in grouped
    ensures |grouped[KeyOf(plan[i].task, v)]| == Size(tasks, v, KeyOf(plan[i].task, v))
  {
    assert TasksOf(plan)[i] in Elements(TasksOf(plan));
    TaskHasSlot(tasks, v, grouped, plan[i].task);
    QueueLength(tasks, v, grouped, KeyOf(plan[i].task, v));
  }

  lemma QueueLength(tasks: set<Task>, v: View, grouped: map<QueueKey, seq<Task>>, k: QueueKey)
    requires DistinctTasks(tasks) && Grouped(tasks, v, grouped) && k in grouped
    ensures |grouped[k]| == Size(tasks, v, k)
  {
    AheadIsOrder(k, v.now, Members(tasks, v, k));
    SortedIsDistinct(QueueOrder(k, v.now), grouped[k]);
    DistinctCardinality(grouped[k]);
  }

  method CollectHeads(grouped: map<QueueKey, seq<Task>>) returns (heads: seq<Task>, ghost keys: seq<QueueKey>)
    requires forall k :: k in grouped ==> grouped[k] != []
    ensures Distinct(keys) && Elements(keys) == grouped.Keys && |heads| == |keys|
    ensures forall i :: 0 <= i < |keys| ==> keys[i] in grouped && heads[i] == grouped[keys[i]][0]
  {
    heads, keys := [], [];
    var left := grouped.Keys;
    while left != {}
      invariant left <= grouped.Keys && |heads| == |keys| && Distinct(keys)
      invariant forall k :: k in keys <==> k in grouped.Keys - left
      invariant forall i :: 0 <= i < |keys| ==> keys[i] in grouped && heads[i] == grouped[keys[i]][0]
    {
      var k :| k in left;
      assert k !in keys;
      left := left - {k};
      heads, keys := heads + [grouped[k][0]], keys + [k];
    }
  }

  lemma GroupsNonEmpty(tasks: set<Task>, v: View, grouped: map<QueueKey, seq<Task>>)
    requires DistinctTasks(tasks) && Grouped(tasks, v, grouped)
    ensures forall k :: k in grouped ==> grouped[k] != []
  {
    forall k | k in grouped
      ensures grouped[k] != []
    {
      HeadOfQueue(tasks, v, grouped, k);
    }
  }

  lemma HeadsCollected(tasks: set<Task>, v: View, grouped: map<QueueKey, seq<Task>>, heads: seq<Task>, keys: seq<QueueKey>)
    requires DistinctTasks(tasks) && Grouped(tasks, v, grouped)
    requires forall k :: k in grouped ==> grouped[k] != []
    requires Distinct(keys) && Elements(keys) == grouped.Keys && |heads| == |keys|
    requires forall i :: 0 <= i < |keys| ==> keys[i] in grouped && heads[i] == grouped[keys[i]][0]
    ensures Distinct(heads) && Elements(heads) == Heads(tasks, v)
  {
    forall i | 0 <= i < |keys|
      ensures heads[i] in Heads(tasks, v) && KeyOf(heads[i], v) == keys[i]
    {
      HeadOfQueue(tasks, v, grouped, keys[i]);
    }
    forall t | t in Heads(tasks, v)
      ensures t in heads
    {
      TaskHasSlot(tasks, v, grouped, t);
      assert KeyOf(t, v) in Elements(keys);
      var i :| 0 <= i < |keys| && keys[i] == KeyOf(t, v);
      assert heads[i] == t;
    }
  }

  lemma HeadOfQueue(tasks: set<Task>, v: View, grouped: map<QueueKey, seq<Task>>, k: QueueKey)
    requires DistinctTasks(tasks) && Grouped(tasks, v, grouped) && k in grouped
    ensures grouped[k] != []
    ensures forall t :: t == grouped[k][0] <==> t in Heads(tasks, v) && KeyOf(t, v) == k
  {
    assert Members(tasks, v, k) != {};
    var u :| u in Members(tasks, v, k);
    assert u in Elements(grouped[k]);
    PositionIsIndex(tasks, v, grouped, k, 0);
    forall t | t in tasks
      ensures Position(tasks, v, t) == 0 && KeyOf(t, v) == k ==> t == grouped[k][0]
    {
      TaskHasSlot(tasks, v, grouped, t);
    }
  }

  // ---------- scheduler_explain_decision ----------

  datatype Decision =
    | InvalidTaskId
    | UnknownTask
    | NotQueued(depth: nat)
    | WaitingForQueue(depth: nat, position: nat, head: Task, blocker: Option<Candidate>)
    | Decided(candidate: Candidate)

  /** The admission rank, as a number of tasks. */
  ghost function PlanRank(tasks: set<Task>, v: View, t: Task): nat {
    |Below(PlanOrder(tasks, v), tasks, t)| + 1
  }

  ghost function CandidateFor(tasks: set<Task>, v: View, t: Task): Candidate {
    Candidate(t, KeyOf(t, v), Size(tasks, v, KeyOf(t, v)), PlanRank(tasks, v, t))
  }

  ghost predicate Projected(tasks: set<Task>, v: View, t: Task) {
    t in Heads(tasks, v) && PlanRank(tasks, v, t) <= MAX_CANDIDATES
  }

  /** The decision a task must get: a candidate exactly when it heads its queue and
      ranks within the projected candidates, otherwise its place behind the head. */
  ghost predicate DecisionOk(tasks: set<Task>, v: View, t: Task, d: Decision) {
    if t !in tasks then d == NotQueued(Size(tasks, v, KeyOf(t, v)))
    else if Projected(tasks, v, t) then d == Decided(CandidateFor(tasks, v, t))
    else
      && d.WaitingForQueue?
      && d.depth == Size(tasks, v, KeyOf(t, v))
      && d.position == Position(tasks, v, t) + 1
      && d.head in Heads(tasks, v) && KeyOf(d.head, v) == KeyOf(t, v)
      && d.blocker == if Projected(tasks, v, d.head) then Some(CandidateFor(tasks, v, d.head)) else None
  }

  /** A waiting task is behind a different one exactly when its position is at least 2. */
  lemma WaitingBehindAnother(tasks: set<Task>, v: View, t: Task, d: Decision)
    requires DistinctTasks(tasks) && t in tasks && DecisionOk(tasks, v, t, d) && d.WaitingForQueue?
    ensures d.head != t <==> d.position >= 2
  {
    AheadIsLowerPosition(tasks, v, d.head, t);
  }

  method FindTask(snapshot: seq<Task>, id: string) returns (r: Option<Task>)
    ensures r.None? ==> forall t :: t in snapshot ==> t.id != id
    ensures r.Some? ==> r.value in snapshot && r.value.id == id
  {
    for i := 0 to |snapshot|
      invariant forall j :: 0 <= j < i ==> snapshot[j].id != id
    {
      if snapshot[i].id == id { return Some(snapshot[i]); }
    }
    return None;
  }

  method FindCandidate(cs: seq<Candidate>, id: string) returns (r: Option<Candidate>)
    ensures r.None? ==> forall c :: c in cs ==> c.task.id != id
    ensures r.Some? ==> r.value in cs && r.value.task.id == id
  {
    for i := 0 to |cs|
      invariant forall j :: 0 <= j < i ==> cs[j].task.id != id
    {
      if cs[i].task.id == id { return Some(cs[i]); }
    }
    return None;
  }

  /** Ranks in the plan are the closed-form ranks. */
  lemma RankIsPlanRank(tasks: set<Task>, v: View, plan: seq<PlanItem>, n: nat)
    requires IsPlan(tasks, v, plan) && DistinctTasks(tasks) && n < |plan|
    ensures PlanRank(tasks, v, plan[n].task) == plan[n].rank == n + 1
  {
    PlanOrderIsOrder(tasks, v);
    RankInSorted(PlanOrder(tasks, v), TasksOf(plan), n);
    assert ItemOk(tasks, v, Elements(TasksOf(plan[..n])), n, plan[n]);
  }

  lemma HeadIffFirstRound(tasks: set<Task>, v: View, plan: seq<PlanItem>, n: nat)
    requires IsPlan(tasks, v, plan) && DistinctTasks(tasks) && n < |plan|
    ensures plan[n].task in Heads(tasks, v) <==> n < |Keys(tasks, v)|
  {
    PrefixMembers(tasks, v, plan, n);
    RoundCountsDispatches(tasks, v, plan, n);
    HeadsComeFirst(tasks, v, plan, n);
  }

  /** Looking a planned task up by ID finds its own entry or nothing. */
  lemma LookupByIndex(plan: seq<PlanItem>, cs: seq<Candidate>, n: nat, r: Option<Candidate>)
    requires forall i, j :: 0 <= i < j < |plan| ==> plan[i].task.id != plan[j].task.id
    requires n < |plan| && |cs| <= |plan| && forall i :: 0 <= i < |cs| ==> cs[i].task == plan[i].task
    requires r.None? ==> forall c :: c in cs ==> c.task.id != plan[n].task.id
    requires r.Some? ==> r.value in cs && r.value.task.id == plan[n].task.id
    ensures r == if n < |cs| then Some(cs[n]) else None
  {
    if r.Some? {
      var i :| 0 <= i < |cs| && cs[i] == r.value;
      assert i == n;
    }
  }

  lemma CandidateFound(tasks: set<Task>, v: View, plan: seq<PlanItem>, cs: seq<Candidate>, t: Task, r: Option<Candidate>)
    requires IsPlan(tasks, v, plan) && DistinctTasks(tasks) && t in tasks
    requires CandidatesOk(tasks, v, plan, MAX_CANDIDATES, cs)
    requires r.None? ==> forall c :: c in cs ==> c.task.id != t.id
    requires r.Some? ==> r.value in cs && r.value.task.id == t.id
    ensures r == if Projected(tasks, v, t) then Some(CandidateFor(tasks, v, t)) else None
  {
    var n := IndexOf(tasks, v, plan, t);
    PlanIdsDistinct(tasks, v, plan);
    LookupByIndex(plan, cs, n, r);
    RankIsPlanRank(tasks, v, plan, n);
    HeadIffFirstRound(tasks, v, plan, n);
  }

  /** `scheduler_explain_decision` for a trimmed task ID. */
  method ExplainDecision(snapshot: seq<Task>, v: View, id: string) returns (d: Decision)
    requires Distinct(snapshot) && DistinctTasks(Elements(snapshot))
    ensures d.InvalidTaskId? <==> id == ""
    ensures d.UnknownTask? <==> id != "" && forall t :: t in snapshot ==> t.id != id
    ensures forall t :: id != "" && t in snapshot && t.id == id ==> DecisionOk(QueuedTasks(snapshot), v, t, d)
  {
    if id == "" { return InvalidTaskId; }
    var found := FindTask(snapshot, id);
    if found.None? { return UnknownTask; }
    var task := found.value;
    assert forall t :: t in snapshot && t.id == id ==> t == task by {
      assert forall t :: t in snapshot ==> t in Elements(snapshot);
    }
    d := ExplainKnown(snapshot, v, task);
  }

  method ExplainKnown(snapshot: seq<Task>, v: View, task: Task) returns (d: Decision)
    requires Distinct(snapshot) && DistinctTasks(Elements(snapshot)) && task in snapshot
    ensures !d.InvalidTaskId? && !d.UnknownTask?
    ensures DecisionOk(QueuedTasks(snapshot), v, task, d)
  {
    var queued := QueuedOf(snapshot);
    ghost var tasks := QueuedTasks(snapshot);
    var key := KeyOf(task, v);
    var grouped := GroupQueuedTasks(queued, v);
    var items := if key in grouped then grouped[key] else [];
    ItemsFacts(tasks, v, grouped, task, items);
    var position := PositionIn(items, task.id);
    var cs := SchedulerCandidates(snapshot, v, MAX_CANDIDATES);
    ghost var plan := PendingTaskPlan(snapshot, v);
    var candidate := FindCandidate(cs, task.id);
    LookupFacts(snapshot, tasks, v, plan, cs, task, candidate);
    if candidate.None? && task.queued && items != [] {
      PositionFacts(tasks, v, task, items, position);
      var blocker := FindCandidate(cs, items[0].id);
      CandidateFound(tasks, v, plan, cs, items[0], blocker);
      return WaitingForQueue(|items|, position.GetOr(0), items[0], blocker);
    }
    if candidate.None? { return NotQueued(|items|); }
    return Decided(candidate.value);
  }

  lemma ItemsFacts(tasks: set<Task>, v: View, grouped: map<QueueKey, seq<Task>>, task: Task, items: seq<Task>)
    requires DistinctTasks(tasks) && Grouped(tasks, v, grouped)
    requires items == if KeyOf(task, v) in grouped then grouped[KeyOf(task, v)] else []
    ensures |items| == Size(tasks, v, KeyOf(task, v))
    ensures task in tasks ==> task in items
    ensures forall i :: 0 <= i < |items| ==>
              items[i] in tasks && KeyOf(items[i], v) == KeyOf(task, v) && Position(tasks, v, items[i]) == i
  {
    var k := KeyOf(task, v);
    if k in grouped {
      QueueLength(tasks, v, grouped, k);
      forall i | 0 <= i < |items|
        ensures items[i] in tasks && KeyOf(items[i], v) == k && Position(tasks, v, items[i]) == i
      {
        PositionIsIndex(tasks, v, grouped, k, i);
      }
    }
    if task in tasks {
      TaskHasSlot(tasks, v, grouped, task);
    }
  }

  lemma LookupFacts(snapshot: seq<Task>, tasks: set<Task>, v: View, plan: seq<PlanItem>, cs: seq<Candidate>,
                    t: Task, r: Option<Candidate>)
    requires DistinctTasks(Elements(snapshot)) && t in snapshot && tasks == QueuedTasks(snapshot)
    requires IsPlan(tasks, v, plan) && CandidatesOk(tasks, v, plan, MAX_CANDIDATES, cs)
    requires r.None? ==> forall c :: c in cs ==> c.task.id != t.id
    requires r.Some? ==> r.value in cs && r.value.task.id == t.id
    ensures r == if t in tasks && Projected(tasks, v, t) then Some(CandidateFor(tasks, v, t)) else None
  {
    if t in tasks {
      CandidateFound(tasks, v, plan, cs, t, r);
    } else {
      NoCandidateUnlessQueued(snapshot, tasks, v, plan, cs, t);
    }
  }

  lemma PositionFacts(tasks: set<Task>, v: View, task: Task, items: seq<Task>, position: Option<nat>)
    requires DistinctTasks(tasks) && task in tasks && task in items
    requires forall i :: 0 <= i < |items| ==> items[i] in tasks && Position(tasks, v, items[i]) == i
    requires position.None? ==> forall i :: 0 <= i < |items| ==> items[i].id != task.id
    requires position.Some? ==> 1 <= position.value <= |items| && items[position.value - 1].id == task.id
    ensures position == Some(Position(tasks, v, task) + 1)
  {
    var i :| 0 <= i < |items| && items[i] == task;
    assert position.Some?;
    assert items[position.value - 1] == task;
  }

  /** The first index + 1 whose item has the ID. */
  method PositionIn(items: seq<Task>, id: string) returns (position: Option<nat>)
    ensures position.None? ==> forall i :: 0 <= i < |items| ==> items[i].id != id
    ensures position.Some? ==> 1 <= position.value <= |items| && items[position.value - 1].id == id
  {
    for i := 0 to |items|
      invariant forall j :: 0 <= j < i ==> items[j].id != id
    {
      if items[i].id == id { return Some(i + 1); }
    }
    return None;
  }

  lemma NoCandidateUnlessQueued(snapshot: seq<Task>, tasks: set<Task>, v: View, plan: seq<PlanItem>, cs: seq<Candidate>, t: Task)
    requires DistinctTasks(Elements(snapshot)) && t in snapshot && !t.queued && tasks == QueuedTasks(snapshot)
    requires IsPlan(tasks, v, plan) && CandidatesOk(tasks, v, plan, MAX_CANDIDATES, cs)
    ensures forall c :: c in cs ==> c.task.id != t.id
  {
    forall i | 0 <= i < |cs|
      ensures cs[i].task.id != t.id
    {
      assert TasksOf(plan)[i] in Elements(TasksOf(plan));
      assert t in Elements(snapshot) && cs[i].task in Elements(snapshot);
    }
  }

  // ---------- The limit of the projection ----------

  /** Some queue head is told that it waits behind itself if and only if more than
      500 queues have work. */
  lemma SelfWaitExactly(tasks: set<Task>, v: View)
    requires DistinctTasks(tasks)
    ensures |Keys(tasks, v)| > 500 <==> exists t :: t in Heads(tasks, v) && !Projected(tasks, v, t)
  {
    var plan := PlanExists(tasks, v);
    KeysFitPlan(tasks, v, plan);
    if |Keys(tasks, v)| > MAX_CANDIDATES {
      HeadIffFirstRound(tasks, v, plan, MAX_CANDIDATES);
      RankIsPlanRank(tasks, v, plan, MAX_CANDIDATES);
    }
    forall t | t in Heads(tasks, v) && !Projected(tasks, v, t)
      ensures |Keys(tasks, v)| > MAX_CANDIDATES
    {
      var n := IndexOf(tasks, v, plan, t);
      HeadIffFirstRound(tasks, v, plan, n);
      RankIsPlanRank(tasks, v, plan, n);
    }
  }

  /** The decision such a head gets. */
  lemma UnprojectedHeadWaitsForItself(tasks: set<Task>, v: View, t: Task, d: Decision)
    requires DistinctTasks(tasks) && t in Heads(tasks, v) && DecisionOk(tasks, v, t, d)
    ensures !Projected(tasks, v, t) <==> d.WaitingForQueue? && d.head == t
  {
    if d.WaitingForQueue? {
      AheadIsLowerPosition(tasks, v, d.head, t);
    }
  }

  // ---------- A concrete input past the limit ----------

  function Unrouted(i: nat): Task {
    Task(seq(i, _ => 'x'), 0, i, None, None, true)
  }

  ghost function Unroutable(): set<Task> {
    set i: nat | i < 501 :: Unrouted(i)
  }

  /** 501 tasks without endpoint or bundle form 501 queues. */
  lemma UnroutableQueues()
    ensures DistinctTasks(Unroutable()) && |Keys(Unroutable(), View(0.0, map[]))| > MAX_CANDIDATES
  {
    var v := View(0.0, map[]);
    forall i: nat, j: nat | i != j
      ensures Unrouted(i).id != Unrouted(j).id
    {
      assert |Unrouted(i).id| == i && |Unrouted(j).id| == j;
    }
    var keys := seq(501, i requires 0 <= i < 501 => KeyOf(Unrouted(i), v));
    forall i, j | 0 <= i < j < 501
      ensures keys[i] != keys[j]
    {
      SameQueueExactly(Unrouted(i), Unrouted(j), v);
    }
    DistinctCardinality(keys);
    forall i | 0 <= i < 501
      ensures keys[i] in Keys(Unroutable(), v)
    {
      assert Unrouted(i) in Unroutable();
    }
    SubsetSmaller(Elements(keys), Keys(Unroutable(), v));
  }

  /** Some of these 501 tasks heads its queue and, by any decision the code may give it,
      is told to wait behind itself. */
  lemma TooManyQueuesExample() returns (t: Task)
    ensures DistinctTasks(Unroutable()) && t in Heads(Unroutable(), View(0.0, map[]))
    ensures !Projected(Unroutable(), View(0.0, map[]), t)
    ensures forall d :: DecisionOk(Unroutable(), View(0.0, map[]), t, d) ==> d.WaitingForQueue? && d.head == t
  {
    var tasks, v := Unroutable(), View(0.0, map[]);
    UnroutableQueues();
    SelfWaitExactly(tasks, v);
    t :| t in Heads(tasks, v) && !Projected(tasks, v, t);
    forall d | DecisionOk(tasks, v, t, d)
      ensures d.WaitingForQueue? && d.head == t
    {
      UnprojectedHeadWaitsForItself(tasks, v, t, d);
    }
  }
}
