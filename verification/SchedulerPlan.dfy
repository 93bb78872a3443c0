/** The fair-share admission plan: the greedy dispatch loop of `pending_task_plan`
    and the closed form it computes. */
module SchedulerPlan {
  import opened Sorting
  import opened SchedulerModel

  datatype Reason = OnlyRemainingBundle | LowestDispatchCount | HighestEffectivePriority | FifoTiebreak

  datatype PlanItem = PlanItem(
    task: Task,
    bundleId: string,
    basePriority: int,
    agingBonus: int,
    effectivePriority: int,
    round: nat,
    rank: nat,
    reason: Reason)

  // ---------- The closed form, without queues or counters ----------

  /** How many tasks of its own queue are ahead of `t`. */
  ghost function Position(tasks: set<Task>, v: View, t: Task): nat {
    |Below(QueueOrder(KeyOf(t, v), v.now), Members(tasks, v, KeyOf(t, v)), t)|
  }

  /** Position in the own queue first, then aged priority, then arrival. */
  ghost predicate PlanBefore(tasks: set<Task>, v: View, a: Task, b: Task) {
    || Position(tasks, v, a) < Position(tasks, v, b)
    || (Position(tasks, v, a) == Position(tasks, v, b) && Outranks(v.now, a, b))
  }

  function TasksOf(plan: seq<PlanItem>): seq<Task> {
    seq(|plan|, i requires 0 <= i < |plan| => plan[i].task)
  }

  /** Another queue still has work when `t` is chosen out of `left`. */
  ghost predicate HasRival(v: View, left: set<Task>, t: Task) {
    exists u :: u in left && KeyOf(u, v) != KeyOf(t, v)
  }

  /** `u` heads another queue that has been served as often as `t`'s. */
  ghost predicate IsPeer(tasks: set<Task>, v: View, left: set<Task>, t: Task, u: Task) {
    u in left && KeyOf(u, v) != KeyOf(t, v) && Position(tasks, v, u) == Position(tasks, v, t)
  }

  ghost predicate ReasonHolds(tasks: set<Task>, v: View, left: set<Task>, t: Task, reason: Reason) {
    match reason
    case OnlyRemainingBundle => !HasRival(v, left, t)
    case LowestDispatchCount => HasRival(v, left, t) && forall u :: !IsPeer(tasks, v, left, t, u)
    case HighestEffectivePriority =>
      && (exists u :: IsPeer(tasks, v, left, t, u))
      && forall u :: IsPeer(tasks, v, left, t, u) ==> Effective(u, v.now) < Effective(t, v.now)
    case FifoTiebreak =>
      exists u :: IsPeer(tasks, v, left, t, u) && Effective(u, v.now) == Effective(t, v.now)
  }

  /** Item number `i` of a plan, given the tasks planned before it. */
  ghost predicate ItemOk(tasks: set<Task>, v: View, before: set<Task>, i: nat, item: PlanItem) {
    && item.bundleId == SelectedBundle(item.task, v)
    && item.basePriority == item.task.priority
    && item.agingBonus == AgingBonus(item.task, v.now)
    && item.effectivePriority == Effective(item.task, v.now)
    && item.round == Position(tasks, v, item.task)
    && item.rank == i + 1
    && ReasonHolds(tasks, v, tasks - before, item.task, item.reason)
  }

  /** The whole plan: every queued task once, strictly sorted, correctly annotated. */
  ghost predicate IsPlan(tasks: set<Task>, v: View, plan: seq<PlanItem>) {
    && Elements(TasksOf(plan)) == tasks
    && (forall i, j :: 0 <= i < j < |plan| ==> PlanBefore(tasks, v, plan[i].task, plan[j].task))
    && ItemsOk(tasks, v, plan)
  }

  ghost function PlanOrder(tasks: set<Task>, v: View): (Task, Task) -> bool {
    (a, b) => PlanBefore(tasks, v, a, b)
  }

  lemma PlanOrderIsOrder(tasks: set<Task>, v: View)
    requires DistinctTasks(tasks)
    ensures StrictOrder(PlanOrder(tasks, v), tasks)
  {
  }

  /** The four reasons exclude one another. */
  lemma ReasonUnique(tasks: set<Task>, v: View, left: set<Task>, t: Task, a: Reason, b: Reason)
    requires ReasonHolds(tasks, v, left, t, a) && ReasonHolds(tasks, v, left, t, b)
    ensures a == b
  {
    assert forall u :: IsPeer(tasks, v, left, t, u) ==> HasRival(v, left, t);
  }

  lemma ItemUnique(tasks: set<Task>, v: View, before: set<Task>, i: nat, a: PlanItem, b: PlanItem)
    requires ItemOk(tasks, v, before, i, a) && ItemOk(tasks, v, before, i, b) && a.task == b.task
    ensures a == b
  {
    ReasonUnique(tasks, v, tasks - before, a.task, a.reason, b.reason);
  }

  /** A set of queued tasks admits only one plan, reasons included. */
  lemma PlanUnique(tasks: set<Task>, v: View, p: seq<PlanItem>, q: seq<PlanItem>)
    requires DistinctTasks(tasks) && IsPlan(tasks, v, p) && IsPlan(tasks, v, q)
    ensures p == q
  {
    PlanOrderIsOrder(tasks, v);
    SortedUnique(PlanOrder(tasks, v), TasksOf(p), TasksOf(q));
    assert |p| == |TasksOf(p)| == |q|;
    forall i | 0 <= i < |p|
      ensures p[i] == q[i]
    {
      assert TasksOf(p)[i] == TasksOf(q)[i];
      assert TasksOf(p[..i]) == TasksOf(p)[..i] == TasksOf(q)[..i] == TasksOf(q[..i]);
      ItemUnique(tasks, v, Elements(TasksOf(p[..i])), i, p[i], q[i]);
    }
  }

  // ---------- Every set of queued tasks has a plan ----------

  /** The reason to give for `t` when it is the least task of `left`. */
  ghost function ReasonFor(tasks: set<Task>, v: View, left: set<Task>, t: Task): Reason {
    if !HasRival(v, left, t) then OnlyRemainingBundle
    else if forall u :: !IsPeer(tasks, v, left, t, u) then LowestDispatchCount
    else if exists u :: IsPeer(tasks, v, left, t, u) && Effective(u, v.now) == Effective(t, v.now) then FifoTiebreak
    else HighestEffectivePriority
  }

  lemma ReasonForHolds(tasks: set<Task>, v: View, left: set<Task>, t: Task)
    requires forall u :: u in left && u != t ==> PlanBefore(tasks, v, t, u)
    ensures ReasonHolds(tasks, v, left, t, ReasonFor(tasks, v, left, t))
  {
    forall u | IsPeer(tasks, v, left, t, u)
      ensures Effective(u, v.now) <= Effective(t, v.now)
    {
      assert PlanBefore(tasks, v, t, u);
    }
  }

  ghost function ItemFor(tasks: set<Task>, v: View, sorted: seq<Task>, i: nat): PlanItem
    requires i < |sorted|
  {
    var t := sorted[i];
    PlanItem(t, SelectedBundle(t, v), t.priority, AgingBonus(t, v.now), Effective(t, v.now),
             Position(tasks, v, t), i + 1, ReasonFor(tasks, v, tasks - Elements(sorted[..i]), t))
  }

  lemma ItemForOk(tasks: set<Task>, v: View, sorted: seq<Task>, i: nat)
    requires Elements(sorted) == tasks && StrictlySorted(PlanOrder(tasks, v), sorted) && i < |sorted|
    ensures ItemOk(tasks, v, Elements(sorted[..i]), i, ItemFor(tasks, v, sorted, i))
  {
    var left := tasks - Elements(sorted[..i]);
    forall u | u in left && u != sorted[i]
      ensures PlanBefore(tasks, v, sorted[i], u)
    {
      assert u in Elements(sorted);
      RestIsAbove(PlanOrder(tasks, v), sorted, i, u);
    }
    ReasonForHolds(tasks, v, left, sorted[i]);
  }

  lemma PlanExists(tasks: set<Task>, v: View) returns (plan: seq<PlanItem>)
    requires DistinctTasks(tasks)
    ensures IsPlan(tasks, v, plan)
  {
    var listed := Enumeration(tasks);
    PlanOrderIsOrder(tasks, v);
    SortSorts(PlanOrder(tasks, v), listed);
    var sorted := Sort(PlanOrder(tasks, v), listed);
    plan := seq(|sorted|, i requires 0 <= i < |sorted| => ItemFor(tasks, v, sorted, i));
    assert TasksOf(plan) == sorted;
    forall i | 0 <= i < |plan|
      ensures ItemOk(tasks, v, Elements(TasksOf(plan[..i])), i, plan[i])
    {
      assert TasksOf(plan[..i]) == sorted[..i];
      ItemForOk(tasks, v, sorted, i);
    }
    forall i, j | 0 <= i < j < |plan|
      ensures PlanBefore(tasks, v, plan[i].task, plan[j].task)
    {
      assert PlanOrder(tasks, v)(sorted[i], sorted[j]);
    }
  }

  // ---------- Positions and queues ----------

  /** In a grouped queue, position is index. */
  lemma PositionIsIndex(tasks: set<Task>, v: View, queues: map<QueueKey, seq<Task>>, k: QueueKey, p: nat)
    requires DistinctTasks(tasks) && Grouped(tasks, v, queues) && k in queues && p < |queues[k]|
    ensures queues[k][p] in tasks && KeyOf(queues[k][p], v) == k
    ensures Position(tasks, v, queues[k][p]) == p
  {
    var s := queues[k];
    assert s[p] in Elements(s);
    AheadIsOrder(k, v.now, Members(tasks, v, k));
    RankInSorted(QueueOrder(k, v.now), s, p);
  }

  lemma TaskHasSlot(tasks: set<Task>, v: View, queues: map<QueueKey, seq<Task>>, t: Task)
    requires DistinctTasks(tasks) && Grouped(tasks, v, queues) && t in tasks
    ensures KeyOf(t, v) in queues && Position(tasks, v, t) < |queues[KeyOf(t, v)]|
    ensures queues[KeyOf(t, v)][Position(tasks, v, t)] == t
  {
    var k := KeyOf(t, v);
    assert t in Members(tasks, v, k);
    assert t in Elements(queues[k]);
    var p :| 0 <= p < |queues[k]| && queues[k][p] == t;
    PositionIsIndex(tasks, v, queues, k, p);
  }

  // ---------- The dispatch loop ----------

  /** `left` holds what remains of the queues after `counts` dispatches from each. */
  ghost predicate Served(queues: map<QueueKey, seq<Task>>, left: map<QueueKey, seq<Task>>, counts: map<QueueKey, nat>) {
    && counts.Keys == queues.Keys
    && (forall k :: k in queues ==> counts[k] <= |queues[k]|)
    && (forall k :: k in left <==> k in queues && counts[k] < |queues[k]|)
    && (forall k :: k in left ==> left[k] == queues[k][counts[k]..])
  }

  /** `min` over the dispatch counts and the queues that attain it. */
  method LeastServed(left: map<QueueKey, seq<Task>>, counts: map<QueueKey, nat>)
      returns (least: nat, candidates: set<QueueKey>)
    requires left.Keys != {} && left.Keys <= counts.Keys
    ensures candidates != {} && candidates <= left.Keys
    ensures forall k :: k in left ==> counts[k] >= least && (k in candidates <==> counts[k] == least)
  {
    var first :| first in left.Keys;
    least := counts[first];
    var todo := left.Keys - {first};
    while todo != {}
      invariant todo <= left.Keys
      invariant forall k :: k in left && k !in todo ==> counts[k] >= least
      invariant exists k :: k in left && counts[k] == least
    {
      var k :| k in todo;
      todo := todo - {k};
      if counts[k] < least {
        least := counts[k];
      }
    }
    candidates := set k | k in left && counts[k] == least;
  }

  ghost predicate HeadsDistinct(left: map<QueueKey, seq<Task>>, keys: set<QueueKey>) {
    && (forall k :: k in keys ==> k in left && left[k] != [])
    && forall j, k :: j in keys && k in keys && j != k ==> left[j][0].index != left[k][0].index
  }

  /** `min` over the candidate heads by (-effective priority, arrival). */
  method BestHead(left: map<QueueKey, seq<Task>>, candidates: set<QueueKey>, now: real) returns (best: QueueKey)
    requires candidates != {} && HeadsDistinct(left, candidates)
    ensures best in candidates
    ensures forall k :: k in candidates && k != best ==> Outranks(now, left[best][0], left[k][0])
  {
    best :| best in candidates;
    var todo := candidates - {best};
    while todo != {}
      invariant todo <= candidates && best in candidates - todo
      invariant forall k :: k in candidates - todo && k != best ==> Outranks(now, left[best][0], left[k][0])
    {
      var k :| k in todo;
      todo := todo - {k};
      if !Outranks(now, left[best][0], left[k][0]) {
        best := k;
      }
    }
  }

  lemma SingletonSet<T>(s: set<T>, x: T)
    requires x in s
    ensures |s| == 1 <==> s == {x}
  {
    if |s| == 1 {
      assert |s - {x}| == 0;
    }
  }

  /** `selection_reason`. The last branch of the source is never taken: the chosen
      head is always among those of highest effective priority. */
  method SelectionReason(left: map<QueueKey, seq<Task>>, candidates: set<QueueKey>, next: QueueKey, now: real)
      returns (reason: Reason)
    requires candidates <= left.Keys && HeadsDistinct(left, left.Keys) && next in candidates
    requires forall k :: k in candidates && k != next ==> Outranks(now, left[next][0], left[k][0])
    ensures Explains(left, candidates, next, now, reason)
  {
    SingletonSet(left.Keys, next);
    SingletonSet(candidates, next);
    if |left.Keys| == 1 { return OnlyRemainingBundle; }
    if |candidates| == 1 { return LowestDispatchCount; }
    var highest := set k | k in candidates
                           && forall j :: j in candidates ==> Effective(left[j][0], now) <= Effective(left[k][0], now);
    assert next in highest;
    SingletonSet(highest, next);
    assert forall k :: k in candidates && Effective(left[k][0], now) == Effective(left[next][0], now) ==> k in highest;
    if |highest| == 1 { return HighestEffectivePriority; }
    assert exists k :: k in highest && k != next by {
      assert highest != {next};
    }
    return FifoTiebreak;
  }

  // ---------- What the loop keeps ----------

  /** A task is planned exactly when its position is below its queue's count. */
  ghost predicate Dispatched(tasks: set<Task>, v: View, counts: map<QueueKey, nat>, done: set<Task>) {
    && done <= tasks
    && forall t :: t in tasks ==> KeyOf(t, v) in counts && (t in done <==> Position(tasks, v, t) < counts[KeyOf(t, v)])
  }

  ghost predicate Ordered(tasks: set<Task>, v: View, plan: seq<PlanItem>) {
    && (forall i, j :: 0 <= i < j < |plan| ==> PlanBefore(tasks, v, plan[i].task, plan[j].task))
    && forall i, u :: 0 <= i < |plan| && u in tasks - Elements(TasksOf(plan)) ==> PlanBefore(tasks, v, plan[i].task, u)
  }

  lemma HeadFacts(tasks: set<Task>, v: View, queues: map<QueueKey, seq<Task>>,
                  left: map<QueueKey, seq<Task>>, counts: map<QueueKey, nat>, k: QueueKey)
    requires DistinctTasks(tasks) && Grouped(tasks, v, queues) && Served(queues, left, counts) && k in left
    ensures left[k] != [] && left[k][0] in tasks && KeyOf(left[k][0], v) == k
    ensures Position(tasks, v, left[k][0]) == counts[k]
  {
    PositionIsIndex(tasks, v, queues, k, counts[k]);
  }

  /** A task not planned yet belongs to a live queue and is no earlier than its head. */
  lemma LeftFacts(tasks: set<Task>, v: View, queues: map<QueueKey, seq<Task>>,
                  left: map<QueueKey, seq<Task>>, counts: map<QueueKey, nat>, done: set<Task>, u: Task)
    requires DistinctTasks(tasks) && Grouped(tasks, v, queues) && Served(queues, left, counts)
    requires Dispatched(tasks, v, counts, done) && u in tasks - done
    ensures KeyOf(u, v) in left && counts[KeyOf(u, v)] <= Position(tasks, v, u)
    ensures counts[KeyOf(u, v)] == Position(tasks, v, u) ==> left[KeyOf(u, v)] != [] && u == left[KeyOf(u, v)][0]
  {
    TaskHasSlot(tasks, v, queues, u);
  }

  lemma HeadsAreDistinct(tasks: set<Task>, v: View, queues: map<QueueKey, seq<Task>>,
                         left: map<QueueKey, seq<Task>>, counts: map<QueueKey, nat>)
    requires DistinctTasks(tasks) && Grouped(tasks, v, queues) && Served(queues, left, counts)
    ensures HeadsDistinct(left, left.Keys)
  {
    forall k | k in left
      ensures left[k] != [] && left[k][0] in tasks && KeyOf(left[k][0], v) == k
    {
      HeadFacts(tasks, v, queues, left, counts, k);
    }
  }

  /** The choice of one loop iteration. */
  ghost predicate Choice(left: map<QueueKey, seq<Task>>, counts: map<QueueKey, nat>, now: real,
                         least: nat, candidates: set<QueueKey>, next: QueueKey)
    requires left.Keys <= counts.Keys
  {
    && candidates <= left.Keys && next in candidates && HeadsDistinct(left, left.Keys)
    && (forall k :: k in left ==> counts[k] >= least && (k in candidates <==> counts[k] == least))
    && (forall k :: k in candidates && k != next ==> Outranks(now, left[next][0], left[k][0]))
  }

  /** The greedy choice is the least remaining task in plan order. */
  lemma ChosenIsLeast(tasks: set<Task>, v: View, queues: map<QueueKey, seq<Task>>,
                      left: map<QueueKey, seq<Task>>, counts: map<QueueKey, nat>, done: set<Task>,
                      least: nat, candidates: set<QueueKey>, next: QueueKey)
    requires DistinctTasks(tasks) && Grouped(tasks, v, queues) && Served(queues, left, counts)
    requires Dispatched(tasks, v, counts, done) && Choice(left, counts, v.now, least, candidates, next)
    ensures left[next][0] in tasks - done && Position(tasks, v, left[next][0]) == least
    ensures forall u :: u in tasks - done && u != left[next][0] ==> PlanBefore(tasks, v, left[next][0], u)
  {
    HeadFacts(tasks, v, queues, left, counts, next);
    forall u | u in tasks - done && u != left[next][0]
      ensures PlanBefore(tasks, v, left[next][0], u)
    {
      LeftFacts(tasks, v, queues, left, counts, done, u);
    }
  }

  /** The peers of the chosen task are the heads of the other candidates. */
  lemma PeersAreHeads(tasks: set<Task>, v: View, queues: map<QueueKey, seq<Task>>,
                      left: map<QueueKey, seq<Task>>, counts: map<QueueKey, nat>, done: set<Task>,
                      least: nat, candidates: set<QueueKey>, next: QueueKey)
    requires DistinctTasks(tasks) && Grouped(tasks, v, queues) && Served(queues, left, counts)
    requires Dispatched(tasks, v, counts, done) && Choice(left, counts, v.now, least, candidates, next)
    ensures forall k :: k in candidates && k != next ==> IsPeer(tasks, v, tasks - done, left[next][0], left[k][0])
    ensures forall u :: IsPeer(tasks, v, tasks - done, left[next][0], u) ==>
              KeyOf(u, v) in candidates && KeyOf(u, v) != next && u == left[KeyOf(u, v)][0]
    ensures HasRival(v, tasks - done, left[next][0]) <==> left.Keys != {next}
  {
    HeadFacts(tasks, v, queues, left, counts, next);
    forall k | k in left.Keys && k != next
      ensures left[k][0] in tasks - done && KeyOf(left[k][0], v) == k && Position(tasks, v, left[k][0]) == counts[k]
    {
      HeadFacts(tasks, v, queues, left, counts, k);
    }
    forall u | IsPeer(tasks, v, tasks - done, left[next][0], u)
      ensures KeyOf(u, v) in candidates && KeyOf(u, v) != next && u == left[KeyOf(u, v)][0]
    {
      LeftFacts(tasks, v, queues, left, counts, done, u);
    }
    RivalsAreQueues(tasks, v, queues, left, counts, done, next);
  }

  lemma RivalsAreQueues(tasks: set<Task>, v: View, queues: map<QueueKey, seq<Task>>,
                        left: map<QueueKey, seq<Task>>, counts: map<QueueKey, nat>, done: set<Task>, next: QueueKey)
    requires DistinctTasks(tasks) && Grouped(tasks, v, queues) && Served(queues, left, counts)
    requires Dispatched(tasks, v, counts, done) && next in left && left[next] != []
    ensures HasRival(v, tasks - done, left[next][0]) <==> left.Keys != {next}
  {
    HeadFacts(tasks, v, queues, left, counts, next);
    if left.Keys != {next} {
      var k :| k in left.Keys && k != next;
      HeadFacts(tasks, v, queues, left, counts, k);
      assert left[k][0] in tasks - done;
    }
    forall u | u in tasks - done
      ensures KeyOf(u, v) in left
    {
      LeftFacts(tasks, v, queues, left, counts, done, u);
    }
  }

  /** The queues after popping the head of `next`. */
  function Popped(left: map<QueueKey, seq<Task>>, next: QueueKey): map<QueueKey, seq<Task>>
    requires next in left && left[next] != []
  {
    if left[next][1..] == [] then left - {next} else left[next := left[next][1..]]
  }

  function Counted(counts: map<QueueKey, nat>, next: QueueKey): map<QueueKey, nat>
    requires next in counts
  {
    counts[next := counts[next] + 1]
  }

  lemma PopKeepsServed(queues: map<QueueKey, seq<Task>>, left: map<QueueKey, seq<Task>>,
                       counts: map<QueueKey, nat>, next: QueueKey)
    requires Served(queues, left, counts) && next in left && left[next] != []
    ensures Served(queues, Popped(left, next), Counted(counts, next))
  {
    assert left[next][1..] == queues[next][counts[next] + 1..];
  }

  /** Within the popped queue only its head has the head's position. */
  lemma OnlyHeadAtCount(tasks: set<Task>, v: View, queues: map<QueueKey, seq<Task>>,
                        left: map<QueueKey, seq<Task>>, counts: map<QueueKey, nat>, next: QueueKey, t: Task)
    requires DistinctTasks(tasks) && Grouped(tasks, v, queues) && Served(queues, left, counts) && next in left
    requires left[next] != [] && t in tasks && KeyOf(t, v) == next
    ensures t == left[next][0] <==> Position(tasks, v, t) == counts[next]
  {
    HeadFacts(tasks, v, queues, left, counts, next);
    TaskHasSlot(tasks, v, queues, t);
  }

  lemma DispatchedAdd(tasks: set<Task>, v: View, counts: map<QueueKey, nat>, done: set<Task>, next: QueueKey, head: Task)
    requires Dispatched(tasks, v, counts, done) && next in counts && head in tasks && KeyOf(head, v) == next
    requires forall t :: t in tasks && KeyOf(t, v) == next ==> (t == head <==> Position(tasks, v, t) == counts[next])
    ensures Dispatched(tasks, v, Counted(counts, next), done + {head})
  {
  }

  lemma PopKeepsDispatched(tasks: set<Task>, v: View, queues: map<QueueKey, seq<Task>>,
                           left: map<QueueKey, seq<Task>>, counts: map<QueueKey, nat>, done: set<Task>, next: QueueKey)
    requires DistinctTasks(tasks) && Grouped(tasks, v, queues) && Served(queues, left, counts) && next in left
    requires Dispatched(tasks, v, counts, done) && left[next] != []
    ensures Dispatched(tasks, v, Counted(counts, next), done + {left[next][0]})
  {
    HeadFacts(tasks, v, queues, left, counts, next);
    forall t | t in tasks && KeyOf(t, v) == next
      ensures t == left[next][0] <==> Position(tasks, v, t) == counts[next]
    {
      OnlyHeadAtCount(tasks, v, queues, left, counts, next, t);
    }
    DispatchedAdd(tasks, v, counts, done, next, left[next][0]);
  }

  lemma TasksOfAppend(plan: seq<PlanItem>, item: PlanItem)
    ensures TasksOf(plan + [item]) == TasksOf(plan) + [item.task]
    ensures Elements(TasksOf(plan + [item])) == Elements(TasksOf(plan)) + {item.task}
  {
  }

  ghost predicate ItemsOk(tasks: set<Task>, v: View, plan: seq<PlanItem>) {
    forall i :: 0 <= i < |plan| ==> ItemOk(tasks, v, Elements(TasksOf(plan[..i])), i, plan[i])
  }

  lemma ItemsAppend(tasks: set<Task>, v: View, plan: seq<PlanItem>, item: PlanItem)
    requires ItemsOk(tasks, v, plan) && ItemOk(tasks, v, Elements(TasksOf(plan)), |plan|, item)
    ensures ItemsOk(tasks, v, plan + [item])
  {
    var longer := plan + [item];
    forall i | 0 <= i < |longer|
      ensures ItemOk(tasks, v, Elements(TasksOf(longer[..i])), i, longer[i])
    {
      assert longer[..i] == plan[..i];
      assert plan[..|plan|] == plan;
    }
  }

  lemma OrderedAppend(tasks: set<Task>, v: View, plan: seq<PlanItem>, item: PlanItem)
    requires Ordered(tasks, v, plan) && item.task in tasks - Elements(TasksOf(plan))
    requires forall u :: u in tasks - Elements(TasksOf(plan)) && u != item.task ==> PlanBefore(tasks, v, item.task, u)
    ensures Ordered(tasks, v, plan + [item])
  {
    TasksOfAppend(plan, item);
    var longer := plan + [item];
    forall i, u | 0 <= i < |longer| && u in tasks - Elements(TasksOf(longer))
      ensures PlanBefore(tasks, v, longer[i].task, u)
    {
      assert u in tasks - Elements(TasksOf(plan)) && u != item.task;
      if i < |plan| {
        assert PlanBefore(tasks, v, plan[i].task, u);
      }
    }
  }

  // ---------- The method ----------

  ghost predicate Explains(left: map<QueueKey, seq<Task>>, candidates: set<QueueKey>, next: QueueKey, now: real, reason: Reason)
    requires next in left && candidates <= left.Keys && HeadsDistinct(left, left.Keys)
  {
    && (reason == OnlyRemainingBundle <==> left.Keys == {next})
    && (reason == LowestDispatchCount <==> left.Keys != {next} && candidates == {next})
    && (reason == FifoTiebreak <==>
          exists k :: k in candidates && k != next && Effective(left[k][0], now) == Effective(left[next][0], now))
  }

  lemma ChoiceIsSound(tasks: set<Task>, v: View, queues: map<QueueKey, seq<Task>>,
                      left: map<QueueKey, seq<Task>>, counts: map<QueueKey, nat>, done: set<Task>,
                      least: nat, candidates: set<QueueKey>, next: QueueKey, reason: Reason, planned: nat)
    requires DistinctTasks(tasks) && Grouped(tasks, v, queues) && Served(queues, left, counts)
    requires Dispatched(tasks, v, counts, done) && Choice(left, counts, v.now, least, candidates, next)
    requires Explains(left, candidates, next, v.now, reason)
    ensures left[next] != [] && left[next][0] in tasks - done
    ensures ItemOk(tasks, v, done, planned, MakeItem(left[next][0], v, least, planned, reason))
    ensures forall u :: u in tasks - done && u != left[next][0] ==> PlanBefore(tasks, v, left[next][0], u)
  {
    ChosenIsLeast(tasks, v, queues, left, counts, done, least, candidates, next);
    PeersAreHeads(tasks, v, queues, left, counts, done, least, candidates, next);
    ReasonMeaning(tasks, v, left, done, candidates, next, reason);
    MadeItemOk(tasks, v, done, planned, left[next][0], least, reason);
  }

  lemma MadeItemOk(tasks: set<Task>, v: View, done: set<Task>, planned: nat, task: Task, least: nat, reason: Reason)
    requires Position(tasks, v, task) == least && ReasonHolds(tasks, v, tasks - done, task, reason)
    ensures ItemOk(tasks, v, done, planned, MakeItem(task, v, least, planned, reason))
  {
  }

  /** What `selection_reason` looked at, read off the remaining tasks instead. */
  lemma ReasonMeaning(tasks: set<Task>, v: View, left: map<QueueKey, seq<Task>>, done: set<Task>,
                      candidates: set<QueueKey>, next: QueueKey, reason: Reason)
    requires candidates <= left.Keys && next in candidates && HeadsDistinct(left, left.Keys)
    requires forall k :: k in candidates && k != next ==> Outranks(v.now, left[next][0], left[k][0])
    requires forall k :: k in candidates && k != next ==> IsPeer(tasks, v, tasks - done, left[next][0], left[k][0])
    requires forall u :: IsPeer(tasks, v, tasks - done, left[next][0], u) ==>
              KeyOf(u, v) in candidates && KeyOf(u, v) != next && u == left[KeyOf(u, v)][0]
    requires HasRival(v, tasks - done, left[next][0]) <==> left.Keys != {next}
    requires Explains(left, candidates, next, v.now, reason)
    ensures ReasonHolds(tasks, v, tasks - done, left[next][0], reason)
  {
    var t := left[next][0];
    if reason == FifoTiebreak {
      var k :| k in candidates && k != next && Effective(left[k][0], v.now) == Effective(t, v.now);
      assert IsPeer(tasks, v, tasks - done, t, left[k][0]);
    } else if reason == HighestEffectivePriority {
      var k :| k in candidates && k != next;
      assert IsPeer(tasks, v, tasks - done, t, left[k][0]);
    }
  }

  function MakeItem(task: Task, v: View, least: nat, planned: nat, reason: Reason): PlanItem {
    var bonus := AgingBonus(task, v.now);
    PlanItem(task, SelectedBundle(task, v), task.priority, bonus, task.priority + bonus, least, planned + 1, reason)
  }

  /** The choice and its explanation. */
  method ChooseNext(left: map<QueueKey, seq<Task>>, counts: map<QueueKey, nat>, now: real)
      returns (least: nat, ghost candidates: set<QueueKey>, next: QueueKey, reason: Reason)
    requires left.Keys != {} && left.Keys <= counts.Keys && HeadsDistinct(left, left.Keys)
    ensures Choice(left, counts, now, least, candidates, next)
    ensures Explains(left, candidates, next, now, reason)
  {
    var dispatchCandidates;
    least, dispatchCandidates := LeastServed(left, counts);
    candidates := dispatchCandidates;
    next := BestHead(left, dispatchCandidates, now);
    reason := SelectionReason(left, dispatchCandidates, next, now);
  }

  /** One plan entry. */
  method DispatchNext(left: map<QueueKey, seq<Task>>, counts: map<QueueKey, nat>, v: View, planned: nat,
                      ghost tasks: set<Task>, ghost queues: map<QueueKey, seq<Task>>, ghost done: set<Task>)
      returns (item: PlanItem, next: QueueKey)
    requires DistinctTasks(tasks) && Grouped(tasks, v, queues) && Served(queues, left, counts)
    requires Dispatched(tasks, v, counts, done) && left.Keys != {}
    ensures next in left && left[next] != [] && item.task == left[next][0]
    ensures item.task in tasks - done && ItemOk(tasks, v, done, planned, item)
    ensures forall u :: u in tasks - done && u != item.task ==> PlanBefore(tasks, v, item.task, u)
  {
    HeadsAreDistinct(tasks, v, queues, left, counts);
    var least, candidates, chosen, reason := ChooseNext(left, counts, v.now);
    next := chosen;
    item := MakeItem(left[next][0], v, least, planned, reason);
    ChoiceIsSound(tasks, v, queues, left, counts, done, least, candidates, next, reason, planned);
  }

  /** `pending_task_plan` on the queued tasks of a snapshot. */
  method PendingTaskPlan(snapshot: seq<Task>, v: View) returns (plan: seq<PlanItem>)
    requires Distinct(snapshot) && DistinctTasks(Elements(snapshot))
    ensures IsPlan(QueuedTasks(snapshot), v, plan)
  {
    var queued := QueuedOf(snapshot);
    ghost var tasks := QueuedTasks(snapshot);
    var left := GroupQueuedTasks(queued, v);
    ghost var queues := left;
    var counts: map<QueueKey, nat> := map k | k in left :: 0;
    plan := [];
    LoopStarts(tasks, v, queues, counts);
    while left.Keys != {}
      invariant Served(queues, left, counts)
      invariant Dispatched(tasks, v, counts, Elements(TasksOf(plan)))
      invariant Ordered(tasks, v, plan)
      invariant ItemsOk(tasks, v, plan)
      decreases tasks - Elements(TasksOf(plan))
    {
      ghost var done := Elements(TasksOf(plan));
      var item, next := DispatchNext(left, counts, v, |plan|, tasks, queues, done);
      PopKeepsServed(queues, left, counts, next);
      PopKeepsDispatched(tasks, v, queues, left, counts, done, next);
      OrderedAppend(tasks, v, plan, item);
      ItemsAppend(tasks, v, plan, item);
      TasksOfAppend(plan, item);
      plan := plan + [item];
      left := Popped(left, next);
      counts := Counted(counts, next);
    }
    LoopEnds(tasks, v, queues, left, counts, Elements(TasksOf(plan)));
  }

  lemma LoopStarts(tasks: set<Task>, v: View, queues: map<QueueKey, seq<Task>>, counts: map<QueueKey, nat>)
    requires DistinctTasks(tasks) && Grouped(tasks, v, queues)
    requires counts == map k | k in queues :: 0
    ensures Served(queues, queues, counts) && Dispatched(tasks, v, counts, {})
  {
    forall k | k in queues
      ensures |queues[k]| > 0
    {
      assert Members(tasks, v, k) != {};
      var t :| t in Members(tasks, v, k);
      assert t in Elements(queues[k]);
    }
    forall t | t in tasks
      ensures KeyOf(t, v) in counts
    {
      TaskHasSlot(tasks, v, queues, t);
    }
  }

  lemma LoopEnds(tasks: set<Task>, v: View, queues: map<QueueKey, seq<Task>>,
                 left: map<QueueKey, seq<Task>>, counts: map<QueueKey, nat>, done: set<Task>)
    requires DistinctTasks(tasks) && Grouped(tasks, v, queues) && Served(queues, left, counts)
    requires Dispatched(tasks, v, counts, done) && left.Keys == {}
    ensures done == tasks
  {
    forall t | t in tasks
      ensures t in done
    {
      TaskHasSlot(tasks, v, queues, t);
    }
  }

  method QueuedOf(snapshot: seq<Task>) returns (queued: seq<Task>)
    requires Distinct(snapshot)
    ensures Distinct(queued) && Elements(queued) == QueuedTasks(snapshot)
  {
    queued := [];
    for i := 0 to |snapshot|
      invariant Distinct(queued)
      invariant forall t :: t in queued <==> t in snapshot[..i] && t.queued
    {
      if snapshot[i].queued {
        queued := queued + [snapshot[i]];
      }
    }
  }
}
