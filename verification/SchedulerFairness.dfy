/** Fairness of every admission plan, derived from the closed form alone. */
module SchedulerFairness {
  import opened Sorting
  import opened SchedulerModel
  import opened SchedulerPlan

  ghost function Keys(tasks: set<Task>, v: View): set<QueueKey> {
    set t | t in tasks :: KeyOf(t, v)
  }

  ghost function Size(tasks: set<Task>, v: View, k: QueueKey): nat {
    |Members(tasks, v, k)|
  }

  /** The tasks planned in the first `n` entries. */
  ghost function Prefix(plan: seq<PlanItem>, n: nat): set<Task>
    requires n <= |plan|
  {
    set i | 0 <= i < n :: plan[i].task
  }

  /** How often queue `k` is served in the first `n` entries. */
  ghost function ServedIn(plan: seq<PlanItem>, v: View, n: nat, k: QueueKey): nat
    requires n <= |plan|
  {
    |Members(Prefix(plan, n), v, k)|
  }

  function Min(a: nat, b: nat): nat {
    if a <= b then a else b
  }

  // ---------- Order inside a queue is order of positions ----------

  lemma AheadIsLowerPosition(tasks: set<Task>, v: View, a: Task, b: Task)
    requires DistinctTasks(tasks) && a in tasks && b in tasks && KeyOf(a, v) == KeyOf(b, v)
    ensures Ahead(KeyOf(a, v), v.now, a, b) <==> Position(tasks, v, a) < Position(tasks, v, b)
    ensures a != b ==> Position(tasks, v, a) != Position(tasks, v, b)
  {
    if a != b {
      PositionRises(tasks, v, a, b);
      PositionRises(tasks, v, b, a);
    }
  }

  lemma PositionRises(tasks: set<Task>, v: View, a: Task, b: Task)
    requires DistinctTasks(tasks) && a in tasks && b in tasks && KeyOf(a, v) == KeyOf(b, v)
    ensures Ahead(KeyOf(a, v), v.now, a, b) ==> Position(tasks, v, a) < Position(tasks, v, b)
  {
    var k := KeyOf(a, v);
    var lt, all := QueueOrder(k, v.now), Members(tasks, v, k);
    if lt(a, b) {
      AheadIsOrder(k, v.now, all);
      assert a in Below(lt, all, b) && a !in Below(lt, all, a);
      SubsetSmaller(Below(lt, all, a), Below(lt, all, b));
    }
  }

  // ---------- Queues as sequences ----------

  ghost function QueueSeq(tasks: set<Task>, v: View, k: QueueKey): seq<Task> {
    Sort(QueueOrder(k, v.now), Enumerate(Members(tasks, v, k)))
  }

  /** Every position below the queue's size is held by a task. */
  lemma TaskAt(tasks: set<Task>, v: View, k: QueueKey, p: nat) returns (t: Task)
    requires DistinctTasks(tasks) && p < Size(tasks, v, k)
    ensures t in tasks && KeyOf(t, v) == k && Position(tasks, v, t) == p
  {
    var all := Members(tasks, v, k);
    var lt := QueueOrder(k, v.now);
    AheadIsOrder(k, v.now, all);
    SortSorts(lt, Enumerate(all));
    DistinctCardinality(Enumerate(all));
    var s := QueueSeq(tasks, v, k);
    t := s[p];
    assert t in Elements(s);
    RankInSorted(lt, s, p);
  }

  // ---------- Prefixes of a plan ----------

  /** Plan order is the order of plan indexes. */
  lemma IndexOrder(tasks: set<Task>, v: View, plan: seq<PlanItem>, i: nat, n: nat)
    requires IsPlan(tasks, v, plan) && i < |plan| && n < |plan| && DistinctTasks(tasks)
    ensures plan[i].task in tasks && plan[n].task in tasks
    ensures PlanBefore(tasks, v, plan[i].task, plan[n].task) <==> i < n
    ensures plan[i].task == plan[n].task <==> i == n
  {
    var order := TasksOf(plan);
    assert order[i] in Elements(order) && order[n] in Elements(order);
    PlanOrderIsOrder(tasks, v);
    assert !PlanOrder(tasks, v)(order[n], order[n]);
    if i > n {
      assert PlanBefore(tasks, v, plan[n].task, plan[i].task);
    }
  }

  lemma PrefixMembers(tasks: set<Task>, v: View, plan: seq<PlanItem>, n: nat)
    requires IsPlan(tasks, v, plan) && n < |plan| && DistinctTasks(tasks)
    ensures plan[n].task in tasks && plan[n].task !in Prefix(plan, n)
    ensures forall t :: t in tasks ==> (t in Prefix(plan, n) <==> PlanBefore(tasks, v, t, plan[n].task))
  {
    IndexOrder(tasks, v, plan, n, n);
    forall t | t in tasks
      ensures t in Prefix(plan, n) <==> PlanBefore(tasks, v, t, plan[n].task)
    {
      assert t in Elements(TasksOf(plan));
      var i :| 0 <= i < |plan| && TasksOf(plan)[i] == t;
      InPrefixIffBefore(tasks, v, plan, i, n);
    }
    InPrefixIffBefore(tasks, v, plan, n, n);
  }

  lemma InPrefixIffBefore(tasks: set<Task>, v: View, plan: seq<PlanItem>, i: nat, n: nat)
    requires IsPlan(tasks, v, plan) && i < |plan| && n < |plan| && DistinctTasks(tasks)
    ensures plan[i].task in Prefix(plan, n) <==> PlanBefore(tasks, v, plan[i].task, plan[n].task)
  {
    IndexOrder(tasks, v, plan, i, n);
    forall j | 0 <= j < n && plan[j].task == plan[i].task
      ensures i < n
    {
      IndexOrder(tasks, v, plan, j, i);
    }
  }

  /** `fair_share_round` is the number of earlier dispatches from the same queue. */
  lemma RoundCountsDispatches(tasks: set<Task>, v: View, plan: seq<PlanItem>, n: nat)
    requires IsPlan(tasks, v, plan) && n < |plan| && DistinctTasks(tasks)
    ensures plan[n].round == Position(tasks, v, plan[n].task) == ServedIn(plan, v, n, KeyOf(plan[n].task, v))
  {
    var t := plan[n].task;
    var k := KeyOf(t, v);
    PrefixMembers(tasks, v, plan, n);
    assert ItemOk(tasks, v, Elements(TasksOf(plan[..n])), n, plan[n]);
    PrefixInTasks(tasks, v, plan, n);
    forall u | u in tasks && KeyOf(u, v) == k
      ensures u in Prefix(plan, n) <==> u in Below(QueueOrder(k, v.now), Members(tasks, v, k), t)
    {
      AheadIsLowerPosition(tasks, v, u, t);
    }
    assert Members(Prefix(plan, n), v, k) == Below(QueueOrder(k, v.now), Members(tasks, v, k), t);
  }

  lemma PrefixInTasks(tasks: set<Task>, v: View, plan: seq<PlanItem>, n: nat)
    requires IsPlan(tasks, v, plan) && n <= |plan|
    ensures Prefix(plan, n) <= tasks
  {
    forall i | 0 <= i < n
      ensures plan[i].task in tasks
    {
      assert TasksOf(plan)[i] in Elements(TasksOf(plan));
    }
  }

  lemma ServedGrows(plan: seq<PlanItem>, v: View, i: nat, n: nat, k: QueueKey)
    requires i <= n <= |plan|
    ensures Prefix(plan, i) <= Prefix(plan, n) && ServedIn(plan, v, i, k) <= ServedIn(plan, v, n, k)
    ensures i < n && plan[i].task !in Prefix(plan, i) && KeyOf(plan[i].task, v) == k ==>
              ServedIn(plan, v, i, k) < ServedIn(plan, v, n, k)
  {
    var mine, whole := Members(Prefix(plan, i), v, k), Members(Prefix(plan, n), v, k);
    SubsetSmaller(mine, whole);
    if i < n && plan[i].task !in Prefix(plan, i) && KeyOf(plan[i].task, v) == k {
      assert plan[i].task in Prefix(plan, n);
      assert plan[i].task in whole && plan[i].task !in mine;
      assert mine != whole;
    }
  }

  /** In every prefix, exactly the first `ServedIn` tasks of each queue are planned. */
  lemma PrefixIsInitial(tasks: set<Task>, v: View, plan: seq<PlanItem>, n: nat, t: Task)
    requires IsPlan(tasks, v, plan) && n <= |plan| && DistinctTasks(tasks) && t in tasks
    ensures t in Prefix(plan, n) <==> Position(tasks, v, t) < ServedIn(plan, v, n, KeyOf(t, v))
  {
    var i := IndexOf(tasks, v, plan, t);
    RoundCountsDispatches(tasks, v, plan, i);
    if i < n {
      ServedGrows(plan, v, i, n, KeyOf(t, v));
    } else {
      ServedGrows(plan, v, n, i, KeyOf(t, v));
    }
  }

  lemma IndexOf(tasks: set<Task>, v: View, plan: seq<PlanItem>, t: Task) returns (i: nat)
    requires IsPlan(tasks, v, plan) && DistinctTasks(tasks) && t in tasks
    ensures i < |plan| && plan[i].task == t && t !in Prefix(plan, i)
    ensures forall n :: i < n <= |plan| ==> t in Prefix(plan, n)
  {
    assert t in Elements(TasksOf(plan));
    i :| 0 <= i < |plan| && TasksOf(plan)[i] == t;
    PrefixMembers(tasks, v, plan, i);
    assert plan[i].task == t;
  }

  /** Requests on one endpoint are planned in arrival order, whatever their priorities. */
  lemma EndpointOrder(tasks: set<Task>, v: View, plan: seq<PlanItem>, i: nat, j: nat)
    requires IsPlan(tasks, v, plan) && i < |plan| && j < |plan| && DistinctTasks(tasks)
    requires plan[i].task.endpoint.Some? && plan[i].task.endpoint == plan[j].task.endpoint
    ensures i < j <==> plan[i].task.index < plan[j].task.index
  {
    IndexOrder(tasks, v, plan, i, j);
    AheadIsLowerPosition(tasks, v, plan[i].task, plan[j].task);
    AheadIsLowerPosition(tasks, v, plan[j].task, plan[i].task);
  }

  /** Aging in the plan: among tasks of one bundle queue, equal base priorities keep
      arrival order, and ten minutes of waiting beat any later task under a minute old
      that is at most a hundred points higher, and no other. */
  lemma BundleOrder(tasks: set<Task>, v: View, plan: seq<PlanItem>, i: nat, j: nat)
    requires IsPlan(tasks, v, plan) && i < |plan| && j < |plan| && DistinctTasks(tasks)
    requires KeyOf(plan[i].task, v).BundleQueue? && KeyOf(plan[i].task, v) == KeyOf(plan[j].task, v)
    requires plan[i].task.createdAt.Some? && plan[j].task.createdAt.Some?
    requires plan[i].task.index < plan[j].task.index
    requires plan[i].task.createdAt.value <= plan[j].task.createdAt.value
    ensures plan[i].task.priority == plan[j].task.priority ==> i < j
    ensures v.now - plan[i].task.createdAt.value >= 600.0 && v.now - plan[j].task.createdAt.value < 60.0 ==>
              (i < j <==> plan[j].task.priority <= plan[i].task.priority + 100)
  {
    var a, b := plan[i].task, plan[j].task;
    IndexOrder(tasks, v, plan, i, j);
    AheadIsLowerPosition(tasks, v, a, b);
    AheadIsLowerPosition(tasks, v, b, a);
    if a.priority == b.priority {
      EqualPriorityKeepsArrivalOrder(KeyOf(a, v), a, b, v.now);
    }
    if v.now - a.createdAt.value >= 600.0 && v.now - b.createdAt.value < 60.0 {
      AgingDefeatsPriority(KeyOf(a, v), a, b, v.now);
    }
  }

  /** What an entry shows: the routed bundle, the base priority and ten points for every
      counted minute of waiting. */
  lemma PlanShows(tasks: set<Task>, v: View, plan: seq<PlanItem>, i: nat, minutes: nat)
    requires IsPlan(tasks, v, plan) && i < |plan| && Waited(plan[i].task, v.now, minutes)
    ensures plan[i].bundleId == (if plan[i].task.id in v.bundles then v.bundles[plan[i].task.id] else "")
    ensures plan[i].basePriority == plan[i].task.priority && plan[i].agingBonus == 10 * minutes
    ensures plan[i].effectivePriority == plan[i].basePriority + 10 * minutes
    ensures plan[i].rank == i + 1
  {
    EffectiveByMinutes(plan[i].task, v.now, minutes);
    assert ItemOk(tasks, v, Elements(TasksOf(plan[..i])), i, plan[i]);
  }

  /** Who is planned first, in minutes: inside a queue that is not an endpoint's, and
      between entries of the same round, the priority with ten points per counted minute
      decides and arrival breaks ties; entries of different rounds go by round. */
  lemma PlanByMinutes(tasks: set<Task>, v: View, plan: seq<PlanItem>, i: nat, j: nat, m: nat, n: nat)
    requires IsPlan(tasks, v, plan) && i < |plan| && j < |plan| && DistinctTasks(tasks)
    requires Waited(plan[i].task, v.now, m) && Waited(plan[j].task, v.now, n)
    ensures var a, b := plan[i].task, plan[j].task;
            var aged := || a.priority + 10 * m > b.priority + 10 * n
                        || (a.priority + 10 * m == b.priority + 10 * n && a.index < b.index);
            && (plan[i].round != plan[j].round ==> (i < j <==> plan[i].round < plan[j].round))
            && (plan[i].round == plan[j].round ==> (i < j <==> aged))
            && (KeyOf(a, v) == KeyOf(b, v) && a.endpoint.None? ==> (i < j <==> aged))
  {
    var a, b := plan[i].task, plan[j].task;
    EffectiveByMinutes(a, v.now, m);
    EffectiveByMinutes(b, v.now, n);
    IndexOrder(tasks, v, plan, i, j);
    assert ItemOk(tasks, v, Elements(TasksOf(plan[..i])), i, plan[i]);
    assert ItemOk(tasks, v, Elements(TasksOf(plan[..j])), j, plan[j]);
    if KeyOf(a, v) == KeyOf(b, v) {
      AheadIsLowerPosition(tasks, v, a, b);
    }
  }

  /** In every prefix of the plan, two queues that still have work have been served
      equally often up to one. */
  lemma PrefixFairness(tasks: set<Task>, v: View, plan: seq<PlanItem>, n: nat, j: QueueKey, k: QueueKey)
    requires IsPlan(tasks, v, plan) && n <= |plan| && DistinctTasks(tasks)
    requires ServedIn(plan, v, n, k) < Size(tasks, v, k)
    ensures ServedIn(plan, v, n, j) <= ServedIn(plan, v, n, k) + 1
  {
    var c := ServedIn(plan, v, n, k);
    if ServedIn(plan, v, n, j) > c + 1 {
      ServedAtMostSize(tasks, v, plan, n, j);
      var w := TaskAt(tasks, v, j, c + 1);
      var u := TaskAt(tasks, v, k, c);
      PrefixIsInitial(tasks, v, plan, n, w);
      PrefixIsInitial(tasks, v, plan, n, u);
      EarlierIsBefore(tasks, v, plan, n, w, u);
      assert false;
    }
  }

  lemma ServedAtMostSize(tasks: set<Task>, v: View, plan: seq<PlanItem>, n: nat, k: QueueKey)
    requires IsPlan(tasks, v, plan) && n <= |plan|
    ensures ServedIn(plan, v, n, k) <= Size(tasks, v, k)
  {
    PrefixInTasks(tasks, v, plan, n);
    SubsetSmaller(Members(Prefix(plan, n), v, k), Members(tasks, v, k));
  }

  lemma EarlierIsBefore(tasks: set<Task>, v: View, plan: seq<PlanItem>, n: nat, a: Task, b: Task)
    requires IsPlan(tasks, v, plan) && n <= |plan| && b in tasks
    requires a in Prefix(plan, n) && b !in Prefix(plan, n)
    ensures PlanBefore(tasks, v, a, b)
  {
    assert b in Elements(TasksOf(plan));
    var j :| 0 <= j < |plan| && TasksOf(plan)[j] == b;
    var i :| 0 <= i < n && plan[i].task == a;
  }

  /** Isolation: when a task at position `p` is planned, every queue, however long,
      has been served between min(size, p) and min(size, p + 1) times. */
  lemma Isolation(tasks: set<Task>, v: View, plan: seq<PlanItem>, n: nat, k: QueueKey)
    requires IsPlan(tasks, v, plan) && n < |plan| && DistinctTasks(tasks)
    ensures Min(Size(tasks, v, k), plan[n].round) <= ServedIn(plan, v, n, k)
    ensures ServedIn(plan, v, n, k) <= Min(Size(tasks, v, k), plan[n].round + 1)
  {
    var t, p, c := plan[n].task, plan[n].round, ServedIn(plan, v, n, k);
    RoundCountsDispatches(tasks, v, plan, n);
    PrefixMembers(tasks, v, plan, n);
    ServedAtMostSize(tasks, v, plan, n, k);
    if c < Min(Size(tasks, v, k), p) {
      var u := TaskAt(tasks, v, k, c);
      PrefixIsInitial(tasks, v, plan, n, u);
      assert false;
    }
    if c > p + 1 {
      var w := TaskAt(tasks, v, k, p + 1);
      PrefixIsInitial(tasks, v, plan, n, w);
      assert false;
    }
  }

  // ---------- Sums over queues ----------

  ghost function Pick(keys: set<QueueKey>): QueueKey
    requires keys != {}
    ensures Pick(keys) in keys
  {
    var k :| k in keys; k
  }

  ghost function Total(keys: set<QueueKey>, f: QueueKey -> nat): nat {
    if keys == {} then 0 else f(Pick(keys)) + Total(keys - {Pick(keys)}, f)
  }

  lemma {:induction false} TotalMonotone(keys: set<QueueKey>, f: QueueKey -> nat, g: QueueKey -> nat)
    requires forall k :: k in keys ==> f(k) <= g(k)
    ensures Total(keys, f) <= Total(keys, g)
    ensures (exists k :: k in keys && f(k) < g(k)) ==> Total(keys, f) < Total(keys, g)
  {
    if keys != {} {
      TotalMonotone(keys - {Pick(keys)}, f, g);
      if k :| k in keys && f(k) < g(k) && k != Pick(keys) {
        assert k in keys - {Pick(keys)};
      }
    }
  }

  lemma SharesWithout(tasks: set<Task>, v: View, k: QueueKey, keys: set<QueueKey>)
    requires k !in keys
    ensures Total(keys, j => |Members(tasks, v, j)|) == Total(keys, j => |Members(tasks - Members(tasks, v, k), v, j)|)
  {
    var rest := tasks - Members(tasks, v, k);
    var f: QueueKey -> nat := j => |Members(tasks, v, j)|;
    var g: QueueKey -> nat := j => |Members(rest, v, j)|;
    forall j | j in keys
      ensures f(j) == g(j)
    {
      assert Members(tasks, v, j) == Members(rest, v, j);
    }
    TotalMonotone(keys, f, g);
    TotalMonotone(keys, g, f);
  }

  /** A set of tasks is as large as its queue shares together. */
  lemma {:induction false} TotalOfShares(tasks: set<Task>, v: View, keys: set<QueueKey>)
    requires forall t :: t in tasks ==> KeyOf(t, v) in keys
    ensures Total(keys, k => |Members(tasks, v, k)|) == |tasks|
    decreases keys
  {
    if keys == {} {
      assert tasks == {};
    } else {
      var k := Pick(keys);
      var mine := Members(tasks, v, k);
      var rest := tasks - mine;
      assert tasks == mine + rest;
      TotalOfShares(rest, v, keys - {k});
      SharesWithout(tasks, v, k, keys - {k});
    }
  }

  /** Rank bounds: the task at position `p` comes after everything the queues hold
      below `p`, and no later than everything they hold up to `p`. */
  lemma RankBounds(tasks: set<Task>, v: View, plan: seq<PlanItem>, n: nat)
    requires IsPlan(tasks, v, plan) && n < |plan| && DistinctTasks(tasks)
    ensures Total(Keys(tasks, v), k => Min(Size(tasks, v, k), plan[n].round)) < plan[n].rank
    ensures plan[n].rank <= Total(Keys(tasks, v), k => Min(Size(tasks, v, k), plan[n].round + 1))
  {
    var keys, p := Keys(tasks, v), plan[n].round;
    var low: QueueKey -> nat := k => Min(Size(tasks, v, k), p);
    var high: QueueKey -> nat := k => Min(Size(tasks, v, k), p + 1);
    var served: QueueKey -> nat := k => |Members(Prefix(plan, n), v, k)|;
    forall k
      ensures low(k) <= served(k) <= high(k)
    {
      Isolation(tasks, v, plan, n, k);
    }
    ServedTotal(tasks, v, plan, n);
    TotalMonotone(keys, low, served);
    OwnQueueNotFull(tasks, v, plan, n);
    assert served(KeyOf(plan[n].task, v)) < high(KeyOf(plan[n].task, v));
    TotalMonotone(keys, served, high);
    assert ItemOk(tasks, v, Elements(TasksOf(plan[..n])), n, plan[n]);
  }

  /** The first `n` entries, counted queue by queue. */
  lemma ServedTotal(tasks: set<Task>, v: View, plan: seq<PlanItem>, n: nat)
    requires IsPlan(tasks, v, plan) && n <= |plan| && DistinctTasks(tasks)
    ensures Total(Keys(tasks, v), k => |Members(Prefix(plan, n), v, k)|) == n
  {
    PrefixInTasks(tasks, v, plan, n);
    TotalOfShares(Prefix(plan, n), v, Keys(tasks, v));
    PrefixSize(tasks, v, plan, n);
  }

  lemma OwnQueueNotFull(tasks: set<Task>, v: View, plan: seq<PlanItem>, n: nat)
    requires IsPlan(tasks, v, plan) && n < |plan| && DistinctTasks(tasks)
    ensures var own := KeyOf(plan[n].task, v);
            own in Keys(tasks, v) && ServedIn(plan, v, n, own) == plan[n].round < Size(tasks, v, own)
  {
    var own := KeyOf(plan[n].task, v);
    RoundCountsDispatches(tasks, v, plan, n);
    PrefixMembers(tasks, v, plan, n);
    PrefixInTasks(tasks, v, plan, n);
    SubsetSmaller(Members(Prefix(plan, n), v, own) + {plan[n].task}, Members(tasks, v, own));
  }

  /** The tasks of a plan are different, so a prefix of `n` entries holds `n` tasks. */
  lemma PrefixSize(tasks: set<Task>, v: View, plan: seq<PlanItem>, n: nat)
    requires IsPlan(tasks, v, plan) && n <= |plan| && DistinctTasks(tasks)
    ensures |Prefix(plan, n)| == n
  {
    PlanOrderIsOrder(tasks, v);
    SortedIsDistinct(PlanOrder(tasks, v), TasksOf(plan));
    PrefixElements(plan, n);
    DistinctCardinality(TasksOf(plan)[..n]);
  }

  lemma PrefixElements(plan: seq<PlanItem>, n: nat)
    requires n <= |plan|
    ensures Prefix(plan, n) == Elements(TasksOf(plan)[..n])
  {
    var front := TasksOf(plan)[..n];
    forall i | 0 <= i < n
      ensures plan[i].task in Elements(front)
    {
      assert front[i] == plan[i].task;
    }
  }
}
