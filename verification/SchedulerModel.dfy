/** Queued tasks, aged priorities, and the partition into independent queues. */
module SchedulerModel {
  import opened Options
  import opened Sorting

  /** `createdAt` is None when the timestamp does not parse; `endpoint` is the
      trimmed endpoint constraint, None when absent or blank. */
  datatype Task = Task(
    id: string,
    priority: int,
    index: int,
    createdAt: Option<real>,
    endpoint: Option<string>,
    queued: bool)

  /** The three key forms have different text prefixes, so they never collide. */
  datatype QueueKey = EndpointQueue(id: string) | BundleQueue(id: string) | TaskQueue(id: string)

  /** One reading of the clock and of the routing table. */
  datatype View = View(now: real, bundles: map<string, string>)

  const AGING_STEP: int := 10
  const AGING_INTERVAL: real := 60.0
  const AGING_MAX_BONUS: int := 100

  function AgingBonus(t: Task, now: real): int {
    if t.createdAt.None? then 0
    else
      var waited := if now - t.createdAt.value > 0.0 then now - t.createdAt.value else 0.0;
      var bonus := (waited / AGING_INTERVAL).Floor * AGING_STEP;
      if bonus < AGING_MAX_BONUS then bonus else AGING_MAX_BONUS
  }

  function Effective(t: Task, now: real): int {
    t.priority + AgingBonus(t, now)
  }

  function SelectedBundle(t: Task, v: View): string {
    if t.id in v.bundles then v.bundles[t.id] else ""
  }

  function KeyOf(t: Task, v: View): QueueKey {
    if t.endpoint.Some? then EndpointQueue(t.endpoint.value)
    else if SelectedBundle(t, v) != "" then BundleQueue(SelectedBundle(t, v))
    else TaskQueue(t.id)
  }

  predicate Fifo(k: QueueKey) {
    k.EndpointQueue?
  }

  /** Priority order with arrival as tie-break. */
  predicate Outranks(now: real, a: Task, b: Task) {
    || Effective(a, now) > Effective(b, now)
    || (Effective(a, now) == Effective(b, now) && a.index < b.index)
  }

  /** The order inside queue `k`. */
  predicate Ahead(k: QueueKey, now: real, a: Task, b: Task) {
    if Fifo(k) then a.index < b.index else Outranks(now, a, b)
  }

  function QueueOrder(k: QueueKey, now: real): (Task, Task) -> bool {
    (a, b) => Ahead(k, now, a, b)
  }

  /** The queue hands out distinct task IDs and arrival numbers. */
  ghost predicate DistinctTasks(tasks: set<Task>) {
    forall a, b :: a in tasks && b in tasks && a != b ==> a.index != b.index && a.id != b.id
  }

  ghost function QueuedTasks(snapshot: seq<Task>): set<Task> {
    set t | t in snapshot && t.queued
  }

  ghost function Members(tasks: set<Task>, v: View, k: QueueKey): set<Task> {
    set t | t in tasks && KeyOf(t, v) == k
  }

  lemma AheadIsOrder(k: QueueKey, now: real, tasks: set<Task>)
    requires DistinctTasks(tasks)
    ensures StrictOrder(QueueOrder(k, now), tasks)
  {
  }

  /** The queues are the key classes, each in strict queue order. */
  ghost predicate Grouped(tasks: set<Task>, v: View, queues: map<QueueKey, seq<Task>>) {
    && (forall k :: k in queues <==> Members(tasks, v, k) != {})
    && forall k :: k in queues ==>
         && Elements(queues[k]) == Members(tasks, v, k)
         && StrictlySorted(QueueOrder(k, v.now), queues[k])
  }

  lemma GroupedUnique(tasks: set<Task>, v: View, p: map<QueueKey, seq<Task>>, q: map<QueueKey, seq<Task>>)
    requires DistinctTasks(tasks) && Grouped(tasks, v, p) && Grouped(tasks, v, q)
    ensures p == q
  {
    forall k | k in p
      ensures k in q && p[k] == q[k]
    {
      assert Members(tasks, v, k) != {};
      AheadIsOrder(k, v.now, Members(tasks, v, k));
      SortedUnique(QueueOrder(k, v.now), p[k], q[k]);
    }
    forall k | k in q
      ensures k in p
    {
      assert Members(tasks, v, k) != {};
    }
  }

  /** The first loop's result: one duplicate-free list per key class. */
  ghost predicate Partition(tasks: set<Task>, v: View, lists: map<QueueKey, seq<Task>>) {
    && (forall k :: k in lists <==> Members(tasks, v, k) != {})
    && forall k :: k in lists ==> Elements(lists[k]) == Members(tasks, v, k) && Distinct(lists[k])
  }

  lemma MembersAdd(tasks: set<Task>, v: View, t: Task, k: QueueKey)
    ensures Members(tasks + {t}, v, k) == Members(tasks, v, k) + (if k == KeyOf(t, v) then {t} else {})
  {
  }

  lemma PartitionStep(tasks: set<Task>, v: View, lists: map<QueueKey, seq<Task>>, t: Task)
    requires Partition(tasks, v, lists) && t !in tasks
    ensures var list := if KeyOf(t, v) in lists then lists[KeyOf(t, v)] else [];
            Partition(tasks + {t}, v, lists[KeyOf(t, v) := list + [t]])
  {
    var key := KeyOf(t, v);
    var list := if key in lists then lists[key] else [];
    assert Elements(list) == Members(tasks, v, key);
    assert forall x :: x in list ==> x in Elements(list);
    assert Elements(list + [t]) == Elements(list) + {t};
    assert Distinct(list + [t]);
    var longer := lists[key := list + [t]];
    forall k
      ensures k in longer <==> Members(tasks + {t}, v, k) != {}
      ensures k in longer ==> Elements(longer[k]) == Members(tasks + {t}, v, k) && Distinct(longer[k])
    {
      MembersAdd(tasks, v, t, k);
      if k == key {
        assert t in Members(tasks + {t}, v, k);
      }
    }
  }

  lemma SortedQueue(tasks: set<Task>, v: View, k: QueueKey, list: seq<Task>)
    requires DistinctTasks(tasks) && Elements(list) == Members(tasks, v, k) && Distinct(list)
    ensures Elements(Sort(QueueOrder(k, v.now), list)) == Members(tasks, v, k)
    ensures StrictlySorted(QueueOrder(k, v.now), Sort(QueueOrder(k, v.now), list))
  {
    AheadIsOrder(k, v.now, Members(tasks, v, k));
    SortSorts(QueueOrder(k, v.now), list);
  }

  /** `_group_queued_tasks`: split by key, then sort every list in place. */
  method GroupQueuedTasks(tasks: seq<Task>, v: View) returns (queues: map<QueueKey, seq<Task>>)
    requires Distinct(tasks) && DistinctTasks(Elements(tasks))
    ensures Grouped(Elements(tasks), v, queues)
  {
    queues := SplitByKey(tasks, v);
    queues := SortQueues(Elements(tasks), v, queues);
  }

  method SplitByKey(tasks: seq<Task>, v: View) returns (lists: map<QueueKey, seq<Task>>)
    requires Distinct(tasks)
    ensures Partition(Elements(tasks), v, lists)
  {
    lists := map[];
    for i := 0 to |tasks|
      invariant Partition(Elements(tasks[..i]), v, lists)
    {
      var t := tasks[i];
      var key := KeyOf(t, v);
      assert tasks[..i + 1] == tasks[..i] + [t];
      assert Elements(tasks[..i + 1]) == Elements(tasks[..i]) + {t};
      PartitionStep(Elements(tasks[..i]), v, lists, t);
      lists := lists[key := (if key in lists then lists[key] else []) + [t]];
    }
    assert tasks[..|tasks|] == tasks;
  }

  method SortQueues(ghost tasks: set<Task>, v: View, lists: map<QueueKey, seq<Task>>)
      returns (queues: map<QueueKey, seq<Task>>)
    requires DistinctTasks(tasks) && Partition(tasks, v, lists)
    ensures Grouped(tasks, v, queues)
  {
    queues := lists;
    var left := queues.Keys;
    while left != {}
      invariant left <= queues.Keys == lists.Keys
      invariant forall k :: k in left ==> queues[k] == lists[k]
      invariant forall k :: k in queues && k !in left ==> queues[k] == Sort(QueueOrder(k, v.now), lists[k])
    {
      var k :| k in left;
      left := left - {k};
      queues := queues[k := Sort(QueueOrder(k, v.now), queues[k])];
    }
    forall k | k in queues
      ensures Elements(queues[k]) == Members(tasks, v, k) && StrictlySorted(QueueOrder(k, v.now), queues[k])
    {
      SortedQueue(tasks, v, k, lists[k]);
    }
  }

  // ---------- Aging ----------

  /** The bonus is ten points per full minute of waiting, for at most ten minutes; a
      timestamp in the future or one that does not parse earns nothing. */
  lemma BonusByMinute(t: Task, now: real, minutes: nat)
    ensures t.createdAt.None? ==> AgingBonus(t, now) == 0
    ensures t.createdAt.Some? && now < t.createdAt.value + 60.0 ==> AgingBonus(t, now) == 0
    ensures t.createdAt.Some? && minutes < 10
            && 60.0 * minutes as real <= now - t.createdAt.value < 60.0 * (minutes + 1) as real ==>
              AgingBonus(t, now) == 10 * minutes
    ensures t.createdAt.Some? && now - t.createdAt.value >= 600.0 ==> AgingBonus(t, now) == 100
  {
    if t.createdAt.Some? {
      var waited := if now - t.createdAt.value > 0.0 then now - t.createdAt.value else 0.0;
      var count := (waited / AGING_INTERVAL).Floor;
      assert count as real <= waited / AGING_INTERVAL < (count + 1) as real;
      if 60.0 * minutes as real <= now - t.createdAt.value < 60.0 * (minutes + 1) as real {
        assert count == minutes;
      }
    }
  }

  /** Tasks share a queue exactly when they name the same endpoint, or name none and
      are routed to the same bundle, or are the same unrouted task: two endpoints on one
      bundle do not share. */
  lemma SameQueueExactly(a: Task, b: Task, v: View)
    ensures KeyOf(a, v) == KeyOf(b, v) <==>
              || (a.endpoint.Some? && a.endpoint == b.endpoint)
              || (a.endpoint.None? && b.endpoint.None?
                  && (if a.id in v.bundles && v.bundles[a.id] != ""
                      then b.id in v.bundles && v.bundles[b.id] == v.bundles[a.id]
                      else (b.id !in v.bundles || v.bundles[b.id] == "") && a.id == b.id))
    ensures Fifo(KeyOf(a, v)) <==> a.endpoint.Some?
  {
  }

  /** The full minutes a task has waited, as far as they count: at most ten, and none for
      a timestamp that lies in the future or does not parse. */
  ghost predicate Waited(t: Task, now: real, minutes: nat) {
    && minutes <= 10
    && (minutes > 0 ==> t.createdAt.Some? && now - t.createdAt.value >= 60.0 * minutes as real)
    && (minutes < 10 && t.createdAt.Some? ==> now - t.createdAt.value < 60.0 * (minutes + 1) as real)
  }

  lemma WaitedExists(t: Task, now: real) returns (minutes: nat)
    ensures Waited(t, now, minutes)
  {
    minutes := 0;
    while minutes < 10 && t.createdAt.Some? && now - t.createdAt.value >= 60.0 * (minutes + 1) as real
      invariant minutes <= 10
      invariant minutes > 0 ==> t.createdAt.Some? && now - t.createdAt.value >= 60.0 * minutes as real
    {
      minutes := minutes + 1;
    }
  }

  /** What is compared is the base priority plus ten points per counted minute. */
  lemma EffectiveByMinutes(t: Task, now: real, minutes: nat)
    requires Waited(t, now, minutes)
    ensures AgingBonus(t, now) == 10 * minutes
    ensures Effective(t, now) == t.priority + 10 * minutes
  {
    BonusByMinute(t, now, minutes);
  }

  /** The order inside a queue, in minutes: arrival on an endpoint; elsewhere the aged
      priority, and arrival between equals. */
  lemma AheadByMinutes(k: QueueKey, a: Task, b: Task, now: real, m: nat, n: nat)
    requires Waited(a, now, m) && Waited(b, now, n)
    ensures k.EndpointQueue? ==> (Ahead(k, now, a, b) <==> a.index < b.index)
    ensures !k.EndpointQueue? ==>
              (Ahead(k, now, a, b) <==>
                 || a.priority + 10 * m > b.priority + 10 * n
                 || (a.priority + 10 * m == b.priority + 10 * n && a.index < b.index))
  {
    EffectiveByMinutes(a, now, m);
    EffectiveByMinutes(b, now, n);
  }

  /** A longer wait never earns less. */
  lemma BonusMonotone(a: Task, b: Task, now: real)
    requires a.createdAt.Some? && b.createdAt.Some? && a.createdAt.value <= b.createdAt.value
    ensures AgingBonus(a, now) >= AgingBonus(b, now)
  {
    var x := if now - a.createdAt.value > 0.0 then now - a.createdAt.value else 0.0;
    var y := if now - b.createdAt.value > 0.0 then now - b.createdAt.value else 0.0;
    assert (x / AGING_INTERVAL).Floor >= (y / AGING_INTERVAL).Floor;
  }

  /** In a Bundle queue an earlier task stays ahead of any later one of the same
      base priority, at every clock reading. */
  lemma EqualPriorityKeepsArrivalOrder(k: QueueKey, a: Task, b: Task, now: real)
    requires a.createdAt.Some? && b.createdAt.Some?
    requires a.index < b.index && a.createdAt.value <= b.createdAt.value && a.priority == b.priority
    ensures Ahead(k, now, a, b) && !Ahead(k, now, b, a)
  {
    BonusMonotone(a, b, now);
  }

  /** Ten minutes of waiting outweigh one hundred points of base priority against any
      later task that has waited less than a minute; one point more breaks it. */
  lemma AgingDefeatsPriority(k: QueueKey, a: Task, b: Task, now: real)
    requires k.BundleQueue? && a.createdAt.Some? && b.createdAt.Some? && a.index < b.index
    requires now - a.createdAt.value >= 600.0 && now - b.createdAt.value < 60.0
    ensures Ahead(k, now, a, b) <==> b.priority <= a.priority + 100
    ensures Ahead(k, now, b, a) <==> b.priority > a.priority + 100
  {
    var x := now - a.createdAt.value;
    assert (x / AGING_INTERVAL).Floor >= 10 by {
      assert x / AGING_INTERVAL >= 10.0;
    }
    assert AgingBonus(a, now) == 100;
    var y := if now - b.createdAt.value > 0.0 then now - b.createdAt.value else 0.0;
    assert (y / AGING_INTERVAL).Floor == 0 by {
      assert 0.0 <= y / AGING_INTERVAL < 1.0;
    }
    assert AgingBonus(b, now) == 0;
  }
}
