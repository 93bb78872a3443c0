/** Eviction of idle runtimes for a waiting task, and its read model. */
module SchedulerEviction {
  import opened Sorting

  type BundleId = string

  /** The host facts the eviction loop looks at.  Stopping a runtime removes that
      bundle's residency and nothing else; whether the request fits depends on what
      is still resident. */
  class Host {
    var resident: set<BundleId>
    var active: map<BundleId, nat>
    var stopped: seq<BundleId>
    const fits: set<BundleId> -> bool

    constructor (resident: set<BundleId>, active: map<BundleId, nat>, fits: set<BundleId> -> bool)
      ensures this.resident == resident && this.active == active && this.fits == fits && stopped == []
    {
      this.resident, this.active, this.fits, this.stopped := resident, active, fits, [];
    }

    method StopRuntime(b: BundleId)
      modifies this`resident, this`stopped
      ensures resident == old(resident) - {b} && stopped == old(stopped) + [b]
    {
      resident := resident - {b};
      stopped := stopped + [b];
    }
  }

  predicate Evictable(b: BundleId, requested: BundleId, resident: set<BundleId>, active: map<BundleId, nat>) {
    b != requested && b in resident && (b !in active || active[b] == 0)
  }

  /** The bundles the read model lists, in order. */
  function Listed(candidates: seq<BundleId>, requested: BundleId, resident: set<BundleId>, active: map<BundleId, nat>)
    : (r: seq<BundleId>)
    ensures forall b :: b in r <==> b in candidates && Evictable(b, requested, resident, active)
  {
    if candidates == [] then []
    else
      var rest := Listed(candidates[1..], requested, resident, active);
      if Evictable(candidates[0], requested, resident, active) then [candidates[0]] + rest else rest
  }

  /** What the loop would stop if the request never fitted. */
  ghost function Stoppable(candidates: seq<BundleId>, requested: BundleId, resident: set<BundleId>, active: map<BundleId, nat>)
    : (r: seq<BundleId>)
    ensures forall b :: b in r <==> b in candidates && Evictable(b, requested, resident, active)
    ensures Distinct(r)
  {
    if candidates == [] then []
    else if Evictable(candidates[0], requested, resident, active) then
      var rest := Stoppable(candidates[1..], requested, resident - {candidates[0]}, active);
      assert candidates[0] !in rest;
      [candidates[0]] + rest
    else Stoppable(candidates[1..], requested, resident, active)
  }

  ghost function After(resident: set<BundleId>, victims: seq<BundleId>): set<BundleId> {
    resident - Elements(victims)
  }

  /** `n` is the length of the shortest non-empty prefix after which the request
      fits, or of all the victims when there is none. */
  ghost predicate StopsAt(victims: seq<BundleId>, n: nat, resident: set<BundleId>, fits: set<BundleId> -> bool) {
    && n <= |victims|
    && (victims != [] ==> n > 0)
    && (forall m :: 0 < m < n ==> !fits(After(resident, victims[..m])))
    && (n < |victims| ==> fits(After(resident, victims[..n])))
  }

  /** `_readable_eviction_candidates`. */
  method ReadableCandidates(host: Host, candidates: seq<BundleId>, requested: BundleId) returns (items: seq<BundleId>)
    ensures items == Listed(candidates, requested, host.resident, host.active)
    ensures forall b :: b in items <==>
              b in candidates && b in host.resident && b != requested && (b in host.active ==> host.active[b] == 0)
  {
    items := [];
    var i := |candidates|;
    while i > 0
      invariant 0 <= i <= |candidates|
      invariant items == Listed(candidates[i..], requested, host.resident, host.active)
    {
      i := i - 1;
      assert candidates[i..][1..] == candidates[i + 1..];
      if Evictable(candidates[i], requested, host.resident, host.active) {
        items := [candidates[i]] + items;
      }
    }
  }

  lemma StopNext(resident: set<BundleId>, victims: seq<BundleId>, n: nat)
    requires n < |victims|
    ensures victims[..n + 1] == victims[..n] + [victims[n]]
    ensures After(resident, victims[..n + 1]) == After(resident, victims[..n]) - {victims[n]}
  {
    assert Elements(victims[..n] + [victims[n]]) == Elements(victims[..n]) + {victims[n]};
  }

  lemma StoppableNext(
      candidates: seq<BundleId>, i: nat, requested: BundleId, resident: set<BundleId>, active: map<BundleId, nat>)
    requires i < |candidates|
    ensures Stoppable(candidates[i..], requested, resident, active) ==
            if Evictable(candidates[i], requested, resident, active)
            then [candidates[i]] + Stoppable(candidates[i + 1..], requested, resident - {candidates[i]}, active)
            else Stoppable(candidates[i + 1..], requested, resident, active)
  {
    assert candidates[i..][0] == candidates[i] && candidates[i..][1..] == candidates[i + 1..];
  }

  /** The loop of `evict_idle_runtimes_for_task`. */
  method StopUntilFits(host: Host, candidates: seq<BundleId>, requested: BundleId) returns (ghost n: nat)
    modifies host`resident, host`stopped
    ensures var victims := Stoppable(candidates, requested, old(host.resident), host.active);
            && StopsAt(victims, n, old(host.resident), host.fits)
            && host.stopped == old(host.stopped) + victims[..n]
            && host.resident == After(old(host.resident), victims[..n])
  {
    ghost var start := host.resident;
    ghost var victims := Stoppable(candidates, requested, start, host.active);
    n := 0;
    assert candidates[0..] == candidates;
    for i := 0 to |candidates|
      invariant n <= |victims|
      invariant host.stopped == old(host.stopped) + victims[..n]
      invariant host.resident == After(start, victims[..n])
      invariant victims[n..] == Stoppable(candidates[i..], requested, host.resident, host.active)
      invariant forall m :: 0 < m <= n ==> !host.fits(After(start, victims[..m]))
    {
      var b := candidates[i];
      StoppableNext(candidates, i, requested, host.resident, host.active);
      if b == requested { continue; }
      if b !in host.resident { continue; }
      if b in host.active && host.active[b] > 0 { continue; }
      assert victims[n] == victims[n..][0] == b && victims[n + 1..] == victims[n..][1..];
      StopNext(start, victims, n);
      host.StopRuntime(b);
      n := n + 1;
      if host.fits(host.resident) { return; }
    }
    assert candidates[|candidates|..] == [];
    assert victims[..n] == victims;
  }

  /** `evict_idle_runtimes_for_task`, with what its read model foretells. */
  method EvictIdleRuntimes(host: Host, candidates: seq<BundleId>, requested: BundleId) returns (ghost n: nat)
    modifies host`resident, host`stopped
    ensures var victims := Stoppable(candidates, requested, old(host.resident), host.active);
            && StopsAt(victims, n, old(host.resident), host.fits)
            && host.stopped == old(host.stopped) + victims[..n]
            && host.resident == After(old(host.resident), victims[..n])
    ensures var listed := Listed(candidates, requested, old(host.resident), host.active);
            && n <= |listed|
            && (host.stopped[|old(host.stopped)|..] <= listed <==> Distinct(listed[..n]))
            && (FirstsFirst(listed) ==> host.stopped[|old(host.stopped)|..] <= listed)
    ensures forall b :: b in old(host.resident) - host.resident ==>
              b in candidates && b != requested && (b in host.active ==> host.active[b] == 0)
    ensures (exists b :: b in host.resident && b in candidates && b != requested && (b in host.active ==> host.active[b] == 0))
            ==> host.stopped != old(host.stopped) && host.fits(host.resident)
    ensures host.resident <= old(host.resident) && multiset(host.stopped[|old(host.stopped)|..]) == multiset(old(host.resident) - host.resident)
  {
    n := StopUntilFits(host, candidates, requested);
    StopsPrefixExactly(candidates, requested, old(host.resident), host.active, n);
    AlwaysPrefixExactly(candidates, requested, old(host.resident), host.active);
    StoppedAre(Stoppable(candidates, requested, old(host.resident), host.active), n, old(host.resident));
    IdleStayOnlyIfFits(candidates, requested, old(host.resident), host.active, n, host.fits);
  }

  /** Each stopped bundle was resident and is stopped once. */
  lemma StoppedAre(victims: seq<BundleId>, n: nat, resident: set<BundleId>)
    requires n <= |victims| && Distinct(victims) && forall b :: b in victims ==> b in resident
    ensures multiset(victims[..n]) == multiset(resident - After(resident, victims[..n]))
    ensures forall b :: b in resident - After(resident, victims[..n]) ==> b in victims
  {
    DistinctMultiset(victims[..n]);
    assert resident - After(resident, victims[..n]) == Elements(victims[..n]);
  }

  lemma {:induction false} DistinctMultiset(s: seq<BundleId>)
    requires Distinct(s)
    ensures multiset(s) == multiset(Elements(s))
  {
    if s != [] {
      var front, last := s[..|s| - 1], s[|s| - 1];
      assert s == front + [last];
      DistinctMultiset(front);
      assert last !in front;
      assert Elements(s) == Elements(front) + {last};
    }
  }

  /** An idle candidate is left running only when the request already fits. */
  lemma IdleStayOnlyIfFits(
      candidates: seq<BundleId>, requested: BundleId, resident: set<BundleId>, active: map<BundleId, nat>, n: nat,
      fits: set<BundleId> -> bool)
    requires StopsAt(Stoppable(candidates, requested, resident, active), n, resident, fits)
    ensures var now := After(resident, Stoppable(candidates, requested, resident, active)[..n]);
            (exists b :: b in now && b in candidates && b != requested && (b in active ==> active[b] == 0)) ==> n > 0 && fits(now)
  {
    var victims := Stoppable(candidates, requested, resident, active);
    if n == |victims| {
      assert victims[..n] == victims;
    }
  }

  // ---------- When the read model foretells what is stopped ----------

  /** The first occurrences in `l` of what is not in `seen`. */
  ghost function Firsts(l: seq<BundleId>, seen: set<BundleId>): (r: seq<BundleId>)
    ensures |r| <= |l|
  {
    if l == [] then []
    else if l[0] in seen then Firsts(l[1..], seen)
    else [l[0]] + Firsts(l[1..], seen + {l[0]})
  }

  /** Stopping a bundle makes the loop skip its later mentions. */
  lemma {:induction false} StoppableIsFirsts(
      candidates: seq<BundleId>, requested: BundleId, resident: set<BundleId>, active: map<BundleId, nat>, seen: set<BundleId>)
    ensures Stoppable(candidates, requested, resident - seen, active)
            == Firsts(Listed(candidates, requested, resident, active), seen)
  {
    if candidates != [] {
      var c, rest := candidates[0], candidates[1..];
      if Evictable(c, requested, resident, active) {
        var listed := Listed(candidates, requested, resident, active);
        assert listed[0] == c && listed[1..] == Listed(rest, requested, resident, active);
        if c !in seen {
          StoppableIsFirsts(rest, requested, resident, active, seen + {c});
          assert resident - (seen + {c}) == resident - seen - {c};
        } else {
          StoppableIsFirsts(rest, requested, resident, active, seen);
        }
      } else {
        StoppableIsFirsts(rest, requested, resident, active, seen);
      }
    }
  }

  lemma {:induction false} FirstsAgree(l: seq<BundleId>, seen: set<BundleId>, n: nat)
    requires n <= |l| && Distinct(l[..n]) && forall i :: 0 <= i < n ==> l[i] !in seen
    ensures l[..n] <= Firsts(l, seen)
  {
    if n > 0 {
      assert l[1..][..n - 1] == l[..n][1..];
      FirstsAgree(l[1..], seen + {l[0]}, n - 1);
      assert l[..n] == [l[0]] + l[1..][..n - 1];
    }
  }

  /** A run that stops `n` bundles stops a prefix of the list if and only if the first `n`
      bundles of the list are different. */
  lemma StopsPrefixExactly(
      candidates: seq<BundleId>, requested: BundleId, resident: set<BundleId>, active: map<BundleId, nat>, n: nat)
    requires n <= |Stoppable(candidates, requested, resident, active)|
    ensures n <= |Listed(candidates, requested, resident, active)|
    ensures Stoppable(candidates, requested, resident, active)[..n] <= Listed(candidates, requested, resident, active)
            <==> Distinct(Listed(candidates, requested, resident, active)[..n])
  {
    var victims := Stoppable(candidates, requested, resident, active);
    var listed := Listed(candidates, requested, resident, active);
    StoppableIsFirsts(candidates, requested, resident, active, {});
    assert resident - {} == resident;
    if Distinct(listed[..n]) {
      FirstsAgree(listed, {}, n);
      assert victims[..n] == listed[..n];
    }
    if victims[..n] <= listed {
      assert victims[..n] == listed[..n];
    }
  }

  /** After some point the list only repeats bundles, and before it none. */
  ghost predicate FirstsFirst(l: seq<BundleId>) {
    exists d :: 0 <= d <= |l| && Distinct(l[..d]) && forall i :: d <= i < |l| ==> l[i] in l[..d]
  }

  lemma NothingFurther(victims: seq<BundleId>, listed: seq<BundleId>, d: nat)
    requires Distinct(victims) && forall b :: b in victims ==> b in listed
    requires d <= |listed| && listed[..d] <= victims && forall i :: d <= i < |listed| ==> listed[i] in listed[..d]
    ensures victims == listed[..d]
  {
    if victims != [] {
      var last := |victims| - 1;
      assert victims[last] in victims;
      var i :| 0 <= i < |listed| && listed[i] == victims[last];
      assert i < d ==> listed[..d][i] == victims[last];
      var j :| 0 <= j < d && listed[..d][j] == victims[last];
      assert victims[j] == victims[last];
    }
  }

  /** Every run stops a prefix of the list if and only if the list repeats no bundle
      before it has named them all. */
  lemma AlwaysPrefixExactly(
      candidates: seq<BundleId>, requested: BundleId, resident: set<BundleId>, active: map<BundleId, nat>)
    ensures Stoppable(candidates, requested, resident, active) <= Listed(candidates, requested, resident, active)
            <==> FirstsFirst(Listed(candidates, requested, resident, active))
  {
    var victims := Stoppable(candidates, requested, resident, active);
    var listed := Listed(candidates, requested, resident, active);
    if victims <= listed {
      assert listed[..|victims|] == victims;
    }
    if FirstsFirst(listed) {
      var d :| 0 <= d <= |listed| && Distinct(listed[..d]) && forall i :: d <= i < |listed| ==> listed[i] in listed[..d];
      StoppableIsFirsts(candidates, requested, resident, active, {});
      assert resident - {} == resident;
      FirstsAgree(listed, {}, d);
      NothingFurther(victims, listed, d);
    }
  }

  /** A bundle repeated before another one: the loop stops a and b, the list begins a, a. */
  lemma RepeatedCandidateExample()
    ensures var candidates, resident := ["a", "a", "b"], {"a", "b"};
            && Listed(candidates, "c", resident, map[]) == ["a", "a", "b"]
            && Stoppable(candidates, "c", resident, map[]) == ["a", "b"]
            && !FirstsFirst(["a", "a", "b"])
  {
    var l := ["a", "a", "b"];
    assert l[1..] == ["a", "b"] && l[1..][1..] == ["b"];
    var listed := Listed(l, "c", {"a", "b"}, map[]);
    assert listed == l;
    AlwaysPrefixExactly(l, "c", {"a", "b"}, map[]);
    StoppableIsFirsts(l, "c", {"a", "b"}, map[], {});
    assert {"a", "b"} - {} == {"a", "b"};
    assert Firsts(["b"], {} + {"a"}) == ["b"];
    assert Firsts(l, {}) == ["a", "b"];
  }

  /** The loop can stop all that is listed if and only if no bundle is listed twice. */
  lemma ListedIsStoppable(
      candidates: seq<BundleId>, requested: BundleId, resident: set<BundleId>, active: map<BundleId, nat>)
    ensures Stoppable(candidates, requested, resident, active) == Listed(candidates, requested, resident, active)
            <==> Distinct(Listed(candidates, requested, resident, active))
  {
    var listed := Listed(candidates, requested, resident, active);
    StoppableIsFirsts(candidates, requested, resident, active, {});
    assert resident - {} == resident;
    if Distinct(listed) {
      assert listed[..|listed|] == listed;
      FirstsAgree(listed, {}, |listed|);
    }
  }
}
