/** Release integrity: the packages a release environment needs but lacks,
    computed by a worklist over the lockfile. */
module MissingPackages {

  type Name = string

  const ROOT_PACKAGE: Name := "aidn-hypervisor"

  /** One entry of a dependency list; names are canonical, and `applies` is the
      value of its marker in the release environment. */
  datatype Entry = Malformed | Dependency(name: Name, applies: bool)

  /** An optional group that is not a list is skipped. */
  datatype Group = NotAList | Entries(entries: seq<Entry>)

  datatype Package = Package(dependencies: seq<Entry>, optional: seq<Group>)

  type Lock = map<Name, Package>

  // ---------- What is selected ----------

  ghost predicate Selects(entries: seq<Entry>, name: Name) {
    Dependency(name, true) in entries
  }

  ghost predicate IsRoot(lock: Lock, name: Name) {
    && ROOT_PACKAGE in lock
    && (Selects(lock[ROOT_PACKAGE].dependencies, name)
        || exists g :: g in lock[ROOT_PACKAGE].optional && g.Entries? && Selects(g.entries, name))
  }

  ghost predicate Edge(lock: Lock, installed: set<Name>, from: Name, to: Name) {
    from in lock && from in installed && Selects(lock[from].dependencies, to)
  }

  /** A chain of applicable dependencies from a selected root, through packages that
      are both locked and installed. */
  ghost predicate Chain(lock: Lock, installed: set<Name>, path: seq<Name>) {
    && |path| > 0
    && IsRoot(lock, path[0])
    && forall i :: 0 <= i < |path| - 1 ==> Edge(lock, installed, path[i], path[i + 1])
  }

  ghost predicate Required(lock: Lock, installed: set<Name>, name: Name) {
    exists path :: Chain(lock, installed, path) && path[|path| - 1] == name
  }

  ghost predicate Missing(lock: Lock, installed: set<Name>, name: Name) {
    Required(lock, installed, name) && !(name in lock && name in installed)
  }

  lemma RequiredStep(lock: Lock, installed: set<Name>, from: Name, to: Name)
    requires Required(lock, installed, from) && Edge(lock, installed, from, to)
    ensures Required(lock, installed, to)
  {
    var path :| Chain(lock, installed, path) && path[|path| - 1] == from;
    var longer := path + [to];
    forall i | 0 <= i < |longer| - 1
      ensures Edge(lock, installed, longer[i], longer[i + 1])
    {
      if i < |path| - 1 {
        assert Edge(lock, installed, path[i], path[i + 1]);
      }
    }
    assert Chain(lock, installed, longer);
  }

  lemma RootRequired(lock: Lock, installed: set<Name>, name: Name)
    requires IsRoot(lock, name)
    ensures Required(lock, installed, name)
  {
    assert Chain(lock, installed, [name]);
  }

  /** A set that holds the roots and is closed under edges holds every required name. */
  lemma {:induction false} ChainStaysInside(lock: Lock, installed: set<Name>, inside: set<Name>, path: seq<Name>)
    requires Chain(lock, installed, path)
    requires forall n :: IsRoot(lock, n) ==> n in inside
    requires forall m, n :: m in inside && Edge(lock, installed, m, n) ==> n in inside
    ensures path[|path| - 1] in inside
  {
    var last := |path| - 1;
    if last > 0 {
      var front := path[..last];
      forall i | 0 <= i < |front| - 1
        ensures Edge(lock, installed, front[i], front[i + 1])
      {
        assert Edge(lock, installed, path[i], path[i + 1]);
      }
      ChainStaysInside(lock, installed, inside, front);
      assert Edge(lock, installed, path[last - 1], path[last - 1 + 1]);
    }
  }

  /** A set of names with the applicable dependencies of the root package, optional ones
      included, and of every member that is locked and installed. */
  ghost predicate Closed(lock: Lock, installed: set<Name>, names: set<Name>) {
    && (forall n :: ROOT_PACKAGE in lock && Dependency(n, true) in lock[ROOT_PACKAGE].dependencies ==> n in names)
    && (forall g, n ::
          ROOT_PACKAGE in lock && g in lock[ROOT_PACKAGE].optional && g.Entries? && Dependency(n, true) in g.entries ==>
            n in names)
    && forall m, n :: m in names && m in lock && m in installed && Dependency(n, true) in lock[m].dependencies ==> n in names
  }

  lemma ClosedUnderEdges(lock: Lock, installed: set<Name>, names: set<Name>)
    requires forall n :: IsRoot(lock, n) ==> n in names
    requires forall m, n :: m in names && Edge(lock, installed, m, n) ==> n in names
    ensures Closed(lock, installed, names)
  {
    forall n | ROOT_PACKAGE in lock && Selects(lock[ROOT_PACKAGE].dependencies, n)
      ensures n in names
    {
      assert IsRoot(lock, n);
    }
    forall m, n | m in names && m in lock && m in installed && Selects(lock[m].dependencies, n)
      ensures n in names
    {
      assert Edge(lock, installed, m, n);
    }
  }

  lemma RequiredIsClosed(lock: Lock, installed: set<Name>, names: set<Name>)
    requires forall n :: n in names <==> Required(lock, installed, n)
    ensures Closed(lock, installed, names)
  {
    forall n | IsRoot(lock, n)
      ensures n in names
    {
      RootRequired(lock, installed, n);
    }
    forall m, n | m in names && Edge(lock, installed, m, n)
      ensures n in names
    {
      RequiredStep(lock, installed, m, n);
    }
    ClosedUnderEdges(lock, installed, names);
  }

  lemma StaysInClosed(lock: Lock, installed: set<Name>, other: set<Name>, n: Name)
    requires Closed(lock, installed, other) && Required(lock, installed, n)
    ensures n in other
  {
    var path :| Chain(lock, installed, path) && path[|path| - 1] == n;
    ChainStaysInside(lock, installed, other, path);
  }

  /** The required names are the least closed set. */
  lemma RequiredIsLeast(lock: Lock, installed: set<Name>, names: set<Name>)
    requires forall n :: n in names <==> Required(lock, installed, n)
    ensures Closed(lock, installed, names)
    ensures forall other :: Closed(lock, installed, other) ==> names <= other
  {
    RequiredIsClosed(lock, installed, names);
    forall other, n | Closed(lock, installed, other) && n in names
      ensures n in other
    {
      StaysInClosed(lock, installed, other, n);
    }
  }

  // ---------- Loops over dependency lists ----------

  method SelectedNames(entries: seq<Entry>) returns (names: seq<Name>)
    ensures forall n :: n in names <==> Selects(entries, n)
  {
    names := [];
    for i := 0 to |entries|
      invariant forall n :: n in names <==> Selects(entries[..i], n)
    {
      assert entries[..i + 1] == entries[..i] + [entries[i]];
      if entries[i].Dependency? && entries[i].applies {
        names := names + [entries[i].name];
      }
    }
    assert entries[..|entries|] == entries;
  }

  /** `_selected_root_names`. */
  method SelectedRootNames(lock: Lock) returns (selected: set<Name>)
    ensures forall n :: n in selected <==> IsRoot(lock, n)
  {
    if ROOT_PACKAGE !in lock { return {}; }
    var root := lock[ROOT_PACKAGE];
    var names := SelectedNames(root.dependencies);
    selected := set n | n in names;
    for i := 0 to |root.optional|
      invariant forall n :: n in selected <==>
                  || Selects(root.dependencies, n)
                  || exists g :: g in root.optional[..i] && g.Entries? && Selects(g.entries, n)
    {
      var group := root.optional[i];
      assert root.optional[..i + 1] == root.optional[..i] + [group];
      if group.NotAList? { continue; }
      var more := SelectedNames(group.entries);
      selected := selected + set n | n in more;
      assert group in root.optional[..i + 1];
    }
    assert root.optional[..|root.optional|] == root.optional;
  }

  // ---------- The worklist ----------

  /** Every name any list of the lockfile mentions: it bounds the search. */
  ghost function Mentioned(lock: Lock): set<Name> {
    set p, e | p in lock.Values && e in p.dependencies && e.Dependency? :: e.name
  }

  /** The worklist covers every unexplored edge and holds only required names. */
  ghost predicate WorklistOk(lock: Lock, installed: set<Name>, pending: seq<Name>, seen: set<Name>, missing: set<Name>) {
    && (forall n :: n in pending ==> Required(lock, installed, n))
    && (forall n :: n in seen ==> Required(lock, installed, n))
    && (forall n :: IsRoot(lock, n) ==> n in seen || n in pending)
    && (forall m, n :: m in seen && Edge(lock, installed, m, n) ==> n in seen || n in pending)
    && (forall n :: n in missing <==> n in seen && !(n in lock && n in installed))
  }

  /** Dropping a name that was seen before loses nothing. */
  lemma PopSeen(lock: Lock, installed: set<Name>, pending: seq<Name>, name: Name, seen: set<Name>, missing: set<Name>)
    requires WorklistOk(lock, installed, pending + [name], seen, missing) && name in seen
    ensures WorklistOk(lock, installed, pending, seen, missing)
  {
    assert forall n :: n in pending + [name] <==> n in pending || n == name;
  }

  /** Taking a name that is not locked or not installed ends the search there. */
  lemma PopMissing(lock: Lock, installed: set<Name>, pending: seq<Name>, name: Name, seen: set<Name>, missing: set<Name>)
    requires WorklistOk(lock, installed, pending + [name], seen, missing) && name !in seen
    requires !(name in lock && name in installed)
    ensures WorklistOk(lock, installed, pending, seen + {name}, missing + {name})
  {
    assert forall n :: n in pending + [name] <==> n in pending || n == name;
  }

  /** Taking a present name puts its dependencies on the worklist. */
  lemma PopPresent(lock: Lock, installed: set<Name>, pending: seq<Name>, name: Name, seen: set<Name>, missing: set<Name>,
                   more: seq<Name>)
    requires WorklistOk(lock, installed, pending + [name], seen, missing) && name !in seen
    requires name in lock && name in installed
    requires forall n :: n in more <==> Selects(lock[name].dependencies, n)
    ensures WorklistOk(lock, installed, pending + more, seen + {name}, missing)
    ensures forall n :: n in more ==> n in Mentioned(lock)
  {
    assert name in pending + [name];
    NewWorkOk(lock, installed, name, more);
    assert forall n :: n in pending + [name] <==> n in pending || n == name;
    assert forall n :: n in pending + more <==> n in pending || n in more;
  }

  lemma WorklistStarts(lock: Lock, installed: set<Name>, pending: seq<Name>)
    requires forall n :: n in pending <==> IsRoot(lock, n)
    ensures WorklistOk(lock, installed, pending, {}, {})
  {
    forall n | n in pending
      ensures Required(lock, installed, n)
    {
      RootRequired(lock, installed, n);
    }
  }

  lemma WorklistEnds(lock: Lock, installed: set<Name>, seen: set<Name>, missing: set<Name>)
    requires WorklistOk(lock, installed, [], seen, missing)
    ensures forall n :: n in missing <==> Missing(lock, installed, n)
  {
    forall n | Missing(lock, installed, n)
      ensures n in missing
    {
      var path :| Chain(lock, installed, path) && path[|path| - 1] == n;
      ChainStaysInside(lock, installed, seen, path);
    }
  }

  lemma SplitLast(names: seq<Name>)
    requires names != []
    ensures names == names[..|names| - 1] + [names[|names| - 1]]
  {
  }

  /** The search stays inside `universe`: it terminates, as a name is only expanded once. */
  ghost predicate Inside(universe: set<Name>, pending: seq<Name>, seen: set<Name>) {
    seen <= universe && forall n :: n in pending ==> n in universe
  }

  lemma PopInside(universe: set<Name>, pending: seq<Name>, name: Name, seen: set<Name>)
    requires Inside(universe, pending + [name], seen)
    ensures Inside(universe, pending, seen) && Inside(universe, pending, seen + {name})
    ensures name !in seen ==> universe - (seen + {name}) < universe - seen
  {
    assert name in pending + [name];
    assert forall n :: n in pending ==> n in pending + [name];
    assert name !in seen ==> name in universe - seen;
  }

  /** `_required_missing_packages`: the answer does not depend on the order in which
      the roots are listed or the worklist is popped. */
  method RequiredMissingPackages(lock: Lock, installed: set<Name>) returns (missing: set<Name>)
    ensures forall n :: n in missing <==> Required(lock, installed, n) && !(n in lock && n in installed)
  {
    var roots := SelectedRootNames(lock);
    var pending := Listing(roots);
    var seen: set<Name> := {};
    missing := {};
    ghost var universe := roots + Mentioned(lock);
    WorklistStarts(lock, installed, pending);
    while pending != []
      invariant WorklistOk(lock, installed, pending, seen, missing)
      invariant Inside(universe, pending, seen)
      decreases universe - seen, |pending|
    {
      var name := pending[|pending| - 1];
      SplitLast(pending);
      pending := pending[..|pending| - 1];
      PopInside(universe, pending, name, seen);
      if name in seen {
        PopSeen(lock, installed, pending, name, seen, missing);
        continue;
      }
      if name !in lock {
        PopMissing(lock, installed, pending, name, seen, missing);
        seen, missing := seen + {name}, missing + {name};
        continue;
      }
      if name !in installed {
        PopMissing(lock, installed, pending, name, seen, missing);
        seen, missing := seen + {name}, missing + {name};
        continue;
      }
      var more := SelectedNames(lock[name].dependencies);
      PopPresent(lock, installed, pending, name, seen, missing, more);
      seen := seen + {name};
      pending := pending + more;
    }
    WorklistEnds(lock, installed, seen, missing);
  }

  lemma NewWorkOk(lock: Lock, installed: set<Name>, name: Name, more: seq<Name>)
    requires Required(lock, installed, name) && name in lock && name in installed
    requires forall n :: n in more <==> Selects(lock[name].dependencies, n)
    ensures forall n :: n in more <==> Edge(lock, installed, name, n)
    ensures forall n :: n in more ==> Required(lock, installed, n) && n in Mentioned(lock)
  {
    forall n | n in more
      ensures Required(lock, installed, n) && n in Mentioned(lock)
    {
      RequiredStep(lock, installed, name, n);
      assert lock[name] in lock.Values && Dependency(n, true) in lock[name].dependencies;
    }
  }

  /** `list(...)` of a set, in some order. */
  method Listing(names: set<Name>) returns (listed: seq<Name>)
    ensures forall n :: n in listed <==> n in names
  {
    listed := [];
    var left := names;
    while left != {}
      invariant left <= names
      invariant forall n :: n in listed <==> n in names - left
    {
      var n :| n in left;
      left := left - {n};
      listed := listed + [n];
    }
  }
}
