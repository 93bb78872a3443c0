/** The dashboard seam check: depth-first detection of import cycles. */
module ImportCycles {

  type Path = string

  type Graph = map<Path, set<Path>>

  function Imports(graph: Graph, source: Path): set<Path> {
    if source in graph then graph[source] else {}
  }

  /** Consecutive members of `walk` import one another. */
  ghost predicate Walk(graph: Graph, walk: seq<Path>) {
    forall i :: 0 <= i < |walk| - 1 ==> walk[i] in graph && walk[i + 1] in graph[walk[i]]
  }

  ghost predicate Cycle(graph: Graph, cycle: seq<Path>) {
    |cycle| > 0 && Walk(graph, cycle) && cycle[|cycle| - 1] in graph && cycle[0] in graph[cycle[|cycle| - 1]]
  }

  ghost predicate Cyclic(graph: Graph) {
    exists cycle :: Cycle(graph, cycle)
  }

  // ---------- A finishing order rules cycles out ----------

  /** Every listed file comes after everything it imports. */
  ghost predicate Finished(graph: Graph, order: seq<Path>) {
    && (forall i, j :: 0 <= i < j < |order| ==> order[i] != order[j])
    && forall i, d :: 0 <= i < |order| && d in Imports(graph, order[i]) ==> d in order[..i]
  }

  /** Following imports from a finished file leads to ever earlier ones. */
  lemma {:induction false} WalkGoesBack(graph: Graph, order: seq<Path>, walk: seq<Path>, i: nat, j: nat) returns (k: nat)
    requires Finished(graph, order) && Walk(graph, walk) && j < |walk| && i < |order| && order[i] == walk[0]
    ensures k < |order| && order[k] == walk[j] && k + j <= i
    decreases j
  {
    if j == 0 {
      k := i;
    } else {
      var p := WalkGoesBack(graph, order, walk, i, j - 1);
      assert walk[j - 1 + 1] in Imports(graph, walk[j - 1]);
      assert walk[j] in order[..p];
      k :| 0 <= k < p && order[k] == walk[j];
    }
  }

  lemma CycleWalk(graph: Graph, cycle: seq<Path>)
    requires Cycle(graph, cycle)
    ensures Walk(graph, cycle + [cycle[0]])
  {
    var walk := cycle + [cycle[0]];
    forall i | 0 <= i < |walk| - 1
      ensures walk[i] in graph && walk[i + 1] in graph[walk[i]]
    {
      assert i < |cycle| - 1 ==> cycle[i + 1] in graph[cycle[i]];
    }
  }

  lemma FinishedIsAcyclic(graph: Graph, order: seq<Path>)
    requires Finished(graph, order) && forall source :: source in graph ==> source in order
    ensures !Cyclic(graph)
  {
    forall cycle | Cycle(graph, cycle)
      ensures false
    {
      assert cycle[0] in graph by {
        assert |cycle| == 1 || cycle[0 + 1] in graph[cycle[0]];
      }
      var i :| 0 <= i < |order| && order[i] == cycle[0];
      CycleWalk(graph, cycle);
      var k := WalkGoesBack(graph, order, cycle + [cycle[0]], i, |cycle|);
    }
  }

  // ---------- The search ----------

  class Checker {
    const graph: Graph
    var visiting: set<Path>
    var visited: set<Path>
    ghost var stack: seq<Path>   // the recursion path, outermost call first
    ghost var order: seq<Path>   // files in the order their visits completed

    ghost predicate Valid()
      reads this
    {
      && (forall p :: p in visiting <==> p in stack)
      && (forall p :: p in visited <==> p in order)
      && (forall i, j :: 0 <= i < j < |stack| ==> stack[i] != stack[j])
      && visiting !! visited
      && Walk(graph, stack)
      && Finished(graph, order)
    }

    /** Every file the search can meet. */
    ghost function Universe(): set<Path> {
      graph.Keys + set s, d | s in graph && d in graph[s] :: d
    }

    constructor (graph: Graph)
      ensures this.graph == graph && Valid() && visiting == {} && visited == {} && stack == []
    {
      this.graph := graph;
      visiting, visited, stack, order := {}, {}, [], [];
    }

    /** The inner `visit`: false stands for the failing exit of the process. */
    method Visit(source: Path) returns (ok: bool)
      requires Valid() && source in Universe() && visiting <= Universe()
      requires stack != [] ==> source in Imports(graph, stack[|stack| - 1])
      modifies this
      ensures !ok ==> Cyclic(graph)
      ensures ok ==> Valid() && visiting == old(visiting) && stack == old(stack)
      ensures ok ==> source in visited && old(visited) <= visited
      decreases Universe() - visiting, 0
    {
      if source in visiting {
        StackCloses(graph, stack, source);
        return false;
      }
      if source in visited { return true; }
      visiting := visiting + {source};
      stack := stack + [source];
      ok := VisitAll(source, Imports(graph, source));
      if !ok { return false; }
      assert stack == old(stack) + [source];
      visiting := visiting - {source};
      stack := old(stack);
      visited := visited + {source};
      FinishOne(graph, order, source);
      order := order + [source];
    }

    /** The loop over the imports of the file on top of the recursion path. */
    method VisitAll(source: Path, dependencies: set<Path>) returns (ok: bool)
      requires Valid() && visiting <= Universe() && source !in visited
      requires stack != [] && stack[|stack| - 1] == source && dependencies <= Imports(graph, source)
      modifies this
      ensures !ok ==> Cyclic(graph)
      ensures ok ==> Valid() && visiting == old(visiting) && stack == old(stack)
      ensures ok ==> dependencies <= visited && old(visited) <= visited
      decreases Universe() - visiting, 1
    {
      var left := dependencies;
      while left != {}
        invariant Valid() && visiting == old(visiting) && stack == old(stack)
        invariant left <= dependencies && dependencies - left <= visited && old(visited) <= visited
      {
        var dependency :| dependency in left;
        ok := Visit(dependency);
        if !ok { return false; }
        left := left - {dependency};
      }
      return true;
    }

    /** The outer loop: on completion every file of the graph has been visited and no
        visit is left open. */
    method VisitGraph() returns (ok: bool)
      requires Valid() && visiting == {} && stack == []
      modifies this
      ensures ok <==> !Cyclic(graph)
      ensures ok ==> Valid() && visiting == {} && graph.Keys <= visited
    {
      var left := graph.Keys;
      while left != {}
        invariant Valid() && visiting == {} && stack == []
        invariant left <= graph.Keys && graph.Keys - left <= visited
      {
        var source :| source in left;
        ok := Visit(source);
        if !ok { return false; }
        left := left - {source};
      }
      FinishedIsAcyclic(graph, order);
      return true;
    }
  }

  /** Coming back to a file on the recursion path closes a cycle. */
  lemma StackCloses(graph: Graph, stack: seq<Path>, source: Path)
    requires Walk(graph, stack) && source in stack && source in Imports(graph, stack[|stack| - 1])
    ensures Cyclic(graph)
  {
    var i :| 0 <= i < |stack| && stack[i] == source;
    var cycle := stack[i..];
    forall j | 0 <= j < |cycle| - 1
      ensures cycle[j + 1] in Imports(graph, cycle[j])
    {
      assert stack[i + j + 1] in Imports(graph, stack[i + j]);
    }
    assert Cycle(graph, cycle);
  }

  lemma FinishOne(graph: Graph, order: seq<Path>, source: Path)
    requires Finished(graph, order) && source !in order
    requires forall d :: d in Imports(graph, source) ==> d in order
    ensures Finished(graph, order + [source])
  {
    var longer := order + [source];
    forall i, d | 0 <= i < |longer| && d in Imports(graph, longer[i])
      ensures d in longer[..i]
    {
      assert longer[..i] == order[..i];
    }
  }

  /** `assert_no_app_cycles`: passes if and only if no file imports itself through others. */
  method AssertNoCycles(graph: Graph) returns (ok: bool)
    ensures ok <==> !Cyclic(graph)
  {
    var checker := new Checker(graph);
    ok := checker.VisitGraph();
  }
}
