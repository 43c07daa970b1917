/**
  Graph materialisation (dask_match/expr.py:271-291, 385-412, 451-456,
  628-631): each node's layer of tasks, and the traversal that merges the
  layers of every node reachable from the root.

  A task is its list of arguments; the callable it applies (the fused
  subgraph of a Blockwise node, `M.head`) is not part of this model.
 */
module Graph {
  import opened Wrappers
  import opened Ir
  import opened Oracles
  import MatchIO
  import opened Partitions

  /** How every task of a Blockwise layer reads one dependency. */
  datatype Source =
    | Broadcast(name: Name)       // key `(dep, 0)` for every partition
    | Lookup(items: seq<Value>)   // `lookup[i]` of a BlockwiseArg
    | Partitioned(name: Name)     // key `(dep, i)`

  /** The entries of a BlockwiseArg's `lookup`, for indexing. */
  function LookupItems(dep: Expr): (r: Result<seq<Value>>)
    ensures r.Ok? ==> SlotValue(dep, 0).Ok?
    ensures SlotValue(dep, 0).Ok? && (SlotValue(dep, 0).value.VList? || SlotValue(dep, 0).value.VTuple? || SlotValue(dep, 0).value.VArray?) ==>
              r == Ok(SlotValue(dep, 0).value.items)
    ensures r.Ok? && SlotValue(dep, 0).value.VStr? ==> |r.value| == |SlotValue(dep, 0).value.s|
    ensures r.Ok? ==> var v := SlotValue(dep, 0).value; v.VList? || v.VTuple? || v.VArray? || v.VStr?
  {
    var v :- SlotValue(dep, 0);
    if v.VList? || v.VTuple? || v.VArray? then Ok(v.items)
    else if v.VStr? then Ok(seq(|v.s|, i requires 0 <= i < |v.s| => VStr([v.s[i]])))
    else Err(TypeError)
  }

  /**
    One entry of the dependency list `Blockwise._layer` builds: a broadcast
    dependency is wrapped to hand key `(dep, 0)` to every partition (which
    needs this node's `npartitions`), a BlockwiseArg is indexed, anything
    else is read partition by partition.
   */
  function SourceFor(e: Expr, dep: Expr, w: World): (r: Result<Source>)
    ensures r.Ok? ==> BroadcastDep(e, dep, w).Ok?
    ensures r.Ok? && BroadcastDep(e, dep, w).value ==> r.value == Broadcast(NameOf(dep))
    ensures r.Ok? && !BroadcastDep(e, dep, w).value && dep.kind != BlockwiseArg ==> r.value == Partitioned(NameOf(dep))
    ensures r.Ok? && dep.kind == BlockwiseArg ==> r.value.Lookup?
  {
    var b :- BroadcastDep(e, dep, w);
    if b then
      var _ :- NPartitions(e, w);
      Ok(Broadcast(NameOf(dep)))
    else if dep.kind == BlockwiseArg then
      var items :- LookupItems(dep);
      Ok(Lookup(items))
    else Ok(Partitioned(NameOf(dep)))
  }

  /** The sources of dependencies `ds` of `e`, in order. */
  function Sources(e: Expr, ds: seq<Expr>, w: World): (r: Result<seq<Source>>)
    ensures r.Ok? ==> |r.value| == |ds|
    ensures r.Ok? ==> forall j :: 0 <= j < |ds| ==> SourceFor(e, ds[j], w) == Ok(r.value[j])
  {
    if ds == [] then Ok([])
    else
      var s :- SourceFor(e, ds[0], w);
      var rest :- Sources(e, ds[1..], w);
      Ok([s] + rest)
  }

  /** Whether every lookup has an entry for each of `n` partitions. */
  predicate LookupsCover(srcs: seq<Source>, n: int) {
    forall j :: 0 <= j < |srcs| && srcs[j].Lookup? ==> n <= |srcs[j].items|
  }

  /** The argument a source gives task `i`. */
  function ArgFor(s: Source, i: nat): Arg
    requires s.Lookup? ==> i < |s.items|
  {
    match s
    case Broadcast(n) => Ref(Key(n, 0))
    case Lookup(items) => Const(items[i])
    case Partitioned(n) => Ref(Key(n, i))
  }

  /** The arguments of task `i`: one per dependency. */
  function TaskFor(srcs: seq<Source>, i: nat): (t: Task)
    requires LookupsCover(srcs, i + 1)
    ensures |t| == |srcs|
  {
    seq(|srcs|, j requires 0 <= j < |srcs| => ArgFor(srcs[j], i))
  }

  /** `Blockwise._layer`: task `(name, i)` for each partition `i`. */
  function BlockwiseLayer(e: Expr, w: World): Result<map<Key, Task>> {
    var srcs :- Sources(e, Deps(e), w);
    var n :- NPartitions(e, w);
    if !LookupsCover(srcs, n) then Err(IndexError)
    else Ok(map i | 0 <= i < n :: Key(NameOf(e), i) := TaskFor(srcs, i))
  }

  /** A literal operand as a task argument; a node placed in a task is an opaque object. */
  function ArgOf(op: Operand): Arg {
    if op.Lit? then Const(op.v) else Const(VOpaque("object"))
  }

  /** `Head._layer`: one task on partition 0 of the frame. */
  function HeadLayer(e: Expr): Result<map<Key, Task>> {
    var frame :- Slot(e, 0);
    if !frame.Node? then Err(AttributeError)
    else
      var n :- Slot(e, 1);
      Ok(map[Key(NameOf(e), 0) := [Ref(Key(NameOf(frame.e), 0)), ArgOf(n)]])
  }

  /** The kinds whose layer is `Blockwise._layer`. */
  predicate BlockwiseLayered(k: Kind) {
    IsElemwise(k) || k == Filter || k == Fused || k == MatchFromPandas
  }

  /** `_layer()` of each kind. */
  function Layer(e: Expr, w: World): Result<map<Key, Task>> {
    match e.kind
    case Head => HeadLayer(e)
    case BlockwiseArg => Ok(map[])
    case FromGraph => MatchIO.FromGraphLayer(e)
    case FromPandas => Ok(w.opaqueLayer(e))
    case ReadParquet => Ok(w.opaqueLayer(e))
    case Literal => Ok(w.opaqueLayer(e))
    case Len => Ok(w.opaqueLayer(e))
    case Lengths => Ok(w.opaqueLayer(e))
    case _ => BlockwiseLayer(e, w)
  }

  // ---------------------------------------------------------------------
  // Layer properties
  // ---------------------------------------------------------------------

  /** The kinds that inherit `Blockwise._layer` use it. */
  lemma LayerIsBlockwise(e: Expr, w: World)
    requires BlockwiseLayered(e.kind)
    ensures Layer(e, w) == BlockwiseLayer(e, w)
  {
    assert e.kind != Head && e.kind != BlockwiseArg && e.kind != FromGraph && e.kind != FromPandas;
    assert e.kind != ReadParquet && e.kind != Literal && e.kind != Len && e.kind != Lengths;
  }

  /** A Blockwise layer has exactly the keys `__dask_keys__` lists: one task per partition. */
  lemma BlockwiseLayerKeys(e: Expr, w: World)
    requires BlockwiseLayer(e, w).Ok?
    ensures Keys(e, w).Ok?
    ensures forall k :: k in BlockwiseLayer(e, w).value <==> k in Keys(e, w).value
  {
    var layer := BlockwiseLayer(e, w).value;
    forall k
      ensures k in layer <==> k in Keys(e, w).value
    {
      KeysArePartitions(e, w, k);
    }
  }

  /**
    Each task of a Blockwise layer takes key `(dep, 0)` from a broadcast
    dependency, key `(dep, i)` from any other node dependency, and entry `i`
    of a BlockwiseArg's lookup.
   */
  lemma BlockwiseLayerTasks(e: Expr, w: World, i: int, j: nat)
    requires BlockwiseLayer(e, w).Ok? && 0 <= i < NPartitions(e, w).value && j < |Deps(e)|
    ensures var task := BlockwiseLayer(e, w).value[Key(NameOf(e), i)];
            var dep := Deps(e)[j];
            && |task| == |Deps(e)|
            && (BroadcastDep(e, dep, w) == Ok(true) ==> task[j] == Ref(Key(NameOf(dep), 0)))
            && (BroadcastDep(e, dep, w) == Ok(false) && dep.kind != BlockwiseArg ==> task[j] == Ref(Key(NameOf(dep), i)))
            && (BroadcastDep(e, dep, w) == Ok(false) && dep.kind == BlockwiseArg ==>
                  LookupItems(dep).Ok? && task[j] == Const(LookupItems(dep).value[i]))
  {
    var srcs := Sources(e, Deps(e), w).value;
    assert BlockwiseLayer(e, w).value[Key(NameOf(e), i)] == TaskFor(srcs, i);
    assert SourceFor(e, Deps(e)[j], w) == Ok(srcs[j]);
  }

  /** Head emits one task, keyed `(name, 0)`, on partition 0 of its frame. */
  lemma HeadLayerSingle(e: Expr, frame: Expr, w: World)
    requires e.kind == Head && |e.operands| == 2 && e.operands[0] == Node(frame)
    ensures Layer(e, w) == Ok(map[Key(NameOf(e), 0) := [Ref(Key(NameOf(frame), 0)), ArgOf(e.operands[1])]])
    ensures Divisions(frame, w).Ok? && |Divisions(frame, w).value| >= 2 ==>
              Keys(e, w) == Ok([Key(NameOf(e), 0)]) && Layer(e, w).value.Keys == {Key(NameOf(e), 0)}
  {
    if Divisions(frame, w).Ok? && |Divisions(frame, w).value| >= 2 {
      HeadDivisions(e, frame, w);
    }
  }

  /** A Fused node over a group whose first member has N partitions emits exactly N tasks. */
  lemma FusedChainTasks(group: seq<Expr>, deps: seq<Expr>, w: World)
    requires group != [] && Divisions(group[0], w).Ok? && |Divisions(group[0], w).value| >= 1
    requires var f := Expr(Fused, [Group(group)] + seq(|deps|, i requires 0 <= i < |deps| => Node(deps[i])));
             Layer(f, w).Ok?
    ensures var f := Expr(Fused, [Group(group)] + seq(|deps|, i requires 0 <= i < |deps| => Node(deps[i])));
            |Layer(f, w).value.Keys| == |Divisions(group[0], w).value| - 1
  {
    var f := Expr(Fused, [Group(group)] + seq(|deps|, i requires 0 <= i < |deps| => Node(deps[i])));
    FusedDivisions(group, deps, w);
    LayerKeyCount(f, w);
  }

  /** A Blockwise layer has one task per key of the node. */
  lemma LayerKeyCount(e: Expr, w: World)
    requires BlockwiseLayered(e.kind) && Layer(e, w).Ok?
    ensures Keys(e, w).Ok? && |Layer(e, w).value.Keys| == |Keys(e, w).value|
  {
    LayerIsBlockwise(e, w);
    BlockwiseLayerKeys(e, w);
    var ks := Keys(e, w).value;
    assert Layer(e, w).value.Keys == set k | k in ks;
    DistinctCount(ks);
  }

  /** A sequence without repeats has as many elements as its set. */
  lemma {:induction false} DistinctCount<T>(xs: seq<T>)
    requires forall i, j :: 0 <= i < j < |xs| ==> xs[i] != xs[j]
    ensures |set x | x in xs| == |xs|
  {
    if xs != [] {
      var rest := xs[1..];
      DistinctCount(rest);
      assert (set x | x in xs) == (set x | x in rest) + {xs[0]};
      assert xs[0] !in rest by {
        forall j | 0 <= j < |rest|
          ensures rest[j] != xs[0]
        {
          assert rest[j] == xs[j + 1];
        }
      }
    }
  }

  // ---------------------------------------------------------------------
  // Traversal
  // ---------------------------------------------------------------------

  /** Every node reachable from a reachable node is reachable. */
  lemma {:induction false} ReachTransitive(root: Expr, x: Expr)
    requires x in Reach(root)
    ensures Reach(x) <= Reach(root)
    decreases root
  {
    if x != root {
      var i :| 0 <= i < |root.operands| && root.operands[i].Node? && x in Reach(root.operands[i].e);
      ReachTransitive(root.operands[i].e, x);
      ReachOperand(root, i);
    }
  }

  /** A node operand of a reachable node is reachable. */
  lemma ReachDependency(root: Expr, x: Expr, c: Expr)
    requires x in Reach(root) && c in Dependencies(x)
    ensures c in Reach(root)
  {
    var i :| 0 <= i < |x.operands| && x.operands[i] == Node(c);
    ReachTransitive(root, x);
    assert c in Reach(x.operands[i].e);
  }

  /** A set closed under dependencies holds everything reachable from its members. */
  lemma {:induction false} ClosedHoldsReach(done: set<Expr>, e: Expr)
    requires e in done
    requires forall x, c :: x in done && c in Dependencies(x) ==> c in done
    ensures Reach(e) <= done
    decreases e
  {
    forall y | y in Reach(e)
      ensures y in done
    {
      if y != e {
        var i :| 0 <= i < |e.operands| && e.operands[i].Node? && y in Reach(e.operands[i].e);
        assert e.operands[i].e in Dependencies(e);
        ClosedHoldsReach(done, e.operands[i].e);
      }
    }
  }

  /** With unique names, a visited set that meets every dependency by name is closed, so it holds every reachable node. */
  lemma VisitedAll(root: Expr, done: set<Expr>, seen: set<Name>)
    requires UniqueNames(root) && root in done && done <= Reach(root)
    requires seen == set x | x in done :: NameOf(x)
    requires forall x, c :: x in done && c in Dependencies(x) ==> NameOf(c) in seen
    ensures Reach(root) == done
  {
    forall x, c | x in done && c in Dependencies(x)
      ensures c in done
    {
      var z :| z in done && NameOf(z) == NameOf(c);
      ReachDependency(root, x, c);
    }
    ClosedHoldsReach(done, root);
  }

  /** Every key of the merged graph carries the task of the visited layer recorded for it in `from`. */
  ghost predicate Sound(graph: map<Key, Task>, from: map<Key, Expr>, done: set<Expr>, layerOf: Expr -> Result<map<Key, Task>>)
  {
    forall k :: k in graph ==>
      k in from && from[k] in done && layerOf(from[k]).Ok? && k in layerOf(from[k]).value && graph[k] == layerOf(from[k]).value[k]
  }

  /** Every visited layer's keys are in the merged graph. */
  ghost predicate Complete(graph: map<Key, Task>, done: set<Expr>, layerOf: Expr -> Result<map<Key, Task>>)
  {
    forall x :: x in done ==> layerOf(x).Ok? && layerOf(x).value.Keys <= graph.Keys
  }

  /** Merging one more layer, later keys winning, keeps the graph sound and complete. */
  lemma MergeSound(graph: map<Key, Task>, from: map<Key, Expr>, done: set<Expr>, layerOf: Expr -> Result<map<Key, Task>>, x: Expr)
      returns (from': map<Key, Expr>)
    requires Sound(graph, from, done, layerOf)
    requires layerOf(x).Ok?
    ensures Sound(graph + layerOf(x).value, from', done + {x}, layerOf)
  {
    var layer := layerOf(x).value;
    from' := map k | k in graph.Keys + layer.Keys :: if k in layer then x else from[k];
    var merged := graph + layer;
    forall k | k in merged
      ensures k in from' && from'[k] in done + {x} && layerOf(from'[k]).Ok?
      ensures k in layerOf(from'[k]).value && merged[k] == layerOf(from'[k]).value[k]
    {
      if k in layer {
        assert from'[k] == x && merged[k] == layer[k];
      } else {
        assert k in graph && from'[k] == from[k] && merged[k] == graph[k];
      }
    }
  }

  lemma MergeComplete(graph: map<Key, Task>, done: set<Expr>, layerOf: Expr -> Result<map<Key, Task>>, x: Expr)
    requires Complete(graph, done, layerOf)
    requires layerOf(x).Ok?
    ensures Complete(graph + layerOf(x).value, done + {x}, layerOf)
  {
  }

  /** Taking a node whose name is new onto the visited set keeps the names of the visited set in `seen`. */
  lemma NamesStep(done: set<Expr>, seen: set<Name>, x: Expr)
    requires seen == set y | y in done :: NameOf(y)
    ensures seen + {NameOf(x)} == set y | y in done + {x} :: NameOf(y)
  {
    var after := set y | y in done + {x} :: NameOf(y);
    forall n | n in after
      ensures n in seen + {NameOf(x)}
    {
      var y :| y in done + {x} && NameOf(y) == n;
      if y != x {
        assert NameOf(y) in seen;
      }
    }
    forall n | n in seen
      ensures n in after
    {
      var y :| y in done && NameOf(y) == n;
      assert y in done + {x};
    }
  }

  /** Every dependency of a visited node is either taken by name or still waiting on the stack. */
  ghost predicate Closed(done: set<Expr>, seen: set<Name>, stack: seq<Expr>)
  {
    forall y, c :: y in done && c in Dependencies(y) ==> NameOf(c) in seen || c in stack
  }

  /** Popping a node whose name is already taken keeps the visited set closed. */
  lemma ClosedPop(done: set<Expr>, seen: set<Name>, stack: seq<Expr>)
    requires stack != [] && Closed(done, seen, stack) && NameOf(stack[|stack| - 1]) in seen
    ensures Closed(done, seen, stack[..|stack| - 1])
  {
    var rest := stack[..|stack| - 1];
    assert stack == rest + [stack[|stack| - 1]];
    forall y, c | y in done && c in Dependencies(y)
      ensures NameOf(c) in seen || c in rest
    {
      if NameOf(c) !in seen {
        assert c in rest + [stack[|stack| - 1]];
      }
    }
  }

  /** Visiting a popped node and pushing its dependencies keeps the visited set closed. */
  lemma ClosedVisit(done: set<Expr>, seen: set<Name>, stack: seq<Expr>)
    requires stack != [] && Closed(done, seen, stack)
    ensures var x := stack[|stack| - 1];
      Closed(done + {x}, seen + {NameOf(x)}, stack[..|stack| - 1] + Dependencies(x))
  {
    var x := stack[|stack| - 1];
    var rest := stack[..|stack| - 1];
    assert stack == rest + [x];
    forall y, c | y in done + {x} && c in Dependencies(y)
      ensures NameOf(c) in seen + {NameOf(x)} || c in rest + Dependencies(x)
    {
      if y == x {
        assert c in rest + Dependencies(x);
      } else if NameOf(c) !in seen && c != x {
        assert c in rest + [x];
        assert c in rest;
      }
    }
  }

  /** The dependencies of a reachable node are reachable. */
  lemma DependenciesReach(root: Expr, x: Expr)
    requires x in Reach(root)
    ensures forall c :: c in Dependencies(x) ==> c in Reach(root)
  {
    forall c | c in Dependencies(x)
      ensures c in Reach(root)
    {
      ReachDependency(root, x, c);
    }
  }

  /** No two visited nodes share a name. */
  ghost predicate DistinctNames(visited: seq<Expr>)
  {
    forall i, j :: 0 <= i < j < |visited| ==> NameOf(visited[i]) != NameOf(visited[j])
  }

  /** Visiting a node whose name is not yet taken keeps the visited names distinct and `done` the set of visited nodes. */
  lemma VisitStep(visited: seq<Expr>, done: set<Expr>, seen: set<Name>, x: Expr)
    requires DistinctNames(visited) && done == set y | y in visited
    requires seen == (set y | y in done :: NameOf(y)) && NameOf(x) !in seen
    ensures DistinctNames(visited + [x])
    ensures done + {x} == set y | y in visited + [x]
  {
    var v := visited + [x];
    forall i, j | 0 <= i < j < |v|
      ensures NameOf(v[i]) != NameOf(v[j])
    {
      if j == |visited| {
        assert v[i] == visited[i] && visited[i] in done;
      } else {
        assert v[i] == visited[i] && v[j] == visited[j];
      }
    }
    var after := set y | y in v;
    forall y | y in after
      ensures y in done + {x}
    {
      var i :| 0 <= i < |v| && v[i] == y;
      if i < |visited| {
        assert visited[i] == y;
      }
    }
    forall y | y in done + {x}
      ensures y in after
    {
      if y != x {
        var i :| 0 <= i < |visited| && visited[i] == y;
        assert v[i] == y;
      } else {
        assert v[|visited|] == x;
      }
    }
  }

  /** Visiting a reachable node that was not visited shrinks what is left to visit. */
  lemma LeftShrinks(all: set<Expr>, done: set<Expr>, x: Expr)
    requires x in all && x !in done
    ensures |all - (done + {x})| < |all - done|
  {
    var left := all - done;
    assert all - (done + {x}) == left - {x};
    assert x in left;
  }

  /**
    `__dask_graph__`: a depth-first walk that takes the layer of each name
    once and merges the layers, later ones winning. The walk visits
    distinct names only; when reachable nodes have distinct names it visits
    every one of them.
   */
  method Materialize(root: Expr, layerOf: Expr -> Result<map<Key, Task>>) returns (r: Result<map<Key, Task>>, ghost visited: seq<Expr>)
    ensures forall x :: x in visited ==> x in Reach(root)
    ensures forall i, j :: 0 <= i < j < |visited| ==> NameOf(visited[i]) != NameOf(visited[j])
    ensures r.Ok? ==> forall x :: x in visited ==> layerOf(x).Ok? && layerOf(x).value.Keys <= r.value.Keys
    ensures r.Ok? ==> forall k :: k in r.value ==>
              exists x :: x in visited && layerOf(x).Ok? && k in layerOf(x).value && r.value[k] == layerOf(x).value[k]
    ensures r.Ok? && UniqueNames(root) ==> (forall x :: x in Reach(root) <==> x in visited)
    ensures r.Err? ==> exists x :: x in Reach(root) && layerOf(x).Err?
  {
    var stack := [root];
    var seen: set<Name> := {};
    var graph: map<Key, Task> := map[];
    ghost var done: set<Expr> := {};
    ghost var from: map<Key, Expr> := map[];
    visited := [];
    while stack != []
      invariant forall x :: x in stack ==> x in Reach(root)
      invariant done == set x | x in visited
      invariant done <= Reach(root)
      invariant seen == set x | x in done :: NameOf(x)
      invariant DistinctNames(visited)
      invariant Sound(graph, from, done, layerOf) && Complete(graph, done, layerOf)
      invariant root in done || (stack == [root] && done == {})
      invariant Closed(done, seen, stack)
      decreases |Reach(root) - done|, |stack|
    {
      var x := stack[|stack| - 1];
      if NameOf(x) in seen {
        ClosedPop(done, seen, stack);
        stack := stack[..|stack| - 1];
        continue;
      }
      var layer := layerOf(x);
      if layer.Err? {
        return Err(layer.error), visited;
      }
      VisitStep(visited, done, seen, x);
      LeftShrinks(Reach(root), done, x);
      NamesStep(done, seen, x);
      ClosedVisit(done, seen, stack);
      DependenciesReach(root, x);
      from := MergeSound(graph, from, done, layerOf, x);
      MergeComplete(graph, done, layerOf, x);
      seen := seen + {NameOf(x)};
      done := done + {x};
      visited := visited + [x];
      graph := graph + layer.value;
      stack := stack[..|stack| - 1] + Dependencies(x);
    }
    if UniqueNames(root) {
      VisitedAll(root, done, seen);
    }
    r := Ok(graph);
    forall k | k in graph
      ensures exists x :: x in visited && layerOf(x).Ok? && k in layerOf(x).value && graph[k] == layerOf(x).value[k]
    {
      assert from[k] in visited;
    }
  }

  /** `__dask_graph__` of a root: the traversal with each node's own `_layer()`. */
  method DaskGraph(root: Expr, w: World) returns (r: Result<map<Key, Task>>)
    ensures r.Ok? && UniqueNames(root) ==> forall x :: x in Reach(root) ==> Layer(x, w).Ok? && Layer(x, w).value.Keys <= r.value.Keys
    ensures r.Ok? ==> forall k :: k in r.value ==>
              exists x :: x in Reach(root) && Layer(x, w).Ok? && k in Layer(x, w).value && r.value[k] == Layer(x, w).value[k]
    ensures r.Err? ==> exists x :: x in Reach(root) && Layer(x, w).Err?
  {
    ghost var visited;
    r, visited := Materialize(root, x => Layer(x, w));
  }
}
