/**
  Blockwise fusion (dask_match/expr.py:838-922): one pass collects the
  Blockwise dependencies and dependents of every node, walks down from each
  root collecting a group whose members feed only the group, and replaces
  the group's first member by a `Fused` node; the driver repeats passes.

  Python sets and dicts of nodes hash by name, and `==` between two nodes
  builds a truthy `EQ` node, so membership is by name: the model keys its
  maps by `Name` and compares nodes by name. A Python set is kept as a
  sequence in insertion order, without two members of the same name.
 */
module Fusion {
  import opened Wrappers
  import opened Ir
  import Partitions
  import Rewrite
  import Graph
  import Oracles

  // ---------------------------------------------------------------------
  // Name sets
  // ---------------------------------------------------------------------

  /** The names of a list of nodes. */
  function Names(s: seq<Expr>): set<Name> {
    set x | x in s :: NameOf(x)
  }

  lemma NamesSnoc(s: seq<Expr>, x: Expr)
    ensures Names(s + [x]) == Names(s) + {NameOf(x)}
  {
    var a := Names(s + [x]);
    forall n | n in a ensures n in Names(s) + {NameOf(x)} {
      var y :| y in s + [x] && NameOf(y) == n;
      if y != x {
        assert y in s;
      }
    }
    forall n | n in Names(s) ensures n in a {
      var y :| y in s && NameOf(y) == n;
      assert y in s + [x];
    }
    assert x in s + [x];
  }

  lemma NamesPop(s: seq<Expr>)
    requires s != []
    ensures Names(s) == Names(s[..|s| - 1]) + {NameOf(s[|s| - 1])}
  {
    assert s == s[..|s| - 1] + [s[|s| - 1]];
    NamesSnoc(s[..|s| - 1], s[|s| - 1]);
  }

  /** `s.add(x)` on a set of nodes: nothing happens when a node of the same name is there. */
  function AddByName(s: seq<Expr>, x: Expr): (r: seq<Expr>)
    ensures Names(r) == Names(s) + {NameOf(x)}
    ensures forall y :: y in r ==> y in s || y == x
  {
    if NameOf(x) in Names(s) then s else NamesSnoc(s, x); s + [x]
  }

  /** `m[x]` on a dict keyed by nodes; a missing key is a KeyError. */
  function Lookup(m: map<Name, seq<Expr>>, x: Expr): (r: Result<seq<Expr>>)
    ensures r.Ok? <==> NameOf(x) in m
    ensures r.Ok? ==> r.value == m[NameOf(x)]
  {
    if NameOf(x) in m then Ok(m[NameOf(x)]) else Err(KeyError)
  }

  // ---------------------------------------------------------------------
  // Collecting dependencies and dependents
  // ---------------------------------------------------------------------

  /** `x` is listed in one of the dependency sets. */
  ghost predicate InDeps(deps: map<Name, seq<Expr>>, x: Expr) {
    exists n :: n in deps && x in deps[n]
  }

  /** `keys` lists the keys of `dependents` in insertion order, one node per name. */
  ghost predicate KeysMirror(keys: seq<Expr>, dependents: map<Name, seq<Expr>>) {
    Names(keys) == dependents.Keys && Graph.DistinctNames(keys)
  }

  /** Everything recorded is a reachable node, and every recorded key or dependency is Blockwise. */
  ghost predicate Recorded(all: set<Expr>, deps: map<Name, seq<Expr>>, dependents: map<Name, seq<Expr>>, keys: seq<Expr>) {
    KeysMirror(keys, dependents) &&
    (forall k :: k in keys ==> IsBlockwise(k.kind) && k in all) &&
    (forall n, d :: n in deps && d in deps[n] ==> IsBlockwise(d.kind) && d in all) &&
    (forall n, z :: n in dependents && z in dependents[n] ==> z in all)
  }

  /** Every visited node is recorded as a dependent of each of its Blockwise operands. */
  ghost predicate ConsumersComplete(done: set<Expr>, dependents: map<Name, seq<Expr>>) {
    forall y, c :: y in done && c in Dependencies(y) && IsBlockwise(c.kind) ==>
      NameOf(c) in dependents && NameOf(y) in Names(dependents[NameOf(c)])
  }

  /** `z` has a node operand named `n`. */
  ghost predicate ConsumerOf(z: Expr, n: Name) {
    exists c :: c in Dependencies(z) && NameOf(c) == n
  }

  /** Every recorded dependent of a name has an operand of that name. */
  ghost predicate DependentsSound(dependents: map<Name, seq<Expr>>) {
    forall n, z :: n in dependents && z in dependents[n] ==> ConsumerOf(z, n)
  }

  /** Every visited Blockwise node has a dependents entry and its Blockwise operands among its recorded dependencies. */
  ghost predicate DepsComplete(done: set<Expr>, deps: map<Name, seq<Expr>>, dependents: map<Name, seq<Expr>>) {
    forall y :: y in done && IsBlockwise(y.kind) ==>
      NameOf(y) in dependents && NameOf(y) in deps &&
      forall c :: c in Dependencies(y) && IsBlockwise(c.kind) ==> NameOf(c) in Names(deps[NameOf(y)])
  }

  /** Each entry of `d0` is still there in `d1`, with at least the same names. */
  ghost predicate Grows(d0: map<Name, seq<Expr>>, d1: map<Name, seq<Expr>>) {
    forall n :: n in d0 ==> n in d1 && Names(d0[n]) <= Names(d1[n])
  }

  /** `x` is recorded as a dependent of each Blockwise node among the first `i` of `ops`. */
  ghost predicate ConsumedUpTo(x: Expr, ops: seq<Expr>, i: nat, dependents: map<Name, seq<Expr>>)
    requires i <= |ops|
  {
    forall j :: 0 <= j < i && IsBlockwise(ops[j].kind) ==>
      NameOf(ops[j]) in dependents && NameOf(x) in Names(dependents[NameOf(ops[j])])
  }

  lemma GrowsTrans(d0: map<Name, seq<Expr>>, d1: map<Name, seq<Expr>>, d2: map<Name, seq<Expr>>)
    requires Grows(d0, d1) && Grows(d1, d2)
    ensures Grows(d0, d2)
  {
  }

  /** Recording `x` against operand `i` extends what is recorded for the operands before it. */
  lemma ConsumedStep(x: Expr, ops: seq<Expr>, i: nat, d0: map<Name, seq<Expr>>, d1: map<Name, seq<Expr>>)
    requires i < |ops| && ConsumedUpTo(x, ops, i, d0) && Grows(d0, d1)
    requires IsBlockwise(ops[i].kind) ==> NameOf(ops[i]) in d1 && NameOf(x) in Names(d1[NameOf(ops[i])])
    ensures ConsumedUpTo(x, ops, i + 1, d1)
  {
    forall j | 0 <= j < i + 1 && IsBlockwise(ops[j].kind)
      ensures NameOf(ops[j]) in d1 && NameOf(x) in Names(d1[NameOf(ops[j])])
    {
      if j < i {
        assert NameOf(ops[j]) in d0 && NameOf(x) in Names(d0[NameOf(ops[j])]);
        assert Names(d0[NameOf(ops[j])]) <= Names(d1[NameOf(ops[j])]);
      }
    }
  }

  lemma CompleteGrows(done: set<Expr>, d0: map<Name, seq<Expr>>, d1: map<Name, seq<Expr>>)
    requires ConsumersComplete(done, d0) && Grows(d0, d1)
    ensures ConsumersComplete(done, d1)
  {
  }

  /** Recording a new key: an empty dependents entry, appended to the key list. */
  lemma NewKey(all: set<Expr>, deps: map<Name, seq<Expr>>, dependents: map<Name, seq<Expr>>, keys: seq<Expr>, c: Expr)
    requires Recorded(all, deps, dependents, keys) && NameOf(c) !in dependents
    requires IsBlockwise(c.kind) && c in all
    ensures Recorded(all, deps, dependents[NameOf(c) := []], keys + [c])
    ensures Grows(dependents, dependents[NameOf(c) := []])
  {
    NamesSnoc(keys, c);
    DistinctSnoc(keys, c);
  }

  /** Adding `x` to the dependents of `c`. */
  lemma NewDependent(all: set<Expr>, deps: map<Name, seq<Expr>>, dependents: map<Name, seq<Expr>>, keys: seq<Expr>, c: Expr, x: Expr)
    requires Recorded(all, deps, dependents, keys) && NameOf(c) in dependents && x in all
    requires DependentsSound(dependents) && c in Dependencies(x)
    ensures var d := dependents[NameOf(c) := AddByName(dependents[NameOf(c)], x)];
            Recorded(all, deps, d, keys) && Grows(dependents, d) && NameOf(x) in Names(d[NameOf(c)]) &&
            DependentsSound(d)
  {
    var n := NameOf(c);
    var d := dependents[n := AddByName(dependents[n], x)];
    DependentRecorded(all, deps, dependents, keys, n, x, d);
    DependentGrows(dependents, n, x, d);
    assert ConsumerOf(x, n);
    SoundAdd(dependents, n, x);
  }

  lemma DependentRecorded(all: set<Expr>, deps: map<Name, seq<Expr>>, dependents: map<Name, seq<Expr>>, keys: seq<Expr>,
                          n: Name, x: Expr, d: map<Name, seq<Expr>>)
    requires Recorded(all, deps, dependents, keys) && n in dependents && x in all
    requires d == dependents[n := AddByName(dependents[n], x)]
    ensures Recorded(all, deps, d, keys)
  {
    DependentsIn(all, dependents, n, x, d);
    assert d.Keys == dependents.Keys;
    RecordedSameKeys(all, deps, dependents, keys, d);
  }

  /** Replacing the dependents by a map with the same keys and recorded nodes keeps the record consistent. */
  lemma RecordedSameKeys(all: set<Expr>, deps: map<Name, seq<Expr>>, dependents: map<Name, seq<Expr>>, keys: seq<Expr>,
                         d: map<Name, seq<Expr>>)
    requires Recorded(all, deps, dependents, keys)
    requires d.Keys == dependents.Keys
    requires forall m, z :: m in d && z in d[m] ==> z in all
    ensures Recorded(all, deps, d, keys)
  {
  }

  lemma DependentsIn(all: set<Expr>, dependents: map<Name, seq<Expr>>, n: Name, x: Expr, d: map<Name, seq<Expr>>)
    requires n in dependents && x in all
    requires forall m, z :: m in dependents && z in dependents[m] ==> z in all
    requires d == dependents[n := AddByName(dependents[n], x)]
    ensures forall m, z :: m in d && z in d[m] ==> z in all
  {
    forall m, z | m in d && z in d[m]
      ensures z in all
    {
      if m == n {
        assert z in dependents[n] || z == x;
      } else {
        assert z in dependents[m];
      }
    }
  }

  lemma DependentGrows(dependents: map<Name, seq<Expr>>, n: Name, x: Expr, d: map<Name, seq<Expr>>)
    requires n in dependents && d == dependents[n := AddByName(dependents[n], x)]
    ensures Grows(dependents, d) && NameOf(x) in Names(d[n])
  {
  }

  /** Adding `c` to the dependencies of `x`. */
  lemma NewDependency(all: set<Expr>, deps: map<Name, seq<Expr>>, dependents: map<Name, seq<Expr>>, keys: seq<Expr>, c: Expr, n: Name)
    requires Recorded(all, deps, dependents, keys) && n in deps && IsBlockwise(c.kind) && c in all
    ensures Recorded(all, deps[n := AddByName(deps[n], c)], dependents, keys)
  {
  }

  /** Once `x` is recorded against all its operands, the visited set may take it in. */
  lemma CompleteWith(done: set<Expr>, x: Expr, d0: map<Name, seq<Expr>>, d1: map<Name, seq<Expr>>)
    requires ConsumersComplete(done, d0) && Grows(d0, d1)
    requires ConsumedUpTo(x, Dependencies(x), |Dependencies(x)|, d1)
    ensures ConsumersComplete(done + {x}, d1)
  {
    CompleteGrows(done, d0, d1);
    var ops := Dependencies(x);
    forall y, c | y in done + {x} && c in Dependencies(y) && IsBlockwise(c.kind)
      ensures NameOf(c) in d1 && NameOf(y) in Names(d1[NameOf(c)])
    {
      if y == x && y !in done {
        var j :| 0 <= j < |ops| && ops[j] == c;
      }
    }
  }

  /**
    The bookkeeping of one visited node: a Blockwise node gets an empty
    dependency set and a dependents entry; each Blockwise operand is added
    to the node's dependencies (when it has a set) and the node to the
    operand's dependents.
   */
  method Record(x: Expr, deps0: map<Name, seq<Expr>>, dependents0: map<Name, seq<Expr>>, keys0: seq<Expr>,
                ghost all: set<Expr>, ghost done: set<Expr>)
    returns (deps: map<Name, seq<Expr>>, dependents: map<Name, seq<Expr>>, keys: seq<Expr>)
    requires x in all && forall c :: c in Dependencies(x) ==> c in all
    requires Recorded(all, deps0, dependents0, keys0) && ConsumersComplete(done, dependents0)
    requires DependentsSound(dependents0)
    ensures Recorded(all, deps, dependents, keys)
    ensures ConsumersComplete(done + {x}, dependents)
    ensures DependentsSound(dependents) && Grows(dependents0, dependents)
    ensures DepsFrame(deps0, deps, NameOf(x))
    ensures IsBlockwise(x.kind) ==> NameOf(x) in dependents && DepsUpTo(x, Dependencies(x), |Dependencies(x)|, deps)
  {
    deps, dependents, keys := deps0, dependents0, keys0;
    if IsBlockwise(x.kind) {
      deps := deps[NameOf(x) := []];
      if NameOf(x) !in dependents {
        dependents := dependents[NameOf(x) := []];
        keys := keys + [x];
      }
    }
    var ops := Dependencies(x);
    RecordStart(x, ops, all, deps0, dependents0, keys0, deps, dependents, keys);
    for i := 0 to |ops|
      invariant RecordingOperands(x, ops, i, all, deps0, dependents0, deps, dependents, keys)
    {
      var c := ops[i];
      ghost var deps1, dependents1, keys1 := deps, dependents, keys;
      if IsBlockwise(c.kind) {
        if NameOf(x) in deps {
          deps := deps[NameOf(x) := AddByName(deps[NameOf(x)], c)];
        }
        if NameOf(c) !in dependents {
          dependents := dependents[NameOf(c) := []];
          keys := keys + [c];
        }
        dependents := dependents[NameOf(c) := AddByName(dependents[NameOf(c)], x)];
      }
      RecordOperand(x, ops, i, all, deps0, dependents0, deps1, dependents1, keys1, deps, dependents, keys);
    }
    CompleteWith(done, x, dependents0, dependents);
  }

  /** The invariant of the operand loop of `Record` after the first `i` operands. */
  ghost predicate RecordingOperands(x: Expr, ops: seq<Expr>, i: nat, all: set<Expr>,
                                    deps0: map<Name, seq<Expr>>, dependents0: map<Name, seq<Expr>>,
                                    deps: map<Name, seq<Expr>>, dependents: map<Name, seq<Expr>>, keys: seq<Expr>)
    requires i <= |ops|
  {
    Recorded(all, deps, dependents, keys) && Grows(dependents0, dependents) &&
    ConsumedUpTo(x, ops, i, dependents) && DependentsSound(dependents) &&
    DepsFrame(deps0, deps, NameOf(x)) &&
    (IsBlockwise(x.kind) ==> NameOf(x) in dependents && DepsUpTo(x, ops, i, deps))
  }

  /** Giving a Blockwise `x` its empty dependency set and dependents entry sets up the operand loop. */
  lemma RecordStart(x: Expr, ops: seq<Expr>, all: set<Expr>,
                    deps0: map<Name, seq<Expr>>, dependents0: map<Name, seq<Expr>>, keys0: seq<Expr>,
                    deps: map<Name, seq<Expr>>, dependents: map<Name, seq<Expr>>, keys: seq<Expr>)
    requires x in all && Recorded(all, deps0, dependents0, keys0) && DependentsSound(dependents0)
    requires deps == (if IsBlockwise(x.kind) then deps0[NameOf(x) := []] else deps0)
    requires dependents == (if IsBlockwise(x.kind) && NameOf(x) !in dependents0 then dependents0[NameOf(x) := []] else dependents0)
    requires keys == (if IsBlockwise(x.kind) && NameOf(x) !in dependents0 then keys0 + [x] else keys0)
    ensures RecordingOperands(x, ops, 0, all, deps0, dependents0, deps, dependents, keys)
  {
    if IsBlockwise(x.kind) && NameOf(x) !in dependents0 {
      NewKey(all, deps0[NameOf(x) := []], dependents0, keys0, x);
    }
  }

  /** Recording operand `i` of `x`: the loop invariant moves on to `i + 1`. */
  lemma RecordOperand(x: Expr, ops: seq<Expr>, i: nat, all: set<Expr>,
                      deps0: map<Name, seq<Expr>>, dependents0: map<Name, seq<Expr>>,
                      deps: map<Name, seq<Expr>>, dependents: map<Name, seq<Expr>>, keys: seq<Expr>,
                      deps': map<Name, seq<Expr>>, dependents': map<Name, seq<Expr>>, keys': seq<Expr>)
    requires i < |ops| && ops == Dependencies(x) && x in all && ops[i] in all
    requires RecordingOperands(x, ops, i, all, deps0, dependents0, deps, dependents, keys)
    requires var c := ops[i];
             deps' == (if IsBlockwise(c.kind) && NameOf(x) in deps then deps[NameOf(x) := AddByName(deps[NameOf(x)], c)] else deps) &&
             keys' == (if IsBlockwise(c.kind) && NameOf(c) !in dependents then keys + [c] else keys) &&
             dependents' == (if !IsBlockwise(c.kind) then dependents
                             else var d := if NameOf(c) in dependents then dependents else dependents[NameOf(c) := []];
                                  d[NameOf(c) := AddByName(d[NameOf(c)], x)])
    ensures RecordingOperands(x, ops, i + 1, all, deps0, dependents0, deps', dependents', keys')
  {
    var c := ops[i];
    if IsBlockwise(c.kind) {
      if NameOf(x) in deps {
        NewDependency(all, deps, dependents, keys, c, NameOf(x));
      }
      var d := if NameOf(c) in dependents then dependents else dependents[NameOf(c) := []];
      if NameOf(c) !in dependents {
        NewKey(all, deps', dependents, keys, c);
      }
      NewDependent(all, deps', d, keys', c, x);
      GrowsTrans(dependents, d, dependents');
    }
    GrowsTrans(dependents0, dependents, dependents');
    ConsumedStep(x, ops, i, dependents, dependents');
    DepsStep(x, ops, i, deps0, deps, deps');
  }

  /** `deps` agrees with `deps0` away from `n`. */
  ghost predicate DepsFrame(deps0: map<Name, seq<Expr>>, deps: map<Name, seq<Expr>>, n: Name) {
    forall m :: m in deps0 && m != n ==> m in deps && deps[m] == deps0[m]
  }

  /** `x` has a dependency set naming each Blockwise node among the first `i` of `ops`. */
  ghost predicate DepsUpTo(x: Expr, ops: seq<Expr>, i: nat, deps: map<Name, seq<Expr>>)
    requires i <= |ops|
  {
    NameOf(x) in deps && forall k :: 0 <= k < i && IsBlockwise(ops[k].kind) ==> NameOf(ops[k]) in Names(deps[NameOf(x)])
  }

  /** Adding operand `i` to the dependency set of `x`, when it is Blockwise and the set exists. */
  lemma DepsStep(x: Expr, ops: seq<Expr>, i: nat, deps0: map<Name, seq<Expr>>, deps1: map<Name, seq<Expr>>,
                 deps: map<Name, seq<Expr>>)
    requires i < |ops| && DepsFrame(deps0, deps1, NameOf(x))
    requires deps == if IsBlockwise(ops[i].kind) && NameOf(x) in deps1
                     then deps1[NameOf(x) := AddByName(deps1[NameOf(x)], ops[i])] else deps1
    ensures DepsFrame(deps0, deps, NameOf(x))
    ensures DepsUpTo(x, ops, i, deps1) ==> DepsUpTo(x, ops, i + 1, deps)
  {
  }

  /** Adding a consumer of `n` to the dependents of `n` keeps them sound. */
  lemma SoundAdd(dependents: map<Name, seq<Expr>>, n: Name, x: Expr)
    requires DependentsSound(dependents) && n in dependents && ConsumerOf(x, n)
    ensures DependentsSound(dependents[n := AddByName(dependents[n], x)])
  {
  }

  /** Visiting `x` under a new name keeps the recorded dependencies of the earlier visits. */
  lemma DepsCompleteStep(done: set<Expr>, x: Expr, deps0: map<Name, seq<Expr>>, deps: map<Name, seq<Expr>>,
                         d0: map<Name, seq<Expr>>, d1: map<Name, seq<Expr>>)
    requires DepsComplete(done, deps0, d0) && Grows(d0, d1)
    requires forall y :: y in done ==> NameOf(y) != NameOf(x)
    requires DepsFrame(deps0, deps, NameOf(x))
    requires IsBlockwise(x.kind) ==> NameOf(x) in d1 && DepsUpTo(x, Dependencies(x), |Dependencies(x)|, deps)
    ensures DepsComplete(done + {x}, deps, d1)
  {
    if IsBlockwise(x.kind) {
      var ops := Dependencies(x);
      forall c | c in ops && IsBlockwise(c.kind) ensures NameOf(c) in Names(deps[NameOf(x)]) {
        var k :| 0 <= k < |ops| && ops[k] == c;
      }
    }
  }

  /**
    The first pass of `_fusion_pass`: a depth-first walk over node operands,
    taking each name once, recording Blockwise dependencies and dependents.
    When reachable nodes have distinct names the walk visits all of them.
   */
  method Collect(root: Expr)
    returns (deps: map<Name, seq<Expr>>, dependents: map<Name, seq<Expr>>, keys: seq<Expr>, ghost done: set<Expr>)
    ensures Recorded(Reach(root), deps, dependents, keys)
    ensures ConsumersComplete(done, dependents)
    ensures root in done && done <= Reach(root)
    ensures UniqueNames(root) ==> done == Reach(root)
    ensures DependentsSound(dependents) && DepsComplete(done, deps, dependents)
  {
    var seen: set<Name> := {};
    var stack := [root];
    deps, dependents, keys, done := map[], map[], [], {};
    while stack != []
      invariant forall x :: x in stack ==> x in Reach(root)
      invariant done <= Reach(root)
      invariant seen == set x | x in done :: NameOf(x)
      invariant root in done || (stack == [root] && done == {})
      invariant Graph.Closed(done, seen, stack)
      invariant Recorded(Reach(root), deps, dependents, keys)
      invariant ConsumersComplete(done, dependents)
      invariant DependentsSound(dependents) && DepsComplete(done, deps, dependents)
      decreases |Reach(root) - done|, |stack|
    {
      var x := stack[|stack| - 1];
      if NameOf(x) in seen {
        Graph.ClosedPop(done, seen, stack);
        stack := stack[..|stack| - 1];
        continue;
      }
      Graph.LeftShrinks(Reach(root), done, x);
      Graph.NamesStep(done, seen, x);
      Graph.ClosedVisit(done, seen, stack);
      Graph.DependenciesReach(root, x);
      ghost var deps0, dependents0 := deps, dependents;
      deps, dependents, keys := Record(x, deps, dependents, keys, Reach(root), done);
      DepsCompleteStep(done, x, deps0, deps, dependents0, dependents);
      seen := seen + {NameOf(x)};
      done := done + {x};
      stack := stack[..|stack| - 1] + Dependencies(x);
    }
    if UniqueNames(root) {
      Graph.VisitedAll(root, done, seen);
    }
  }

  /** No member of `s` is Blockwise. */
  predicate NoBlockwise(s: seq<Expr>) {
    forall z :: z in s ==> !IsBlockwise(z.kind)
  }

  /** The roots: the recorded Blockwise nodes none of whose dependents is Blockwise, in recording order. */
  function Roots(keys: seq<Expr>, dependents: map<Name, seq<Expr>>): (r: seq<Expr>)
    requires forall k :: k in keys ==> NameOf(k) in dependents
    ensures forall x :: x in r <==> x in keys && NoBlockwise(dependents[NameOf(x)])
  {
    if keys == [] then []
    else (if NoBlockwise(dependents[NameOf(keys[0])]) then [keys[0]] else []) + Roots(keys[1..], dependents)
  }

  // ---------------------------------------------------------------------
  // Finding a group
  // ---------------------------------------------------------------------

  /**
    `dep not in roots and dependencies[dep]` as written: `in` compares with
    the overloaded `==`, whose `EQ` node is truthy, so a non-empty list
    seems to hold every node and the dependency set is never looked at.
   */
  function RequeueAsWritten(dep: Expr, roots: seq<Expr>, deps: map<Name, seq<Expr>>): (r: Result<bool>)
    ensures roots != [] ==> r == Ok(false)
    ensures roots == [] ==> (r.Ok? <==> NameOf(dep) in deps)
    ensures roots == [] && r.Ok? ==> (r.value <==> deps[NameOf(dep)] != [])
  {
    if roots != [] then Ok(false)
    else
      var dd :- Lookup(deps, dep);
      Ok(dd != [])
  }

  /** The requeue test as intended: `dep` is not yet a root and has dependencies of its own. */
  function RequeueIntended(dep: Expr, roots: seq<Expr>, deps: map<Name, seq<Expr>>): (r: Result<bool>)
    ensures r.Err? <==> NameOf(dep) !in Names(roots) && NameOf(dep) !in deps
    ensures r.Ok? ==> (r.value <==> NameOf(dep) !in Names(roots) && deps[NameOf(dep)] != [])
  {
    if NameOf(dep) in Names(roots) then Ok(false)
    else
      var dd :- Lookup(deps, dep);
      Ok(dd != [])
  }

  /** With another root still pending, a node with dependencies of its own is requeued only by the intended test. */
  lemma RequeueMissed(dep: Expr, other: Expr, deps: map<Name, seq<Expr>>)
    requires NameOf(other) != NameOf(dep) && NameOf(dep) in deps && deps[NameOf(dep)] != []
    ensures RequeueAsWritten(dep, [other], deps) == Ok(false)
    ensures RequeueIntended(dep, [other], deps) == Ok(true)
  {
    assert Names([other]) == {NameOf(other)} by {
      NamesSnoc([], other);
      assert [] + [other] == [other];
    }
  }

  /** The recorded dependents of `x` all have names in `names`. */
  ghost predicate Within(dependents: map<Name, seq<Expr>>, x: Expr, names: set<Name>) {
    NameOf(x) in dependents && Names(dependents[NameOf(x)]) <= names
  }

  /** Every node of `xs` is a recorded dependency whose dependents all have names in `names`. */
  ghost predicate AllWithin(deps: map<Name, seq<Expr>>, dependents: map<Name, seq<Expr>>, xs: seq<Expr>, names: set<Name>) {
    forall y :: y in xs ==> InDeps(deps, y) && Within(dependents, y, names)
  }

  lemma WithinMono(deps: map<Name, seq<Expr>>, dependents: map<Name, seq<Expr>>, xs: seq<Expr>, ys: seq<Expr>,
                   a: set<Name>, b: set<Name>)
    requires AllWithin(deps, dependents, xs, a) && a <= b
    requires forall y :: y in ys ==> y in xs
    ensures AllWithin(deps, dependents, ys, b)
  {
  }

  /** After popping `x`, what was within the old names is within the new ones once `x`'s name is in the group. */
  lemma PopWithin(deps: map<Name, seq<Expr>>, dependents: map<Name, seq<Expr>>, stack: seq<Expr>, members: seq<Expr>,
                  group: seq<Expr>, group': seq<Expr>)
    requires stack != [] && AllWithin(deps, dependents, stack + members, Names(stack) + Names(group))
    requires Names(group') == Names(group) + {NameOf(stack[|stack| - 1])}
    ensures AllWithin(deps, dependents, stack[..|stack| - 1] + members + [stack[|stack| - 1]],
                      Names(stack[..|stack| - 1]) + Names(group'))
  {
    NamesPop(stack);
    assert stack == stack[..|stack| - 1] + [stack[|stack| - 1]];
    WithinMono(deps, dependents, stack + members, stack[..|stack| - 1] + members + [stack[|stack| - 1]],
               Names(stack) + Names(group), Names(stack[..|stack| - 1]) + Names(group'));
  }

  /** Visiting the top of the stack: it joins the group, and joins the members unless it is the root. */
  lemma VisitWithin(deps: map<Name, seq<Expr>>, dependents: map<Name, seq<Expr>>, stack: seq<Expr>,
                    members: seq<Expr>, group: seq<Expr>)
    requires stack != [] && (group == [] ==> |stack| == 1 && members == [])
    requires AllWithin(deps, dependents, (if group == [] then [] else stack) + members, Names(stack) + Names(group))
    ensures AllWithin(deps, dependents,
                      stack[..|stack| - 1] + (if group == [] then members else members + [stack[|stack| - 1]]),
                      Names(stack[..|stack| - 1]) + Names(group + [stack[|stack| - 1]]))
  {
    var x := stack[|stack| - 1];
    NamesSnoc(group, x);
    if group != [] {
      PopWithin(deps, dependents, stack, members, group, group + [x]);
      WithinMono(deps, dependents, stack[..|stack| - 1] + members + [x], stack[..|stack| - 1] + (members + [x]),
                 Names(stack[..|stack| - 1]) + Names(group + [x]), Names(stack[..|stack| - 1]) + Names(group + [x]));
    }
  }

  /**
    Every dependency of a member `group[i]` whose recorded dependents all
    have names among the members up to `group[i]` has its name in `names`.
   */
  ghost predicate JoinsConsumed(deps: map<Name, seq<Expr>>, dependents: map<Name, seq<Expr>>, group: seq<Expr>,
                                names: set<Name>) {
    forall i, d :: 0 <= i < |group| && NameOf(group[i]) in deps && d in deps[NameOf(group[i])] &&
                   NameOf(d) in dependents && Names(dependents[NameOf(d)]) <= Names(group[..i + 1]) ==>
                   NameOf(d) in names
  }

  /** Once every dependency of the new member `x` passing the test is taken, the property extends to `group + [x]`. */
  lemma JoinsSnoc(deps: map<Name, seq<Expr>>, dependents: map<Name, seq<Expr>>, group: seq<Expr>, x: Expr,
                  names: set<Name>)
    requires JoinsConsumed(deps, dependents, group, names) && NameOf(x) in deps
    requires TakenUpTo(dependents, deps[NameOf(x)], |deps[NameOf(x)]|, Names(group + [x]), names)
    ensures JoinsConsumed(deps, dependents, group + [x], names)
  {
    var g := group + [x];
    var ds := deps[NameOf(x)];
    forall i, d | 0 <= i < |g| && NameOf(g[i]) in deps && d in deps[NameOf(g[i])] &&
                  NameOf(d) in dependents && Names(dependents[NameOf(d)]) <= Names(g[..i + 1])
      ensures NameOf(d) in names
    {
      if i < |group| {
        assert g[..i + 1] == group[..i + 1];
      } else {
        assert g[..i + 1] == g;
        var k :| 0 <= k < |ds| && ds[k] == d;
      }
    }
  }

  /** Each of the first `j` of `ds` whose dependents all have names in `group` has its name in `names`. */
  ghost predicate TakenUpTo(dependents: map<Name, seq<Expr>>, ds: seq<Expr>, j: nat, group: set<Name>, names: set<Name>)
    requires j <= |ds|
  {
    forall k :: 0 <= k < j && NameOf(ds[k]) in dependents && Names(dependents[NameOf(ds[k])]) <= group ==>
                NameOf(ds[k]) in names
  }

  lemma TakenStep(dependents: map<Name, seq<Expr>>, ds: seq<Expr>, j: nat, group: set<Name>, names: set<Name>,
                  names': set<Name>)
    requires j < |ds| && TakenUpTo(dependents, ds, j, group, names) && names <= names'
    requires NameOf(ds[j]) in dependents && Names(dependents[NameOf(ds[j])]) <= group ==> NameOf(ds[j]) in names'
    ensures TakenUpTo(dependents, ds, j + 1, group, names')
  {
  }

  lemma JoinsMono(deps: map<Name, seq<Expr>>, dependents: map<Name, seq<Expr>>, group: seq<Expr>,
                  a: set<Name>, b: set<Name>)
    requires JoinsConsumed(deps, dependents, group, a) && a <= b
    ensures JoinsConsumed(deps, dependents, group, b)
  {
  }

  /**
    The group walk of `_fusion_pass` for one root: take each name once; a
    dependency all of whose dependents are already in the group or on the
    stack is pushed, any other one may become a root of its own. Every
    member after the root has all its dependents inside the group, and a
    dependency of a member whose dependents are all that member or earlier
    ones always joins.
   */
  method FindGroup(root: Expr, deps: map<Name, seq<Expr>>, dependents: map<Name, seq<Expr>>, roots: seq<Expr>,
                   ghost all: set<Name>)
    returns (r: Result<(seq<Expr>, seq<Expr>)>)
    requires NameOf(root) in all
    requires forall n, d :: n in deps && d in deps[n] ==> NameOf(d) in all
    ensures r.Ok? ==> |r.value.0| >= 1 && r.value.0[0] == root && Graph.DistinctNames(r.value.0)
    ensures r.Ok? ==> forall i :: 1 <= i < |r.value.0| ==>
              InDeps(deps, r.value.0[i]) && Within(dependents, r.value.0[i], Names(r.value.0))
    ensures r.Ok? ==> forall x :: x in r.value.1 ==> x in roots || InDeps(deps, x)
    ensures r.Ok? ==> roots <= r.value.1
    ensures r.Ok? ==> JoinsConsumed(deps, dependents, r.value.0, Names(r.value.0))
  {
    var seen: set<Name> := {};
    var stack := [root];
    var group: seq<Expr> := [];
    ghost var members: seq<Expr> := [];
    ghost var pushed: set<Name> := {};
    var rs := roots;
    while stack != []
      invariant seen <= all && forall x :: x in stack ==> NameOf(x) in all
      invariant Walking(root, deps, dependents, roots, seen, stack, group, members, pushed, rs)
      decreases all - seen, |stack|
    {
      var x := stack[|stack| - 1];
      ghost var before := stack;
      stack := stack[..|stack| - 1];
      if NameOf(x) in seen {
        SkipSeen(root, deps, dependents, roots, seen, before, group, members, pushed, rs);
        continue;
      }
      ghost var earlier := group;
      ghost var members' := if group == [] then members else members + [x];
      Visit(root, deps, dependents, roots, seen, before, group, members, pushed, rs);
      seen := seen + {NameOf(x)};
      group := group + [x];
      members := members';
      var ds :- Lookup(deps, x);
      forall d | d in ds ensures InDeps(deps, d) {
        assert d in deps[NameOf(x)];
      }
      var taken;
      ghost var pushed';
      taken, pushed' := TakeDependencies(ds, deps, dependents, stack, group, rs, members, pushed, all);
      if taken.Err? {
        return Err(taken.error);
      }
      Taken(root, deps, dependents, roots, stack, earlier, x, members, pushed, rs, taken.value.0, pushed', taken.value.1);
      stack, rs, pushed := taken.value.0, taken.value.1, pushed';
    }
    WalkDone(root, deps, dependents, roots, seen, group, members, pushed, rs);
    return Ok((group, rs));
  }

  /** The invariant of the group walk. */
  ghost predicate Walking(root: Expr, deps: map<Name, seq<Expr>>, dependents: map<Name, seq<Expr>>, roots: seq<Expr>,
                          seen: set<Name>, stack: seq<Expr>, group: seq<Expr>, members: seq<Expr>,
                          pushed: set<Name>, rs: seq<Expr>) {
    seen == Names(group) &&
    (group == [] ==> stack == [root] && members == []) &&
    (group != [] ==> group[0] == root && group[1..] == members) &&
    Graph.DistinctNames(group) &&
    AllWithin(deps, dependents, (if group == [] then [] else stack) + members, Names(stack) + Names(group)) &&
    (forall x :: x in rs ==> x in roots || InDeps(deps, x)) && roots <= rs &&
    pushed <= Names(stack) + seen &&
    JoinsConsumed(deps, dependents, group, pushed)
  }

  /** Popping a node whose name was seen keeps the invariant. */
  lemma SkipSeen(root: Expr, deps: map<Name, seq<Expr>>, dependents: map<Name, seq<Expr>>, roots: seq<Expr>,
                 seen: set<Name>, stack: seq<Expr>, group: seq<Expr>, members: seq<Expr>,
                 pushed: set<Name>, rs: seq<Expr>)
    requires stack != [] && NameOf(stack[|stack| - 1]) in seen
    requires Walking(root, deps, dependents, roots, seen, stack, group, members, pushed, rs)
    ensures Walking(root, deps, dependents, roots, seen, stack[..|stack| - 1], group, members, pushed, rs)
  {
    var x, rest := stack[|stack| - 1], stack[..|stack| - 1];
    NamesPop(stack);
    if group != [] {
      PopWithin(deps, dependents, stack, members, group, group);
      WithinMono(deps, dependents, rest + members + [x], rest + members,
                 Names(rest) + Names(group), Names(rest) + Names(group));
    }
  }

  /**
    Popping a node `x` with a new name: it joins the group (and the
    members unless it is the root); everything on the rest of the stack and
    among the members is within the names of the rest and the new group.
   */
  lemma Visit(root: Expr, deps: map<Name, seq<Expr>>, dependents: map<Name, seq<Expr>>, roots: seq<Expr>,
              seen: set<Name>, stack: seq<Expr>, group: seq<Expr>, members: seq<Expr>,
              pushed: set<Name>, rs: seq<Expr>)
    requires stack != [] && NameOf(stack[|stack| - 1]) !in seen
    requires Walking(root, deps, dependents, roots, seen, stack, group, members, pushed, rs)
    ensures var x, rest := stack[|stack| - 1], stack[..|stack| - 1];
            var members' := if group == [] then members else members + [x];
            Names(group + [x]) == seen + {NameOf(x)} && Graph.DistinctNames(group + [x]) &&
            (group + [x])[0] == root && (group + [x])[1..] == members' &&
            AllWithin(deps, dependents, rest + members', Names(rest) + Names(group + [x])) &&
            pushed <= Names(rest) + Names(group + [x])
  {
    var x, rest := stack[|stack| - 1], stack[..|stack| - 1];
    NamesPop(stack);
    NamesSnoc(group, x);
    DistinctSnoc(group, x);
    VisitWithin(deps, dependents, stack, members, group);
    if group == [] {
      assert rest == [];
    }
  }

  /** After the dependencies of the new member `x` are taken, the invariant holds again. */
  lemma Taken(root: Expr, deps: map<Name, seq<Expr>>, dependents: map<Name, seq<Expr>>, roots: seq<Expr>,
              stack: seq<Expr>, earlier: seq<Expr>, x: Expr, members: seq<Expr>, pushed: set<Name>, rs: seq<Expr>,
              stack': seq<Expr>, pushed': set<Name>, rs': seq<Expr>)
    requires Graph.DistinctNames(earlier + [x]) && (earlier + [x])[0] == root && (earlier + [x])[1..] == members
    requires pushed <= Names(stack) + Names(earlier + [x])
    requires (forall y :: y in rs ==> y in roots || InDeps(deps, y)) && roots <= rs
    requires JoinsConsumed(deps, dependents, earlier, pushed) && NameOf(x) in deps
    requires stack <= stack' && AllWithin(deps, dependents, stack' + members, Names(stack') + Names(earlier + [x]))
    requires rs <= rs' && forall y :: y in rs' ==> y in rs || InDeps(deps, y)
    requires pushed <= pushed' <= pushed + Names(stack')
    requires TakenUpTo(dependents, deps[NameOf(x)], |deps[NameOf(x)]|, Names(earlier + [x]), pushed')
    ensures Walking(root, deps, dependents, roots, Names(earlier + [x]), stack', earlier + [x], members, pushed', rs')
  {
    assert Names(stack) <= Names(stack') by {
      forall n | n in Names(stack) ensures n in Names(stack') {
        var y :| y in stack && NameOf(y) == n;
        var i :| 0 <= i < |stack| && stack[i] == y;
        assert stack'[i] == y;
      }
    }
    JoinsMono(deps, dependents, earlier, pushed, pushed');
    JoinsSnoc(deps, dependents, earlier, x, pushed');
  }

  /** With the stack empty, the invariant gives the group walk's postcondition. */
  lemma WalkDone(root: Expr, deps: map<Name, seq<Expr>>, dependents: map<Name, seq<Expr>>, roots: seq<Expr>,
                 seen: set<Name>, group: seq<Expr>, members: seq<Expr>, pushed: set<Name>, rs: seq<Expr>)
    requires Walking(root, deps, dependents, roots, seen, [], group, members, pushed, rs)
    ensures |group| >= 1 && group[0] == root && Graph.DistinctNames(group)
    ensures forall i :: 1 <= i < |group| ==> InDeps(deps, group[i]) && Within(dependents, group[i], Names(group))
    ensures forall x :: x in rs ==> x in roots || InDeps(deps, x)
    ensures roots <= rs
    ensures JoinsConsumed(deps, dependents, group, Names(group))
  {
    JoinsMono(deps, dependents, group, pushed, Names(group));
    forall i | 1 <= i < |group|
      ensures InDeps(deps, group[i]) && Within(dependents, group[i], Names(group))
    {
      assert group[i] in members;
    }
  }

  /**
    The inner loop of the group walk, over the dependencies `ds` of the
    node just added to the group: a dependency all of whose dependents are
    on the stack or in the group is pushed, any other one may be appended
    to the roots. The ghost `pushed'` adds the names pushed to `pushed`.
   */
  method TakeDependencies(ds: seq<Expr>, deps: map<Name, seq<Expr>>, dependents: map<Name, seq<Expr>>,
                          stack: seq<Expr>, group: seq<Expr>, rs: seq<Expr>,
                          ghost members: seq<Expr>, ghost pushed: set<Name>, ghost all: set<Name>)
    returns (r: Result<(seq<Expr>, seq<Expr>)>, ghost pushed': set<Name>)
    requires forall d :: d in ds ==> InDeps(deps, d) && NameOf(d) in all
    requires forall y :: y in stack ==> NameOf(y) in all
    requires AllWithin(deps, dependents, stack + members, Names(stack) + Names(group))
    ensures r.Ok? ==> stack <= r.value.0 && forall y :: y in r.value.0 ==> NameOf(y) in all
    ensures r.Ok? ==> AllWithin(deps, dependents, r.value.0 + members, Names(r.value.0) + Names(group))
    ensures r.Ok? ==> rs <= r.value.1 && forall y :: y in r.value.1 ==> y in rs || InDeps(deps, y)
    ensures r.Ok? ==> pushed <= pushed' <= pushed + Names(r.value.0)
    ensures r.Ok? ==> TakenUpTo(dependents, ds, |ds|, Names(group), pushed')
  {
    var stk, roots := stack, rs;
    pushed' := pushed;
    for j := 0 to |ds|
      invariant stack <= stk && forall y :: y in stk ==> NameOf(y) in all
      invariant AllWithin(deps, dependents, stk + members, Names(stk) + Names(group))
      invariant rs <= roots && forall y :: y in roots ==> y in rs || InDeps(deps, y)
      invariant pushed <= pushed' <= pushed + Names(stk)
      invariant TakenUpTo(dependents, ds, j, Names(group), pushed')
    {
      var dep := ds[j];
      ghost var pushed0 := pushed';
      var consumers :- Lookup(dependents, dep);
      if Names(consumers) <= Names(stk) + Names(group) {
        NamesSnoc(stk, dep);
        WithinMono(deps, dependents, stk + members, stk + members,
                   Names(stk) + Names(group), Names(stk + [dep]) + Names(group));
        stk := stk + [dep];
        pushed' := pushed' + {NameOf(dep)};
      } else {
        var again :- RequeueIntended(dep, roots, deps);
        if again {
          roots := roots + [dep];
        }
      }
      TakenStep(dependents, ds, j, Names(group), pushed0, pushed');
    }
    return Ok((stk, roots)), pushed';
  }

  lemma DistinctSnoc(s: seq<Expr>, x: Expr)
    requires Graph.DistinctNames(s) && NameOf(x) !in Names(s)
    ensures Graph.DistinctNames(s + [x])
  {
    var t := s + [x];
    forall i, j | 0 <= i < j < |t|
      ensures NameOf(t[i]) != NameOf(t[j])
    {
      assert t[i] == s[i] && s[i] in s;
      if j < |s| {
        assert t[j] == s[j];
      }
    }
  }

  // ---------------------------------------------------------------------
  // The fused node
  // ---------------------------------------------------------------------

  /** The dependencies of `x` whose names are not local. */
  function Outside(ds: seq<Expr>, local: set<Name>): (r: seq<Expr>)
    ensures forall d :: d in r <==> d in ds && NameOf(d) !in local
  {
    if ds == [] then []
    else (if NameOf(ds[0]) !in local then [ds[0]] else []) + Outside(ds[1..], local)
  }

  /** The external dependencies of a group, member by member in order. */
  function ExternalOf(group: seq<Expr>, local: set<Name>): seq<Expr> {
    if group == [] then []
    else ExternalOf(group[..|group| - 1], local) + Outside(Partitions.Deps(group[|group| - 1]), local)
  }

  /** The external dependencies are exactly the members' dependencies whose names are not local. */
  lemma {:induction false} ExternalCovers(group: seq<Expr>, local: set<Name>, d: Expr)
    ensures d in ExternalOf(group, local) <==>
              NameOf(d) !in local && exists m :: m in group && d in Partitions.Deps(m)
  {
    if group != [] {
      var init, last := group[..|group| - 1], group[|group| - 1];
      ExternalCovers(init, local, d);
      var outside := Outside(Partitions.Deps(last), local);
      assert ExternalOf(group, local) == ExternalOf(init, local) + outside;
      assert d in ExternalOf(group, local) <==> d in ExternalOf(init, local) || d in outside;
      SomeMemberSnoc(group, d);
    }
  }

  /** Some member of a non-empty group depends on `d` iff some earlier member or the last one does. */
  lemma SomeMemberSnoc(group: seq<Expr>, d: Expr)
    requires group != []
    ensures (exists m :: m in group && d in Partitions.Deps(m)) <==>
              (exists m :: m in group[..|group| - 1] && d in Partitions.Deps(m)) || d in Partitions.Deps(group[|group| - 1])
  {
    var init, last := group[..|group| - 1], group[|group| - 1];
    assert group == init + [last];
    if exists m :: m in group && d in Partitions.Deps(m) {
      var m :| m in group && d in Partitions.Deps(m);
      if m != last {
        assert m in init;
      }
    }
  }

  /** `group_deps`: the loop over the members collecting their external dependencies. */
  method ExternalDeps(group: seq<Expr>) returns (ds: seq<Expr>)
    ensures ds == ExternalOf(group, Names(group))
  {
    var local := Names(group);
    ds := [];
    for i := 0 to |group|
      invariant ds == ExternalOf(group[..i], local)
    {
      assert group[..i + 1][..i] == group[..i];
      ds := ds + Outside(Partitions.Deps(group[i]), local);
    }
    assert group[..|group|] == group;
  }

  /** The operands of a node list. */
  function NodeOperands(ds: seq<Expr>): (r: seq<Operand>)
    ensures |r| == |ds|
  {
    seq(|ds|, i requires 0 <= i < |ds| => Node(ds[i]))
  }

  /** `Fused(group, *group_deps)`. */
  function FusedOf(group: seq<Expr>): Expr {
    Expr(Fused, [Group(group)] + NodeOperands(ExternalOf(group, Names(group))))
  }

  /** The fused node behaves as its first member: same divisions, and exactly the external dependencies. */
  lemma FusedBehaves(group: seq<Expr>, w: Oracles.World)
    requires group != []
    ensures Partitions.Divisions(FusedOf(group), w) == Partitions.Divisions(group[0], w)
    ensures Partitions.Deps(FusedOf(group)) == ExternalOf(group, Names(group))
  {
    Partitions.FusedDivisions(group, ExternalOf(group, Names(group)), w);
  }

  // ---------------------------------------------------------------------
  // The pass and the driver
  // ---------------------------------------------------------------------

  /**
    A group fit for fusion within `e`: more than one member, distinct names,
    every member a reachable Blockwise node, and, when names identify nodes,
    every member after the first consumed only by members of the group.
   */
  ghost predicate FusableGroup(e: Expr, group: seq<Expr>) {
    |group| > 1 && Graph.DistinctNames(group) &&
    (forall m :: m in group ==> IsBlockwise(m.kind) && m in Reach(e)) &&
    (UniqueNames(e) ==> forall y, i :: y in Reach(e) && 1 <= i < |group| && group[i] in Dependencies(y) ==>
                                         NameOf(y) in Names(group))
  }

  /** One pass's outcome: nothing fused and done, or a fusable group's first member replaced by its fused node. */
  ghost predicate PassStep(a: Expr, b: Expr, group: seq<Expr>, done: bool) {
    (group == [] && b == a && done) ||
    (FusableGroup(a, group) && Rewrite.Substitute(a, map[Node(group[0]) := Node(FusedOf(group))]) == Ok(Node(b)))
  }

  lemma GroupIsFusable(e: Expr, group: seq<Expr>, deps: map<Name, seq<Expr>>, dependents: map<Name, seq<Expr>>,
                       keys: seq<Expr>, done: set<Expr>)
    requires Recorded(Reach(e), deps, dependents, keys) && ConsumersComplete(done, dependents)
    requires UniqueNames(e) ==> done == Reach(e)
    requires |group| > 1 && Graph.DistinctNames(group) && IsBlockwise(group[0].kind) && group[0] in Reach(e)
    requires forall i :: 1 <= i < |group| ==> InDeps(deps, group[i]) && Within(dependents, group[i], Names(group))
    ensures FusableGroup(e, group)
  {
    forall m | m in group ensures IsBlockwise(m.kind) && m in Reach(e) {
      var i :| 0 <= i < |group| && group[i] == m;
      if i > 0 {
        assert InDeps(deps, group[i]);
      }
    }
    if UniqueNames(e) {
      forall y, i | y in Reach(e) && 1 <= i < |group| && group[i] in Dependencies(y)
        ensures NameOf(y) in Names(group)
      {
        assert InDeps(deps, group[i]);
        assert IsBlockwise(group[i].kind);
        assert Within(dependents, group[i], Names(group));
      }
    }
  }

  /**
    The fusing branch of `_fusion_pass`: the group's first member is replaced
    by a `Fused` node over the group and its external dependencies, always a
    node; a failed replacement is reported as it came.
   */
  method FuseGroup(e: Expr, group: seq<Expr>) returns (r: Result<Expr>)
    requires group != []
    ensures r.Ok? <==> Rewrite.Substitute(e, map[Node(group[0]) := Node(FusedOf(group))]).Ok?
    ensures r.Ok? ==> Rewrite.Substitute(e, map[Node(group[0]) := Node(FusedOf(group))]) == Ok(Node(r.value))
    ensures r.Err? ==> r == Rewrite.Substitute(e, map[Node(group[0]) := Node(FusedOf(group))]).PropagateFailure()
  {
    var ext := ExternalDeps(group);
    var fused := Expr(Fused, [Group(group)] + NodeOperands(ext));
    assert fused == FusedOf(group);
    var s := Rewrite.Substitute(e, map[Node(group[0]) := Node(fused)]);
    if s.Err? {
      return Err(s.error);
    }
    return Ok(s.value.e);
  }

  /** Roots handed back by the group walk are still Blockwise nodes of the graph. */
  lemma RequeuedRoots(all: set<Expr>, deps: map<Name, seq<Expr>>, dependents: map<Name, seq<Expr>>, keys: seq<Expr>,
                      pending: seq<Expr>, roots: seq<Expr>)
    requires Recorded(all, deps, dependents, keys)
    requires forall x :: x in pending ==> IsBlockwise(x.kind) && x in all
    requires forall x :: x in roots ==> x in pending || InDeps(deps, x)
    ensures forall x :: x in roots ==> IsBlockwise(x.kind) && x in all
  {
    forall x | x in roots ensures IsBlockwise(x.kind) && x in all {
      if x !in pending {
        var k :| k in deps && x in deps[k];
      }
    }
  }

  /** `d` is a Blockwise dependency of `x` that no other node of `e` consumes. */
  ghost predicate SoleDependency(e: Expr, x: Expr, d: Expr) {
    d in Dependencies(x) && IsBlockwise(d.kind) && forall y :: y in Reach(e) && d in Dependencies(y) ==> y == x
  }

  /**
    `x` ends a chain that fusion can shorten: a reachable Blockwise node
    with no Blockwise consumer and a Blockwise dependency only it consumes.
   */
  ghost predicate ChainEnd(e: Expr, x: Expr) {
    IsBlockwise(x.kind) && x in Reach(e) &&
    (forall y :: y in Reach(e) && x in Dependencies(y) ==> !IsBlockwise(y.kind)) &&
    exists d :: SoleDependency(e, x, d)
  }

  /** A pass that fuses nothing leaves no chain end in `e`, when names are unique. */
  ghost predicate ChainsFused(e: Expr, group: seq<Expr>) {
    group == [] ==> NoChainEnd(e)
  }

  /** With unique names, no node of `e` ends a chain that fusion can shorten. */
  ghost predicate NoChainEnd(e: Expr) {
    UniqueNames(e) ==> forall x :: !ChainEnd(e, x)
  }

  /** A node is never its own dependency. */
  lemma NotOwnDependency(x: Expr, d: Expr)
    requires d in Dependencies(x)
    ensures d != x
  {
    var i :| 0 <= i < |x.operands| && x.operands[i] == Node(d);
  }

  /** A recorded dependent of a reachable name consumes that very node when names are unique. */
  lemma ConsumerIsDependent(e: Expr, c: Expr, z: Expr)
    requires UniqueNames(e) && c in Reach(e) && z in Reach(e) && ConsumerOf(z, NameOf(c))
    ensures c in Dependencies(z)
  {
    var c' :| c' in Dependencies(z) && NameOf(c') == NameOf(c);
    Graph.ReachDependency(e, z, c');
  }

  /** With unique names, the end of a fusable chain is among the roots the pass collects. */
  lemma ChainEndIsRoot(e: Expr, x: Expr, deps: map<Name, seq<Expr>>, dependents: map<Name, seq<Expr>>, keys: seq<Expr>)
    requires UniqueNames(e) && ChainEnd(e, x)
    requires Recorded(Reach(e), deps, dependents, keys) && DependentsSound(dependents)
    requires DepsComplete(Reach(e), deps, dependents)
    ensures forall k :: k in keys ==> NameOf(k) in dependents
    ensures x in Roots(keys, dependents)
  {
    assert NameOf(x) in Names(keys);
    var k :| k in keys && NameOf(k) == NameOf(x);
    forall z | z in dependents[NameOf(x)] ensures !IsBlockwise(z.kind) {
      ConsumerIsDependent(e, x, z);
    }
  }

  /** Whether `e` has a chain end left to fuse, and if so one of them, which is among the collected roots. */
  lemma ChainTarget(e: Expr, deps: map<Name, seq<Expr>>, dependents: map<Name, seq<Expr>>, keys: seq<Expr>)
    returns (chain: bool, target: Expr)
    requires Recorded(Reach(e), deps, dependents, keys) && DependentsSound(dependents)
    requires UniqueNames(e) ==> DepsComplete(Reach(e), deps, dependents)
    ensures chain <==> UniqueNames(e) && exists x :: ChainEnd(e, x)
    ensures chain ==> ChainEnd(e, target) && target in Roots(keys, dependents)
  {
    chain := UniqueNames(e) && exists x :: ChainEnd(e, x);
    target := e;
    if chain {
      target :| ChainEnd(e, target);
      ChainEndIsRoot(e, target, deps, dependents, keys);
    }
  }

  /**
    With unique names, the sole dependency `d` of a chain end `x` is
    recorded as a dependency of `x` whose only recorded dependent is `x`.
   */
  lemma SoleDependencyRecorded(e: Expr, x: Expr, d: Expr, deps: map<Name, seq<Expr>>, dependents: map<Name, seq<Expr>>,
                               keys: seq<Expr>)
    requires UniqueNames(e) && IsBlockwise(x.kind) && x in Reach(e) && SoleDependency(e, x, d)
    requires Recorded(Reach(e), deps, dependents, keys) && DependentsSound(dependents)
    requires DepsComplete(Reach(e), deps, dependents) && ConsumersComplete(Reach(e), dependents)
    ensures NameOf(x) in deps && d in deps[NameOf(x)]
    ensures NameOf(d) in dependents && Names(dependents[NameOf(d)]) <= {NameOf(x)}
    ensures NameOf(d) != NameOf(x)
  {
    Graph.ReachDependency(e, x, d);
    var d' :| d' in deps[NameOf(x)] && NameOf(d') == NameOf(d);
    forall n | n in Names(dependents[NameOf(d)]) ensures n == NameOf(x) {
      var z :| z in dependents[NameOf(d)] && NameOf(z) == n;
      ConsumerIsDependent(e, d, z);
    }
    NotOwnDependency(x, d);
  }

  /** A group rooted at `x` that takes a dependency of another name has more than one member. */
  lemma GroupTakesSole(g: seq<Expr>, x: Expr, d: Expr, deps: map<Name, seq<Expr>>, dependents: map<Name, seq<Expr>>)
    requires |g| >= 1 && g[0] == x && JoinsConsumed(deps, dependents, g, Names(g))
    requires NameOf(x) in deps && d in deps[NameOf(x)]
    requires NameOf(d) in dependents && Names(dependents[NameOf(d)]) <= {NameOf(x)} && NameOf(d) != NameOf(x)
    ensures |g| > 1
  {
    assert g[..1] == [x];
    NamesSnoc([], x);
    assert [] + [x] == [x];
    assert NameOf(d) in Names(g);
  }

  /** A root other than the one popped stays queued once the walk extends the rest. */
  lemma StillPending(roots: seq<Expr>, x: Expr, rs: seq<Expr>)
    requires roots != [] && x in roots && x != roots[|roots| - 1] && roots[..|roots| - 1] <= rs
    ensures x in rs
  {
    var i :| 0 <= i < |roots| && roots[i] == x;
    assert rs[i] == roots[..|roots| - 1][i];
  }

  /**
    After the walk from the last queued root, a chain end is either that
    root, whose group then has more than one member, or still queued.
   */
  lemma ChainKept(e: Expr, x: Expr, deps: map<Name, seq<Expr>>, dependents: map<Name, seq<Expr>>, keys: seq<Expr>,
                  queued: seq<Expr>, g: seq<Expr>, rs: seq<Expr>)
    requires UniqueNames(e) && ChainEnd(e, x)
    requires Recorded(Reach(e), deps, dependents, keys) && DependentsSound(dependents)
    requires DepsComplete(Reach(e), deps, dependents) && ConsumersComplete(Reach(e), dependents)
    requires queued != [] && x in queued && queued[..|queued| - 1] <= rs
    requires |g| >= 1 && g[0] == queued[|queued| - 1] && JoinsConsumed(deps, dependents, g, Names(g))
    ensures |g| > 1 || x in rs
  {
    if x == queued[|queued| - 1] {
      var d :| SoleDependency(e, x, d);
      SoleDependencyRecorded(e, x, d, deps, dependents, keys);
      GroupTakesSole(g, x, d, deps, dependents);
    } else {
      StillPending(queued, x, rs);
    }
  }

  /**
    `_fusion_pass`: collect, then take roots from the end of the list until
    one yields a group of more than one member; that group's first member
    is replaced by the fused node, and the pass is done when no roots are
    left. Without such a group the expression comes back unchanged and
    done; with unique names that happens only when no chain end is left to
    fuse. `fuel` bounds the number of roots tried.
   */
  method FusionPass(e: Expr, fuel: nat) returns (r: Result<(Expr, bool)>, ghost group: seq<Expr>, ghost remaining: seq<Expr>)
    ensures r.Ok? ==> PassStep(e, r.value.0, group, r.value.1)
    ensures r.Ok? && group == [] ==> r.value == (e, true)
    ensures r.Ok? ==> (r.value.1 <==> remaining == [])
    ensures forall x :: x in remaining ==> IsBlockwise(x.kind) && x in Reach(e)
    ensures r.Ok? ==> ChainsFused(e, group)
  {
    var deps, dependents, keys, done := Collect(e);
    var roots := Roots(keys, dependents);
    ghost var all := set x | x in Reach(e) :: NameOf(x);
    assert forall n, d :: n in deps && d in deps[n] ==> NameOf(d) in all;
    ghost var chain, target := ChainTarget(e, deps, dependents, keys);
    var n := fuel;
    while roots != []
      invariant forall x :: x in roots ==> IsBlockwise(x.kind) && x in Reach(e)
      invariant chain ==> target in roots
      decreases n
    {
      if n == 0 {
        return Err(RecursionError), [], roots;
      }
      n := n - 1;
      var root := roots[|roots| - 1];
      ghost var queued := roots;
      roots := roots[..|roots| - 1];
      ghost var pending := roots;
      assert NameOf(root) in all;
      var found := FindGroup(root, deps, dependents, roots, all);
      if found.Err? {
        return Err(found.error), [], roots;
      }
      var g := found.value.0;
      roots := found.value.1;
      RequeuedRoots(Reach(e), deps, dependents, keys, pending, roots);
      if chain {
        ChainKept(e, target, deps, dependents, keys, queued, g, roots);
      }
      if |g| > 1 {
        GroupIsFusable(e, g, deps, dependents, keys, done);
        var fused := FuseGroup(e, g);
        if fused.Err? {
          return Err(fused.error), [], roots;
        }
        return Ok((fused.value, roots == [])), g, roots;
      }
    }
    return Ok((e, true)), [], roots;
  }

  /** Each entry of `trace` after the first comes from the one before it by one pass. */
  ghost predicate Steps(trace: seq<Expr>, dones: seq<bool>, groups: seq<seq<Expr>>)
    decreases |trace|
  {
    |trace| >= 1 && |dones| == |trace| - 1 && |groups| == |trace| - 1 &&
    (|trace| > 1 ==>
      Steps(trace[..|trace| - 1], dones[..|dones| - 1], groups[..|groups| - 1]) &&
      PassStep(trace[|trace| - 2], trace[|trace| - 1], groups[|groups| - 1], dones[|dones| - 1]))
  }

  /** Every pass among the first `k` was not done and changed the name. */
  ghost predicate Progressing(trace: seq<Expr>, dones: seq<bool>, k: int)
    requires k <= |dones| && |dones| < |trace|
  {
    forall i :: 0 <= i < k ==> !dones[i] && NameOf(trace[i + 1]) != NameOf(trace[i])
  }

  lemma StepsSnoc(trace: seq<Expr>, dones: seq<bool>, groups: seq<seq<Expr>>, b: Expr, d: bool, g: seq<Expr>)
    requires Steps(trace, dones, groups) && PassStep(trace[|trace| - 1], b, g, d)
    ensures Steps(trace + [b], dones + [d], groups + [g])
  {
    assert (trace + [b])[..|trace|] == trace;
    assert (dones + [d])[..|dones|] == dones;
    assert (groups + [g])[..|groups|] == groups;
  }

  /** Every step recorded in the trace is a pass. */
  lemma StepsAll(trace: seq<Expr>, dones: seq<bool>, groups: seq<seq<Expr>>, i: nat)
    requires Steps(trace, dones, groups) && i < |trace| - 1
    ensures PassStep(trace[i], trace[i + 1], groups[i], dones[i])
    decreases |trace|
  {
    if i < |trace| - 2 {
      StepsAll(trace[..|trace| - 1], dones[..|dones| - 1], groups[..|groups| - 1], i);
    }
  }

  /** One pass of the loop below, with the trace of passes extended by its outcome. */
  method TracedPass(expr: Expr, fuel: nat, ghost e: Expr, ghost trace: seq<Expr>, ghost dones: seq<bool>, ghost groups: seq<seq<Expr>>)
    returns (r: Result<(Expr, bool)>, stop: bool, ghost trace': seq<Expr>, ghost dones': seq<bool>, ghost groups': seq<seq<Expr>>)
    requires Steps(trace, dones, groups) && trace[0] == e && expr == trace[|trace| - 1]
    requires Progressing(trace, dones, |dones|)
    ensures r.Err? ==> trace' == trace && dones' == dones && groups' == groups
    ensures r.Ok? ==> Steps(trace', dones', groups') && trace'[0] == e && |trace'| >= 2 &&
                      trace'[|trace'| - 1] == r.value.0 && Progressing(trace', dones', |trace'| - 2)
    ensures r.Ok? && stop ==> (dones'[|trace'| - 2] || NameOf(trace'[|trace'| - 1]) == NameOf(trace'[|trace'| - 2]))
    ensures r.Ok? && !stop ==> Progressing(trace', dones', |dones'|) && |dones'| == |trace'| - 1
    ensures stop <==> r.Ok? && (r.value.1 || NameOf(r.value.0) == NameOf(expr))
  {
    ghost var g, remaining;
    r, g, remaining := FusionPass(expr, fuel);
    if r.Ok? {
      Extend(trace, dones, groups, e, r.value.0, r.value.1, g);
      trace', dones', groups' := trace + [r.value.0], dones + [r.value.1], groups + [g];
      stop := r.value.1 || NameOf(r.value.0) == NameOf(expr);
    } else {
      trace', dones', groups' := trace, dones, groups;
      stop := false;
    }
  }

  /** One more pass extends the trace: the record stays a run of passes from `e`, and still progresses if the pass did. */
  lemma Extend(trace: seq<Expr>, dones: seq<bool>, groups: seq<seq<Expr>>, e: Expr, b: Expr, d: bool, g: seq<Expr>)
    requires Steps(trace, dones, groups) && trace[0] == e && PassStep(trace[|trace| - 1], b, g, d)
    requires Progressing(trace, dones, |dones|)
    ensures var t, ds := trace + [b], dones + [d];
            Steps(t, ds, groups + [g]) && t[0] == e && t[|t| - 1] == b && t[|t| - 2] == trace[|trace| - 1] &&
            ds[|t| - 2] == d && Progressing(t, ds, |t| - 2) &&
            (!d && NameOf(b) != NameOf(trace[|trace| - 1]) ==> Progressing(t, ds, |ds|))
  {
    StepsSnoc(trace, dones, groups, b, d, g);
    ProgressingPrefix(trace, dones, b, d);
    if !d && NameOf(b) != NameOf(trace[|trace| - 1]) {
      ProgressingSnoc(trace, dones, b, d);
    }
  }

  lemma ProgressingShorter(trace: seq<Expr>, dones: seq<bool>, k: int, j: int)
    requires k <= |dones| && |dones| < |trace| && j <= k && Progressing(trace, dones, k)
    ensures Progressing(trace, dones, j)
  {
  }

  lemma ProgressingSnoc(trace: seq<Expr>, dones: seq<bool>, b: Expr, d: bool)
    requires |dones| == |trace| - 1 && Progressing(trace, dones, |dones|)
    requires !d && NameOf(b) != NameOf(trace[|trace| - 1])
    ensures Progressing(trace + [b], dones + [d], |dones| + 1)
  {
    var t, ds := trace + [b], dones + [d];
    forall i | 0 <= i < |dones| + 1 ensures !ds[i] && NameOf(t[i + 1]) != NameOf(t[i]) {
      if i < |dones| {
        assert t[i] == trace[i] && t[i + 1] == trace[i + 1] && ds[i] == dones[i];
      }
    }
  }

  lemma ProgressingPrefix(trace: seq<Expr>, dones: seq<bool>, b: Expr, d: bool)
    requires |dones| == |trace| - 1 && Progressing(trace, dones, |dones|)
    ensures Progressing(trace + [b], dones + [d], |dones|)
  {
    var t, ds := trace + [b], dones + [d];
    forall i | 0 <= i < |dones| ensures !ds[i] && NameOf(t[i + 1]) != NameOf(t[i]) {
      assert t[i] == trace[i] && t[i + 1] == trace[i + 1] && ds[i] == dones[i];
    }
  }

  /**
    `optimize_blockwise_fusion`: run passes until one reports done or
    leaves the name unchanged. The ghost trace lists the expression before
    and after each pass; every pass but the last changed the name and was
    not done. `passes` bounds the number of passes.
   */
  method OptimizeBlockwiseFusion(e: Expr, passes: nat, fuel: nat)
    returns (r: Result<Expr>, ghost trace: seq<Expr>, ghost dones: seq<bool>, ghost groups: seq<seq<Expr>>)
    ensures Steps(trace, dones, groups) && trace[0] == e
    ensures |trace| >= 2 ==> Progressing(trace, dones, |trace| - 2)
    ensures r.Ok? ==> |trace| >= 2 && r.value == trace[|trace| - 1] &&
                      (dones[|trace| - 2] || NameOf(trace[|trace| - 1]) == NameOf(trace[|trace| - 2]))
  {
    var expr := e;
    trace, dones, groups := [e], [], [];
    var n := passes;
    while n > 0
      invariant Steps(trace, dones, groups) && trace[0] == e && expr == trace[|trace| - 1]
      invariant Progressing(trace, dones, |dones|)
      decreases n
    {
      n := n - 1;
      var res, stop;
      res, stop, trace, dones, groups := TracedPass(expr, fuel, e, trace, dones, groups);
      if res.Err? {
        ProgressingShorter(trace, dones, |dones|, |trace| - 2);
        return Err(res.error), trace, dones, groups;
      }
      if stop {
        return Ok(res.value.0), trace, dones, groups;
      }
      expr := res.value.0;
    }
    ProgressingShorter(trace, dones, |dones|, |trace| - 2);
    r := Err(RecursionError);
  }
}
