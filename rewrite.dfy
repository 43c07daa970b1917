/**
  Rewriting an expression tree: `Expr.substitute`, the two node-local
  `simplify` methods (Projection merging and Head pushdown) and the
  bottom-up `simplify` driver of dask_match/expr.py.
 */
module Rewrite {
  import opened Wrappers
  import opened Ir
  import Meta
  import opened Oracles
  import Partitions
  import ExprIO

  // ---------------------------------------------------------------------
  // substitute
  // ---------------------------------------------------------------------

  /** `ishashable(operand)`: nodes and hashable literals can be looked up; a list cannot. */
  predicate HashableOperand(op: Operand) {
    match op
    case Lit(v) => Hashable(v)
    case Node(_) => true
    case Group(_) => false
  }

  /** The operand is replaced outright: it can be looked up and is a key. */
  predicate IsKey(op: Operand, subs: map<Operand, Operand>) {
    HashableOperand(op) && op in subs
  }

  /** `e.substitute(subs)`: a key is replaced by its value; otherwise the node is rebuilt from its substituted operands. */
  function Substitute(e: Expr, subs: map<Operand, Operand>): (r: Result<Operand>)
    decreases e, 2
    ensures r.Ok? && !r.value.Node? ==> Node(e) in subs && r.value == subs[Node(e)]
    ensures r.Ok? && Node(e) !in subs ==> r.value.Node? && r.value.e.kind == e.kind
    ensures subs == map[] ==> r == Ok(Node(e))
    ensures subs != map[] && Node(e) in subs ==> r == Ok(subs[Node(e)])
    ensures subs != map[] && Node(e) !in subs ==>
              (r.Ok? <==> Rebuild(e, subs).Ok?) && (r.Ok? ==> r.value == Node(Rebuild(e, subs).value))
  {
    if subs == map[] then Ok(Node(e))
    else if Node(e) in subs then Ok(subs[Node(e)])
    else
      var n :- Rebuild(e, subs);
      Ok(Node(n))
  }

  /** The operand loop of `substitute`: the node itself when nothing changed, else its kind rebuilt from the new operands. */
  function Rebuild(e: Expr, subs: map<Operand, Operand>): (r: Result<Expr>)
    decreases e, 1
    ensures r.Ok? ==> r.value.kind == e.kind && SubstituteFrom(e, subs, 0).Ok?
    ensures SubstituteFrom(e, subs, 0).Ok? && !SubstituteFrom(e, subs, 0).value.1 ==> r == Ok(e)
    ensures SubstituteFrom(e, subs, 0).Ok? && SubstituteFrom(e, subs, 0).value.1 && |e.operands| >= |Params(e.kind)| ==>
              r == Ok(Expr(e.kind, SubstituteFrom(e, subs, 0).value.0))
  {
    var res :- SubstituteFrom(e, subs, 0);
    if res.1 then
      if |res.0| >= |Params(e.kind)| then ConstructSaturated(e.kind, res.0); Meta.ConstructIntended(e.kind, res.0, map[])
      else Meta.ConstructIntended(e.kind, res.0, map[])
    else Ok(e)
  }

  /**
    The substituted operands from index `i` on, and whether any of them
    changed: a key is replaced (and counts as a change), a child node is
    rebuilt (a change when its name differs), anything else is kept.
   */
  function SubstituteFrom(e: Expr, subs: map<Operand, Operand>, i: nat): (r: Result<(seq<Operand>, bool)>)
    requires i <= |e.operands|
    decreases e, 0, |e.operands| - i
    ensures r.Ok? ==> |r.value.0| == |e.operands| - i
    ensures r.Ok? ==> forall k :: 0 <= k < |r.value.0| ==> Replaced(e.operands[i + k], subs, r.value.0[k])
    ensures r.Ok? && (exists k :: i <= k < |e.operands| && IsKey(e.operands[k], subs)) ==> r.value.1
  {
    if i >= |e.operands| then Ok(([], false))
    else
      var first :- SubstituteOperand(e, subs, i);
      var rest :- SubstituteFrom(e, subs, i + 1);
      var ops := [first.0] + rest.0;
      assert forall k :: 1 <= k < |ops| ==> ops[k] == rest.0[k - 1] && e.operands[i + k] == e.operands[(i + 1) + (k - 1)];
      KeyHereOrLater(e, subs, i);
      Ok((ops, first.1 || rest.1))
  }

  /** A key among operands `i..` is operand `i` or one among `i + 1..`. */
  lemma KeyHereOrLater(e: Expr, subs: map<Operand, Operand>, i: nat)
    requires i < |e.operands|
    ensures (exists k :: i <= k < |e.operands| && IsKey(e.operands[k], subs)) ==>
              IsKey(e.operands[i], subs) || exists k :: i + 1 <= k < |e.operands| && IsKey(e.operands[k], subs)
  {
    if exists k :: i <= k < |e.operands| && IsKey(e.operands[k], subs) {
      var k :| i <= k < |e.operands| && IsKey(e.operands[k], subs);
      if k > i {
        assert i + 1 <= k < |e.operands| && IsKey(e.operands[k], subs);
      }
    }
  }

  /** Operand `i` substituted, and whether it changed. */
  function SubstituteOperand(e: Expr, subs: map<Operand, Operand>, i: nat): (r: Result<(Operand, bool)>)
    requires i < |e.operands|
    decreases e, 0, 0
    ensures r.Ok? ==> Replaced(e.operands[i], subs, r.value.0)
    ensures r.Ok? && IsKey(e.operands[i], subs) ==> r.value.1
  {
    var op := e.operands[i];
    if IsKey(op, subs) then Ok((subs[op], true))
    else if op.Node? then
      var n :- Rebuild(op.e, subs);
      Ok((Node(n), NameOf(n) != NameOf(op.e)))
    else Ok((op, false))
  }

  /** What `substitute` makes of one operand: a key's value, a rebuilt child node, or the operand itself. */
  ghost predicate Replaced(op: Operand, subs: map<Operand, Operand>, out: Operand)
    decreases op
  {
    if IsKey(op, subs) then out == subs[op]
    else if op.Node? then Rebuild(op.e, subs).Ok? && out == Node(Rebuild(op.e, subs).value)
    else out == op
  }

  /** No operand anywhere below `e` is a key. */
  ghost predicate Avoids(e: Expr, subs: map<Operand, Operand>)
    decreases e
  {
    forall i :: 0 <= i < |e.operands| ==>
      !IsKey(e.operands[i], subs) && (e.operands[i].Node? ==> Avoids(e.operands[i].e, subs))
  }

  /** Every node below `e` carries at least as many operands as its kind has parameters. */
  ghost predicate Saturated(e: Expr)
    decreases e
  {
    |e.operands| >= |Params(e.kind)| &&
    forall i :: 0 <= i < |e.operands| && e.operands[i].Node? ==> Saturated(e.operands[i].e)
  }

  /** Rebuilding a saturated operand list gives back exactly that list. */
  lemma ConstructSaturated(k: Kind, ops: seq<Operand>)
    requires |ops| >= |Params(k)|
    ensures Meta.ConstructIntended(k, ops, map[]) == Ok(Expr(k, ops))
  {
    assert Meta.AllSupplied(Params(k), Defaults(k), |ops|, map[]);
    assert Meta.KwargsFit(Params(k), |ops|, map[]);
  }

  /** `substitute` with no key below the node returns the node itself (also when `subs` is empty). */
  lemma SubstituteIdentity(e: Expr, subs: map<Operand, Operand>)
    requires subs == map[] || (Node(e) !in subs && Avoids(e, subs))
    ensures Substitute(e, subs) == Ok(Node(e))
  {
    if subs != map[] {
      RebuildIdentity(e, subs);
    }
  }

  lemma {:induction false} RebuildIdentity(e: Expr, subs: map<Operand, Operand>)
    requires Avoids(e, subs)
    ensures Rebuild(e, subs) == Ok(e)
    decreases e, 1
  {
    FromIdentity(e, subs, 0);
    assert e.operands[0..] == e.operands;
  }

  lemma {:induction false} FromIdentity(e: Expr, subs: map<Operand, Operand>, i: nat)
    requires Avoids(e, subs) && i <= |e.operands|
    ensures SubstituteFrom(e, subs, i) == Ok((e.operands[i..], false))
    decreases e, 0, |e.operands| - i
  {
    if i < |e.operands| {
      var op := e.operands[i];
      assert !IsKey(op, subs);
      if op.Node? {
        RebuildIdentity(op.e, subs);
      }
      FromIdentity(e, subs, i + 1);
      assert SubstituteFrom(e, subs, i) == Ok(([op] + e.operands[i + 1..], false));
      assert e.operands[i..] == [op] + e.operands[i + 1..];
    } else {
      assert e.operands[i..] == [];
    }
  }

  /** Substituting every key by itself leaves a saturated tree as it is. */
  lemma SubstituteFixed(e: Expr, subs: map<Operand, Operand>)
    requires forall k :: k in subs ==> subs[k] == k
    requires Saturated(e)
    ensures Substitute(e, subs) == Ok(Node(e))
  {
    if subs != map[] && Node(e) !in subs {
      RebuildFixed(e, subs);
    }
  }

  lemma {:induction false} RebuildFixed(e: Expr, subs: map<Operand, Operand>)
    requires forall k :: k in subs ==> subs[k] == k
    requires Saturated(e)
    ensures Rebuild(e, subs) == Ok(e)
    decreases e, 1
  {
    FromFixed(e, subs, 0);
    assert e.operands[0..] == e.operands;
    ConstructSaturated(e.kind, e.operands);
  }

  lemma {:induction false} FromFixed(e: Expr, subs: map<Operand, Operand>, i: nat)
    requires forall k :: k in subs ==> subs[k] == k
    requires Saturated(e) && i <= |e.operands|
    ensures SubstituteFrom(e, subs, i).Ok? && SubstituteFrom(e, subs, i).value.0 == e.operands[i..]
    decreases e, 0, |e.operands| - i
  {
    if i < |e.operands| {
      var op := e.operands[i];
      if !IsKey(op, subs) && op.Node? {
        RebuildFixed(op.e, subs);
      }
      FromFixed(e, subs, i + 1);
      assert e.operands[i..] == [op] + e.operands[i + 1..];
    }
  }

  // ---------------------------------------------------------------------
  // Projection.simplify
  // ---------------------------------------------------------------------

  /** A Python list operand: a literal list or a list of nodes. */
  predicate IsList(op: Operand) {
    (op.Lit? && op.v.VList?) || op.Group?
  }

  /** The items of a list operand, each as an operand. */
  function ListOperands(op: Operand): (r: seq<Operand>)
    requires IsList(op)
    ensures |r| == (if op.Group? then |op.es| else |op.v.items|)
  {
    if op.Group? then seq(|op.es|, i requires 0 <= i < |op.es| => Node(op.es[i]))
    else seq(|op.v.items|, i requires 0 <= i < |op.v.items| => Lit(op.v.items[i]))
  }

  /** Python `a == b` as a condition: a comparison that involves a node builds an `EQ` node, which is truthy. */
  predicate PyEq(a: Operand, b: Operand) {
    a.Node? || b.Node? || a == b
  }

  /** Python `x in a` for a list `a`: every comparison with a node is truthy. */
  predicate PyContains(a: Operand, x: Operand)
    requires IsList(a)
  {
    if a.Group? then a.es != []
    else if x.Node? then a.v.items != []
    else x.Lit? && x.v in a.v.items
  }

  /** The assertion guarding a merge of `df[a][b]` into `df[b]`. */
  predicate MergeHolds(a: Operand, b: Operand) {
    if !IsList(a) then PyEq(a, b)
    else if IsList(b) then forall x :: x in ListOperands(b) ==> PyContains(a, x)
    else PyContains(a, b)
  }

  /**
    `Projection.simplify`: a projection of a projection becomes a single
    projection of the inner frame; `None` when the frame is not a projection.
   */
  function ProjectionSimplify(e: Expr): (r: Result<Option<Expr>>)
    requires e.kind == Projection
    ensures !(|e.operands| > 0 && e.operands[0].Node? && e.operands[0].e.kind == Projection) ==>
              r == (if |e.operands| == 0 then Err(IndexError) else Ok(None))
    ensures r.Ok? && r.value.Some? ==>
              e.operands[0].Node? && |e.operands[0].e.operands| >= 2 && |e.operands| >= 2 &&
              MergeHolds(e.operands[0].e.operands[1], e.operands[1]) &&
              e.operands[0].e.operands[0].Node? &&
              r.value.value == GetItem(e.operands[0].e.operands[0].e, e.operands[1])
  {
    var frame :- Slot(e, 0);
    if !(frame.Node? && frame.e.kind == Projection) then Ok(None)
    else
      var a :- Slot(frame.e, 1);
      var b :- Slot(e, 1);
      if !MergeHolds(a, b) then Err(AssertionError)
      else
        var df :- Slot(frame.e, 0);
        if df.Node? then Ok(Some(GetItem(df.e, b))) else Err(TypeError)
  }

  /** `df[a][b]` with `b` a sub-list of `a` merges, and the merge is `df[b]`. */
  lemma MergeSubList(df: Expr, a: seq<Value>, b: seq<Value>)
    requires forall x :: x in b ==> x in a
    ensures ProjectionSimplify(Expr(Projection, [Node(Expr(Projection, [Node(df), Lit(VList(a))])), Lit(VList(b))]))
            == Ok(Some(Expr(Projection, [Node(df), Lit(VList(b))])))
  {
    var la, lb := Lit(VList(a)), Lit(VList(b));
    forall x | x in ListOperands(lb) ensures PyContains(la, x) {
      var i :| 0 <= i < |b| && ListOperands(lb)[i] == x;
      assert x == Lit(b[i]);
    }
  }

  /** A list of labels that is not a sub-list of the inner one fails the merge's assertion. */
  lemma MergeRejects(df: Expr, a: seq<Value>, b: seq<Value>, c: Value)
    requires c in b && c !in a
    ensures ProjectionSimplify(Expr(Projection, [Node(Expr(Projection, [Node(df), Lit(VList(a))])), Lit(VList(b))]))
            == Err(AssertionError)
  {
    var i :| 0 <= i < |b| && b[i] == c;
    assert ListOperands(Lit(VList(b)))[i] == Lit(c);
    assert Lit(c) in ListOperands(Lit(VList(b)));
  }

  /**
    The merge is sound on tables: when `b` is a sub-list of `a`, selecting
    `a` and then `b` is selecting `b`; otherwise the two selections fail.
   */
  lemma MergedSelectionAgrees(t: Table, a: seq<Value>, b: seq<Value>)
    requires ExprIO.SelectColumns(t, a).Ok?
    ensures MergeHolds(Lit(VList(a)), Lit(VList(b))) ==>
              ExprIO.SelectColumns(ExprIO.SelectColumns(t, a).value, b) == ExprIO.SelectColumns(t, b)
    ensures !MergeHolds(Lit(VList(a)), Lit(VList(b))) ==>
              ExprIO.SelectColumns(ExprIO.SelectColumns(t, a).value, b) == Err(KeyError)
  {
    var lb := Lit(VList(b));
    if MergeHolds(Lit(VList(a)), lb) {
      forall x | x in b ensures x in a {
        var i :| 0 <= i < |b| && b[i] == x;
        assert ListOperands(lb)[i] == Lit(x);
        assert Lit(x) in ListOperands(lb);
      }
    } else {
      var x :| x in ListOperands(lb) && !PyContains(Lit(VList(a)), x);
      var i :| 0 <= i < |b| && ListOperands(lb)[i] == x;
      assert b[i] !in a;
    }
  }

  /** A single label of the inner list: selecting `a` then the label is selecting the label. */
  lemma MergedLabelAgrees(t: Table, a: seq<Value>, c: Value)
    requires ExprIO.SelectColumns(t, a).Ok? && !c.VList?
    ensures MergeHolds(Lit(VList(a)), Lit(c)) <==> c in a
    ensures c in a ==> ExprIO.SelectColumn(ExprIO.SelectColumns(t, a).value, c) == ExprIO.SelectColumn(t, c)
    ensures c !in a ==> ExprIO.SelectColumn(ExprIO.SelectColumns(t, a).value, c) == Err(KeyError)
  {
  }

  // ---------------------------------------------------------------------
  // Head.simplify
  // ---------------------------------------------------------------------

  /** Each node operand wrapped in `Head(op, n)`; literals are kept. */
  function HeadEach(ops: seq<Operand>, n: Operand): (r: seq<Operand>)
    ensures |r| == |ops|
  {
    seq(|ops|, i requires 0 <= i < |ops| => if ops[i].Node? then Node(Expr(Head, [ops[i], n])) else ops[i])
  }

  /** No operand is a node. */
  predicate NoNodes(ops: seq<Operand>) {
    forall i :: 0 <= i < |ops| ==> !ops[i].Node?
  }

  /** `Head.simplify`: over an element-wise frame, take the head of each node operand instead. */
  function HeadSimplify(e: Expr): (r: Result<Expr>)
    requires e.kind == Head
  {
    var frame :- Slot(e, 0);
    if frame.Node? && IsElemwise(frame.e.kind) then
      var ops := frame.e.operands;
      if NoNodes(ops) then Meta.ConstructIntended(frame.e.kind, ops, map[])
      else
        var n :- Slot(e, 1);
        Meta.ConstructIntended(frame.e.kind, HeadEach(ops, n), map[])
    else Ok(e)
  }

  /**
    Head distributes over a saturated element-wise frame: the result has the
    frame's kind, every node operand becomes `Head(op, n)` and every literal
    stays; over any other frame the node is left as it is.
   */
  lemma HeadDistributes(e: Expr)
    requires e.kind == Head && |e.operands| >= 2
    ensures var frame := e.operands[0];
            frame.Node? && IsElemwise(frame.e.kind) && |frame.e.operands| >= |Params(frame.e.kind)| ==>
              HeadSimplify(e).Ok? &&
              HeadSimplify(e).value.kind == frame.e.kind &&
              |HeadSimplify(e).value.operands| == |frame.e.operands| &&
              forall i :: 0 <= i < |frame.e.operands| ==>
                HeadSimplify(e).value.operands[i] ==
                (if frame.e.operands[i].Node? then Node(Expr(Head, [frame.e.operands[i], e.operands[1]]))
                 else frame.e.operands[i])
    ensures !(e.operands[0].Node? && IsElemwise(e.operands[0].e.kind)) ==> HeadSimplify(e) == Ok(e)
  {
    var frame := e.operands[0];
    if frame.Node? && IsElemwise(frame.e.kind) && |frame.e.operands| >= |Params(frame.e.kind)| {
      var ops := frame.e.operands;
      ConstructSaturated(frame.e.kind, ops);
      ConstructSaturated(frame.e.kind, HeadEach(ops, e.operands[1]));
      if NoNodes(ops) {
        forall i | 0 <= i < |ops| ensures HeadEach(ops, e.operands[1])[i] == ops[i] {
          assert !ops[i].Node?;
        }
        assert HeadEach(ops, e.operands[1]) == ops;
      }
    }
  }

  /** Pushing the head below a column selection keeps the divisions: the first two of the frame's. */
  lemma HeadPushdownDivisions(df: Expr, cols: Operand, n: Operand, w: World)
    ensures var e := Expr(Head, [Node(Expr(Projection, [Node(df), cols])), n]);
            HeadSimplify(e).Ok? && Partitions.Divisions(HeadSimplify(e).value, w) == Partitions.Divisions(e, w)
  {
    var e := Expr(Head, [Node(Expr(Projection, [Node(df), cols])), n]);
    HeadDistributes(e);
    var out := HeadSimplify(e).value;
    assert out.operands[0] == Node(Expr(Head, [Node(df), n]));
    var pushed := Expr(Head, [Node(df), n]);
    var inner := Expr(Projection, [Node(df), cols]);
    assert Partitions.FrameDivisions(pushed, w) == Partitions.Divisions(df, w);
    assert Partitions.FrameDivisions(inner, w) == Partitions.Divisions(df, w);
    assert Partitions.Divisions(out, w) == Partitions.Divisions(pushed, w);
    assert Partitions.Divisions(e, w) == (var d :- Partitions.Divisions(inner, w); Ok(Slice(d, 0, 2)));
  }

  // ---------------------------------------------------------------------
  // simplify
  // ---------------------------------------------------------------------

  /** `expr.simplify()`, dispatched on the node's kind; the base class returns the node. */
  function LocalStep(e: Expr): (r: Result<Expr>)
    ensures !(e.kind in {Projection, Head}) ==> r == Ok(e)
  {
    match e.kind
    case Projection =>
      var m :- ProjectionSimplify(e);
      if m.Some? then Ok(m.value) else Ok(e)
    case Head => HeadSimplify(e)
    case _ => Ok(e)
  }

  /** The number of nodes in the tree. */
  function Size(e: Expr): nat
    decreases e, 1
  {
    1 + SizeFrom(e, 0)
  }

  function SizeFrom(e: Expr, i: nat): nat
    decreases e, 0, |e.operands| - i
  {
    if i >= |e.operands| then 0
    else (if e.operands[i].Node? then Size(e.operands[i].e) else 0) + SizeFrom(e, i + 1)
  }

  /** The node counts of the first two operands are part of the tree's. */
  lemma SizeOfTwo(e: Expr)
    requires |e.operands| >= 2
    ensures Size(e) >= 1 + (if e.operands[0].Node? then Size(e.operands[0].e) else 0)
                          + (if e.operands[1].Node? then Size(e.operands[1].e) else 0)
    ensures |e.operands| == 2 ==>
              Size(e) == 1 + (if e.operands[0].Node? then Size(e.operands[0].e) else 0)
                           + (if e.operands[1].Node? then Size(e.operands[1].e) else 0)
  {
    assert SizeFrom(e, 0) == (if e.operands[0].Node? then Size(e.operands[0].e) else 0) + SizeFrom(e, 1);
    assert SizeFrom(e, 1) == (if e.operands[1].Node? then Size(e.operands[1].e) else 0) + SizeFrom(e, 2);
  }

  /** Heads sort above every other kind in the rewrite measure. */
  function Rank(e: Expr): nat {
    if e.kind == Head then 1 else 0
  }

  /** A local step that changes the name lowers the measure (rank, then size). */
  lemma StepShrinks(e: Expr, out: Expr)
    requires LocalStep(e) == Ok(out) && NameOf(out) != NameOf(e)
    ensures Rank(out) < Rank(e) || (Rank(out) == Rank(e) && Size(out) < Size(e))
  {
    if e.kind == Projection {
      ProjectionShrinks(e, out);
    } else {
      HeadStepLeavesHead(e, out);
    }
  }

  /** A merged projection is smaller than the two projections it replaces. */
  lemma ProjectionShrinks(e: Expr, out: Expr)
    requires e.kind == Projection && LocalStep(e) == Ok(out) && NameOf(out) != NameOf(e)
    ensures out.kind != Head && Size(out) < Size(e)
  {
    assert ProjectionSimplify(e).value.Some?;
    var frame := e.operands[0].e;
    var df := frame.operands[0].e;
    assert out == GetItem(df, e.operands[1]);
    SizeOfTwo(e);
    SizeOfTwo(frame);
    SizeOfTwo(out);
  }

  /** A Head step that changes the name leaves a node of the frame's kind, not a Head. */
  lemma HeadStepLeavesHead(e: Expr, out: Expr)
    requires LocalStep(e) == Ok(out) && NameOf(out) != NameOf(e) && e.kind != Projection
    ensures e.kind == Head && out.kind != Head
  {
    assert e.kind == Head;
    HeadSimplifyKind(e);
  }

  /** Head simplification either leaves the node as it is or rebuilds the frame's kind, never a Head. */
  lemma HeadSimplifyKind(e: Expr)
    requires e.kind == Head
    ensures HeadSimplify(e).Ok? ==> HeadSimplify(e).value == e || HeadSimplify(e).value.kind != Head
  {
    var frame := Slot(e, 0);
    if frame.Ok? && frame.value.Node? && IsElemwise(frame.value.e.kind) {
      assert frame.value.e.kind != Head;
    }
  }

  /** `expr.simplify()` keeps the node's name. */
  ghost predicate Stable(e: Expr) {
    LocalStep(e).Ok? && NameOf(LocalStep(e).value) == NameOf(e)
  }

  /** Every node of the tree is stable: the driver has nothing left to do. */
  ghost predicate Normal(e: Expr)
    decreases e
  {
    Stable(e) && forall i :: 0 <= i < |e.operands| && e.operands[i].Node? ==> Normal(e.operands[i].e)
  }

  /** Every node of the tree is stable, and the tree is at most `fuel` nodes deep. */
  ghost predicate NormalWithin(e: Expr, fuel: nat)
    decreases e
  {
    fuel > 0 && Stable(e) &&
    forall i :: 0 <= i < |e.operands| && e.operands[i].Node? ==> NormalWithin(e.operands[i].e, fuel - 1)
  }

  /** A tree normal within some depth is normal. */
  lemma {:induction false} NormalWithinNormal(e: Expr, fuel: nat)
    requires NormalWithin(e, fuel)
    ensures Normal(e)
    decreases e
  {
    forall i | 0 <= i < |e.operands| && e.operands[i].Node?
      ensures Normal(e.operands[i].e)
    {
      NormalWithinNormal(e.operands[i].e, fuel - 1);
    }
  }

  /** Each node operand normal within `fuel`. */
  ghost predicate OperandsWithin(ops: seq<Operand>, fuel: nat) {
    forall j :: 0 <= j < |ops| && ops[j].Node? ==> NormalWithin(ops[j].e, fuel)
  }

  /** Each node operand of `ops` comes back as a normal node in `out`. */
  ghost predicate OperandsNormal(ops: seq<Operand>, out: seq<Operand>)
    requires |ops| == |out|
  {
    forall j :: 0 <= j < |ops| && ops[j].Node? ==> out[j].Node? && Normal(out[j].e)
  }

  /** Normal operands in front of normal operands stay normal. */
  lemma NormalCons(op: Operand, ops: seq<Operand>, o: Operand, out: seq<Operand>)
    requires |ops| == |out| && OperandsNormal(ops, out)
    requires op.Node? ==> o.Node? && Normal(o.e)
    ensures OperandsNormal([op] + ops, [o] + out)
  {
    forall j | 0 < j <= |ops|
      ensures ([op] + ops)[j] == ops[j - 1] && ([o] + out)[j] == out[j - 1]
    {
    }
  }

  /** The first operand and the rest of operands normal within `fuel` are too. */
  lemma WithinTail(ops: seq<Operand>, fuel: nat)
    requires ops != [] && OperandsWithin(ops, fuel)
    ensures ops[0].Node? ==> NormalWithin(ops[0].e, fuel)
    ensures OperandsWithin(ops[1..], fuel)
  {
    forall j | 0 <= j < |ops| - 1
      ensures ops[1..][j] == ops[j + 1]
    {
    }
  }

  /**
    The local loop of `simplify`: apply the node's own step until the name
    stops changing. The result is stable, and it is the input exactly when
    no step changed the name.
   */
  method LocalFixpoint(e: Expr) returns (r: Result<(Expr, bool)>)
    ensures r.Ok? ==> Stable(r.value.0)
    ensures r.Ok? && !r.value.1 ==> r.value.0 == e
    ensures Stable(e) ==> r == Ok((e, false))
  {
    var expr := e;
    var changed := false;
    while true
      invariant !changed ==> expr == e
      invariant Stable(e) ==> !changed
      decreases Rank(expr), Size(expr)
    {
      var out :- LocalStep(expr);
      if NameOf(out) == NameOf(expr) {
        break;
      }
      StepShrinks(expr, out);
      changed := true;
      expr := out;
    }
    return Ok((expr, changed));
  }

  /**
    `simplify(expr)`: apply the node's own step until its name is stable,
    then simplify the children; when a child changed, rebuild the node and
    simplify it again. The result is the input exactly when nothing
    changed, and every node of a result is stable. `fuel` bounds the depth
    of the recursion (Python's recursion limit).
   */
  method Simplify(op: Operand, fuel: nat) returns (r: Result<(Operand, bool)>)
    decreases fuel, 0
    ensures !op.Node? ==> r == Ok((op, false))
    ensures r.Ok? && !r.value.1 ==> r.value.0 == op
    ensures r.Ok? && op.Node? ==> r.value.0.Node? && Normal(r.value.0.e)
    ensures op.Node? && NormalWithin(op.e, fuel) ==> r == Ok((op, false))
  {
    if !op.Node? {
      return Ok((op, false));
    }
    if fuel == 0 {
      return Err(RecursionError);
    }
    var local := LocalFixpoint(op.e);
    if local.Err? {
      return Err(local.error);
    }
    var (expr, changed) := local.value;
    var children := SimplifyOperands(expr.operands, fuel - 1);
    if children.Err? {
      return Err(children.error);
    }
    var (newOps, changedAny) := children.value;
    if changedAny {
      var rebuilt := Meta.Construct(expr.kind, newOps, map[]);
      if rebuilt.Err? {
        return Err(rebuilt.error);
      }
      var again := Simplify(Node(rebuilt.value), fuel - 1);
      if again.Err? {
        return Err(again.error);
      }
      return Ok((again.value.0, true));
    }
    return Ok((Node(expr), changed));
  }

  /**
    The operand loop of `simplify`: each operand simplified in turn, and
    whether any of them changed. Unchanged operands come back as they were;
    every node that comes back is normal.
   */
  method SimplifyOperands(ops: seq<Operand>, fuel: nat) returns (r: Result<(seq<Operand>, bool)>)
    decreases fuel, 1, |ops|
    ensures r.Ok? ==> |r.value.0| == |ops| && OperandsNormal(ops, r.value.0)
    ensures r.Ok? && !r.value.1 ==> r.value.0 == ops
    ensures OperandsWithin(ops, fuel) ==> r == Ok((ops, false))
  {
    if ops == [] {
      return Ok(([], false));
    }
    if OperandsWithin(ops, fuel) {
      WithinTail(ops, fuel);
    }
    var head := Simplify(ops[0], fuel);
    if head.Err? {
      return Err(head.error);
    }
    var rest := SimplifyOperands(ops[1..], fuel);
    if rest.Err? {
      return Err(rest.error);
    }
    NormalCons(ops[0], ops[1..], head.value.0, rest.value.0);
    assert ops == [ops[0]] + ops[1..];
    return Ok(([head.value.0] + rest.value.0, head.value.1 || rest.value.1));
  }
}
