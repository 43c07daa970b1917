/**
  Divisions, partition counts, broadcasting and output keys of a node
  (dask_match/expr.py:235-253, 290-291, 351-369, 445-446, 542-543, 606-607,
  625-626, 967-971).
 */
module Partitions {
  import opened Wrappers
  import opened Ir
  import opened Oracles
  import MatchIO
  import ExprIO
  import Parquet

  /** `dependencies()`: a Fused node lists `operands[1:]`; every other kind its node operands. */
  function Deps(e: Expr): (r: seq<Expr>)
    ensures e.kind != Fused ==> r == Dependencies(e)
    ensures forall i :: 0 <= i < |r| ==> r[i] < e
  {
    var ops := if e.kind == Fused && |e.operands| > 0 then e.operands[1..] else e.operands;
    var r := NodesOf(ops);
    assert forall i :: 0 <= i < |r| ==> Node(r[i]) in e.operands by {
      assert forall op :: op in ops ==> op in e.operands;
    }
    r
  }

  /** The kinds whose divisions are the inherited `Blockwise._divisions`. */
  predicate InheritsDivisions(k: Kind) {
    k == Filter || k == AsType || k == Apply || k == Assign || IsBinop(k)
  }

  /** `divisions`: the `_divisions()` of each kind. */
  function Divisions(e: Expr, w: World): Result<seq<Value>>
    decreases e, 4, 0
  {
    match e.kind
    case Projection => FrameDivisions(e, w)
    case ProjectIndex => FrameDivisions(e, w)
    case Head =>
      var d :- FrameDivisions(e, w);
      Ok(Slice(d, 0, 2))
    case BlockwiseArg =>
      var lookup :- SlotValue(e, 0);
      var items :- PyIter(lookup);
      Ok(Parquet.Nones(|items| + 1))
    case Fused =>
      var exprs :- Slot(e, 0);
      if !exprs.Group? then Err(TypeError)
      else if exprs.es == [] then Err(IndexError)
      else Divisions(exprs.es[0], w)
    case MatchFromPandas =>
      var dl :- MatchIO.DivisionsAndLocationsOf(e, w);
      Ok(dl.divisions)
    case FromPandas =>
      var dl :- MatchIO.DivisionsAndLocationsOf(e, w);
      Ok(dl.divisions)
    case ReadParquet => Parquet.Divisions(e, w)
    case FromGraph => MatchIO.FromGraphDivisions(e)
    case Literal => Ok(w.opaqueDivisions(e))
    case Len => Ok(w.opaqueDivisions(e))
    case Lengths => Ok(w.opaqueDivisions(e))
    case _ => BlockwiseDivisions(e, w)
  }

  /** `self.frame.divisions`: the `frame` operand must be a node. */
  function FrameDivisions(e: Expr, w: World): Result<seq<Value>>
    decreases e, 3, 0
  {
    var frame :- Slot(e, 0);
    if frame.Node? then Divisions(frame.e, w) else Err(AttributeError)
  }

  /** `Blockwise._divisions`: check every non-broadcast dependency, then take the first dependency's divisions. */
  function BlockwiseDivisions(e: Expr, w: World): Result<seq<Value>>
    decreases e, 2, 0
  {
    var deps := Deps(e);
    var _ :- Agree(e, 0, w);
    if deps == [] then Err(IndexError) else Divisions(deps[0], w)
  }

  /** The assertion loop of `Blockwise._divisions`, from the `i`th dependency on. */
  function Agree(e: Expr, i: nat, w: World): Result<()>
    decreases e, 1, |Deps(e)| - i
  {
    var deps := Deps(e);
    if i >= |deps| then Ok(())
    else
      var b :- BroadcastDep(e, deps[i], w);
      if b then Agree(e, i + 1, w)
      else
        var mine :- Divisions(deps[i], w);
        var first :- Divisions(deps[0], w);
        if mine != first then Err(AssertionError) else Agree(e, i + 1, w)
  }

  /**
    `_broadcast_dep`: a dependency is broadcast to every partition when it is
    not a BlockwiseArg, has a single partition and has lower `ndim`. The
    partition test reads `dep.npartitions` as written: for a dask_match
    `FromPandas` that is the `npartitions` operand, compared with `1`; for
    every other kind it is the partition count.
   */
  function BroadcastDep(e: Expr, dep: Expr, w: World): (r: Result<bool>)
    decreases dep, 6, 0
    ensures dep.kind == BlockwiseArg ==> r == Ok(false)
    ensures dep.kind != BlockwiseArg && dep.kind != MatchFromPandas ==> (r.Ok? <==> NPartitions(dep, w).Ok?)
    ensures r.Ok? && dep.kind != BlockwiseArg && dep.kind != MatchFromPandas ==>
              (r.value <==> NPartitions(dep, w) == Ok(1) && w.ndim(dep) < w.ndim(e))
  {
    if dep.kind == BlockwiseArg then Ok(false)
    else if dep.kind == MatchFromPandas then
      var n :- OperandOf(dep, "npartitions");
      Ok(EqualsOne(n) && w.ndim(dep) < w.ndim(e))
    else
      var n :- NPartitions(dep, w);
      Ok(n == 1 && w.ndim(dep) < w.ndim(e))
  }

  /** A dask_match read is broadcast by its `npartitions` operand, not by its partition count. */
  lemma BroadcastByOperand(e: Expr, dep: Expr, w: World)
    requires dep.kind == MatchFromPandas
    ensures BroadcastDep(e, dep, w).Ok? <==> OperandOf(dep, "npartitions").Ok?
    ensures BroadcastDep(e, dep, w).Ok? ==>
              (BroadcastDep(e, dep, w).value <==> EqualsOne(OperandOf(dep, "npartitions").value) && w.ndim(dep) < w.ndim(e))
  {
  }

  /**
    `operand == 1` on a literal operand: the int `1`, or `True`, which
    Python counts as equal to it. A node operand counts as unequal.
   */
  predicate EqualsOne(op: Operand) {
    op == Lit(VInt(1)) || op == Lit(VBool(true))
  }

  /**
    A one-row dask_match read asked for two unsorted partitions has one
    partition, but its operand says 2, so as written it is never broadcast.
   */
  lemma OneRowNotBroadcast(e: Expr, w: World)
    ensures var dep := Expr(MatchFromPandas, [Lit(VFrame(Table([0], Some([])))), Lit(VInt(2)), Lit(VBool(false))]);
            && NPartitions(dep, w) == Ok(1)
            && BroadcastDep(e, dep, w) == Ok(false)
  {
    var dep := Expr(MatchFromPandas, [Lit(VFrame(Table([0], Some([])))), Lit(VInt(2)), Lit(VBool(false))]);
    assert Params(MatchFromPandas)[1] == "npartitions";
    OperandAtSlot(dep, 1);
    BroadcastByOperand(e, dep, w);
    MatchIO.PandasSlots(dep);
    assert MatchIO.FrameOf(dep) == Ok(Table([0], Some([])));
    assert MatchIO.ChunkSize(1, 2) == 1;
    assert MatchIO.RangeFrom(0, 1, 1) == [0];
    PandasPartitions(dep, w);
  }

  /**
    `npartitions` as evidently intended: `len(divisions) - 1`, with the
    filtered count of a dask_expr read. It is the count the keys and layers
    use.
   */
  function NPartitions(e: Expr, w: World): (r: Result<int>)
    decreases e, 5, 0
  {
    if e.kind == FromPandas then ExprIO.NPartitions(e, w)
    else
      var d :- Divisions(e, w);
      Ok(|d| - 1)
  }

  /** `Expr.npartitions` as written: the `npartitions` operand when the kind declares one, else `len(divisions) - 1`. */
  function NPartitionsAsWritten(e: Expr, w: World): (r: Result<Operand>)
    ensures "npartitions" in Params(e.kind) ==> r == OperandOf(e, "npartitions")
    ensures "npartitions" !in Params(e.kind) ==> (r.Ok? <==> Divisions(e, w).Ok?)
    ensures "npartitions" !in Params(e.kind) && r.Ok? ==> r.value == Lit(VInt(|Divisions(e, w).value| - 1))
  {
    if "npartitions" in Params(e.kind) then OperandOf(e, "npartitions")
    else
      var d :- Divisions(e, w);
      Ok(Lit(VInt(|d| - 1)))
  }

  /** The two definitions agree on every kind without an `npartitions` operand. */
  lemma NPartitionsAgree(e: Expr, w: World)
    requires e.kind != MatchFromPandas && e.kind != FromPandas
    ensures NPartitionsAsWritten(e, w).Ok? <==> NPartitions(e, w).Ok?
    ensures NPartitions(e, w).Ok? ==> NPartitionsAsWritten(e, w).value == Lit(VInt(NPartitions(e, w).value))
  {
    assert "npartitions" !in Params(e.kind);
    var d := Divisions(e, w);
    assert NPartitions(e, w) == if d.Ok? then Ok(|d.value| - 1) else Err(d.error);
  }

  /**
    The dask_match read of a four-row frame into three unsorted partitions:
    as written `npartitions` is the operand, 3, while its divisions describe
    two partitions, and the intended count is 2.
   */
  lemma NPartitionsOverCounts(w: World)
    ensures var e := Expr(MatchFromPandas, [Lit(VFrame(Table([0, 1, 2, 3], Some([])))), Lit(VInt(3)), Lit(VBool(false))]);
            && NPartitionsAsWritten(e, w) == Ok(Lit(VInt(3)))
            && NPartitions(e, w) == Ok(2)
  {
    var e := Expr(MatchFromPandas, [Lit(VFrame(Table([0, 1, 2, 3], Some([])))), Lit(VInt(3)), Lit(VBool(false))]);
    assert NPartitionsAsWritten(e, w) == Ok(Lit(VInt(3))) by {
      assert Params(MatchFromPandas)[1] == "npartitions";
      OperandAtSlot(e, 1);
    }
    ThreeRowsInTwoChunks(e, w);
    PandasPartitions(e, w);
  }

  /** A dask_match read has the divisions of its chunking, and one partition fewer. */
  lemma PandasPartitions(e: Expr, w: World)
    requires e.kind == MatchFromPandas && MatchIO.DivisionsAndLocationsOf(e, w).Ok?
    ensures Divisions(e, w) == Ok(MatchIO.DivisionsAndLocationsOf(e, w).value.divisions)
    ensures NPartitions(e, w) == Ok(|MatchIO.DivisionsAndLocationsOf(e, w).value.divisions| - 1)
  {
  }

  /** Four unsorted rows asked for three partitions are cut in chunks of two: three divisions. */
  lemma ThreeRowsInTwoChunks(e: Expr, w: World)
    requires e == Expr(MatchFromPandas, [Lit(VFrame(Table([0, 1, 2, 3], Some([])))), Lit(VInt(3)), Lit(VBool(false))])
    ensures MatchIO.DivisionsAndLocationsOf(e, w).Ok?
    ensures |MatchIO.DivisionsAndLocationsOf(e, w).value.divisions| == 3
  {
    MatchIO.PandasSlots(e);
    assert MatchIO.FrameOf(e) == Ok(Table([0, 1, 2, 3], Some([])));
    assert MatchIO.ChunkSize(4, 3) == 2;
    assert MatchIO.RangeFrom(0, 4, 2) == [0, 2];
  }

  /** `known_divisions`: divisions exist and the first one is not `None`. */
  function KnownDivisions(e: Expr, w: World): Result<bool> {
    var d :- Divisions(e, w);
    Ok(|d| > 0 && d[0] != VNone)
  }

  /** `__dask_keys__`: one key `(name, i)` for each partition. */
  function Keys(e: Expr, w: World): (r: Result<seq<Key>>)
    ensures r.Ok? <==> NPartitions(e, w).Ok?
    ensures r.Ok? ==> |r.value| == (if NPartitions(e, w).value < 0 then 0 else NPartitions(e, w).value)
    ensures r.Ok? ==> forall i :: 0 <= i < |r.value| ==> r.value[i] == Key(NameOf(e), i)
  {
    var n :- NPartitions(e, w);
    Ok(seq(if n < 0 then 0 else n, i => Key(NameOf(e), i)))
  }

  // ---------------------------------------------------------------------
  // Properties
  // ---------------------------------------------------------------------

  /** The keys are distinct, and a key names partition `i` of this node exactly when `i` is below `npartitions`. */
  lemma KeysArePartitions(e: Expr, w: World, k: Key)
    requires Keys(e, w).Ok?
    ensures k in Keys(e, w).value <==> k.name == NameOf(e) && 0 <= k.part < NPartitions(e, w).value
    ensures forall i, j :: 0 <= i < j < |Keys(e, w).value| ==> Keys(e, w).value[i] != Keys(e, w).value[j]
  {
    var ks := Keys(e, w).value;
    if k.name == NameOf(e) && 0 <= k.part < NPartitions(e, w).value {
      assert ks[k.part] == k;
    }
  }

  /** An unfinished assertion loop that passes accepts every later non-broadcast dependency. */
  lemma {:induction false} AgreeSound(e: Expr, i: nat, w: World)
    requires Agree(e, i, w).Ok?
    ensures forall j :: i <= j < |Deps(e)| ==> BroadcastDep(e, Deps(e)[j], w).Ok?
    ensures forall j :: i <= j < |Deps(e)| && BroadcastDep(e, Deps(e)[j], w) == Ok(false) ==>
              Divisions(Deps(e)[j], w).Ok? && Divisions(Deps(e)[j], w) == Divisions(Deps(e)[0], w)
  {
    forall j | i <= j < |Deps(e)|
      ensures BroadcastDep(e, Deps(e)[j], w).Ok?
      ensures BroadcastDep(e, Deps(e)[j], w) == Ok(false) ==>
                Divisions(Deps(e)[j], w).Ok? && Divisions(Deps(e)[j], w) == Divisions(Deps(e)[0], w)
    {
      AgreeAt(e, i, j, w);
    }
  }

  /** The passing loop from `i` on settles dependency `j`. */
  lemma {:induction false} AgreeAt(e: Expr, i: nat, j: nat, w: World)
    requires i <= j < |Deps(e)| && Agree(e, i, w).Ok?
    ensures BroadcastDep(e, Deps(e)[j], w).Ok?
    ensures BroadcastDep(e, Deps(e)[j], w) == Ok(false) ==>
              Divisions(Deps(e)[j], w).Ok? && Divisions(Deps(e)[j], w) == Divisions(Deps(e)[0], w)
    decreases j - i
  {
    if i < j {
      AgreePasses(e, i, w);
      AgreeAt(e, i + 1, j, w);
    }
  }

  /** A passing loop from `i` also passes from `i + 1`. */
  lemma AgreePasses(e: Expr, i: nat, w: World)
    requires i < |Deps(e)| && Agree(e, i, w).Ok?
    ensures Agree(e, i + 1, w).Ok?
  {
  }

  /** With every check defined, the assertion loop fails when some later non-broadcast dependency's divisions differ from the first one's. */
  lemma {:induction false} AgreeFails(e: Expr, i: nat, j: nat, w: World)
    requires i <= j < |Deps(e)| && Divisions(Deps(e)[0], w).Ok?
    requires forall k :: i <= k < |Deps(e)| ==> BroadcastDep(e, Deps(e)[k], w).Ok? && Divisions(Deps(e)[k], w).Ok?
    requires BroadcastDep(e, Deps(e)[j], w) == Ok(false)
    requires Divisions(Deps(e)[j], w) != Divisions(Deps(e)[0], w)
    ensures Agree(e, i, w) == Err(AssertionError)
    decreases j - i
  {
    var deps := Deps(e);
    if i < j && !(BroadcastDep(e, deps[i], w) == Ok(false) && Divisions(deps[i], w) != Divisions(deps[0], w)) {
      AgreeFails(e, i + 1, j, w);
    }
  }

  /**
    Blockwise divisions are the first dependency's, and every dependency that
    is not broadcast has exactly those divisions; a node without dependencies
    has none.
   */
  lemma BlockwiseDivisionsAgree(e: Expr, w: World)
    requires InheritsDivisions(e.kind) && Divisions(e, w).Ok?
    ensures Deps(e) != [] && Divisions(e, w) == Divisions(Deps(e)[0], w)
    ensures forall d :: d in Deps(e) ==> BroadcastDep(e, d, w).Ok?
    ensures forall d :: d in Deps(e) && BroadcastDep(e, d, w) == Ok(false) ==> Divisions(d, w) == Divisions(e, w)
  {
    assert Divisions(e, w) == BlockwiseDivisions(e, w);
    AgreeSound(e, 0, w);
    forall d | d in Deps(e)
      ensures BroadcastDep(e, d, w).Ok?
      ensures BroadcastDep(e, d, w) == Ok(false) ==> Divisions(d, w) == Divisions(e, w)
    {
      var j :| 0 <= j < |Deps(e)| && Deps(e)[j] == d;
    }
  }

  /** A non-broadcast dependency with other divisions makes the divisions an assertion failure. */
  lemma BlockwiseDivisionsMismatch(e: Expr, w: World, j: nat)
    requires InheritsDivisions(e.kind) && j < |Deps(e)|
    requires forall k :: 0 <= k < |Deps(e)| ==> BroadcastDep(e, Deps(e)[k], w).Ok? && Divisions(Deps(e)[k], w).Ok?
    requires BroadcastDep(e, Deps(e)[j], w) == Ok(false)
    requires Divisions(Deps(e)[j], w) != Divisions(Deps(e)[0], w)
    ensures Divisions(e, w) == Err(AssertionError)
  {
    AgreeFails(e, 0, j, w);
    assert Divisions(e, w) == BlockwiseDivisions(e, w);
  }

  /** Projection and ProjectIndex keep their frame's divisions. */
  lemma ProjectionDivisions(e: Expr, frame: Expr, w: World)
    requires e.kind == Projection || e.kind == ProjectIndex
    requires |e.operands| > 0 && e.operands[0] == Node(frame)
    ensures Divisions(e, w) == Divisions(frame, w)
  {
  }

  /**
    Head keeps the first two of its frame's divisions, so over a frame with
    at least two divisions it has exactly one partition.
   */
  lemma HeadDivisions(e: Expr, frame: Expr, w: World)
    requires e.kind == Head && |e.operands| > 0 && e.operands[0] == Node(frame)
    requires Divisions(frame, w).Ok?
    ensures Divisions(e, w) == Ok(Slice(Divisions(frame, w).value, 0, 2))
    ensures |Divisions(frame, w).value| >= 2 ==> NPartitions(e, w) == Ok(1) && Keys(e, w) == Ok([Key(NameOf(e), 0)])
  {
    var d := Divisions(frame, w).value;
    if |d| >= 2 {
      assert |Slice(d, 0, 2)| == 2;
      assert Divisions(e, w) == Ok(Slice(d, 0, 2));
      assert NPartitions(e, w) == Ok(1);
      assert Keys(e, w).value == [Key(NameOf(e), 0)];
    }
  }

  /** The node operands of a list of node operands are those nodes. */
  lemma {:induction false} NodesOfNodes(ds: seq<Expr>)
    ensures NodesOf(seq(|ds|, i requires 0 <= i < |ds| => Node(ds[i]))) == ds
  {
    if ds != [] {
      var ops := seq(|ds|, i requires 0 <= i < |ds| => Node(ds[i]));
      assert ops[1..] == seq(|ds| - 1, i requires 0 <= i < |ds| - 1 => Node(ds[1..][i]));
      NodesOfNodes(ds[1..]);
      assert ds == [ds[0]] + ds[1..];
    }
  }

  /** `Fused(group, *deps)` has the divisions of `group[0]` and exactly `deps` as dependencies. */
  lemma FusedDivisions(group: seq<Expr>, deps: seq<Expr>, w: World)
    requires group != []
    ensures var f := Expr(Fused, [Group(group)] + seq(|deps|, i requires 0 <= i < |deps| => Node(deps[i])));
            && Deps(f) == deps
            && Divisions(f, w) == Divisions(group[0], w)
  {
    var ops := seq(|deps|, i requires 0 <= i < |deps| => Node(deps[i]));
    var f := Expr(Fused, [Group(group)] + ops);
    assert f.operands[1..] == ops;
    NodesOfNodes(deps);
    FusedFirst(f, group, w);
  }

  /** A Fused node whose first operand is a non-empty group has the divisions of its first member. */
  lemma FusedFirst(f: Expr, group: seq<Expr>, w: World)
    requires f.kind == Fused && |f.operands| > 0 && f.operands[0] == Group(group) && group != []
    ensures Divisions(f, w) == Divisions(group[0], w)
  {
    assert Slot(f, 0) == Ok(Group(group));
  }

  /** A BlockwiseArg has one unknown division per lookup entry, plus one. */
  lemma BlockwiseArgDivisions(e: Expr, w: World)
    requires e.kind == BlockwiseArg && |e.operands| > 0 && e.operands[0].Lit?
    requires PyIter(e.operands[0].v).Ok?
    ensures Divisions(e, w).Ok? && |Divisions(e, w).value| == |PyIter(e.operands[0].v).value| + 1
    ensures KnownDivisions(e, w) == Ok(false)
    ensures NPartitions(e, w) == Ok(|PyIter(e.operands[0].v).value|)
  {
  }

  /** An unsorted in-memory read has unknown divisions. */
  lemma UnsortedDivisionsUnknown(e: Expr, w: World)
    requires e.kind == MatchFromPandas
    requires MatchIO.FrameOf(e).Ok? && |MatchIO.FrameOf(e).value.index| > 0
    requires SlotValue(e, MatchIO.SortSlot).Ok? && !Truthy(SlotValue(e, MatchIO.SortSlot).value)
    requires SlotValue(e, MatchIO.NPartitionsSlot).Ok? && SlotValue(e, MatchIO.NPartitionsSlot).value.VInt?
    requires SlotValue(e, MatchIO.NPartitionsSlot).value.i > 0
    ensures KnownDivisions(e, w) == Ok(false)
  {
    MatchIO.UnsortedTasks(e, w);
  }
}
