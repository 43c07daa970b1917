/**
  The dask_expr in-memory leaf `FromPandas` (operands frame, npartitions,
  sort, columns, _partitions, _series) and the column-absorbing behaviour
  it inherits from `BlockwiseIO`: projection absorption, combining similar
  reads, partition lengths and partition tasks.

  `PartitionsFiltered` is not part of this model. A read is taken to be
  filtered when its `_partitions` operand is not `None`, and a filtered read
  has one partition per entry of `_partitions`.
 */
module ExprIO {
  import opened Wrappers
  import opened Ir
  import opened Oracles
  import opened Util
  import opened MatchIO

  /** Reads whose `_absorb_projections` is set: only FromPandas among the modelled kinds. */
  predicate Absorbs(k: Kind) {
    k == FromPandas
  }

  // ---------------------------------------------------------------------
  // Columns, meta and selection
  // ---------------------------------------------------------------------

  /** Positions in `_parameters` of `columns`, `_partitions` and `_series`. */
  const ColumnsSlot: nat := 3
  const PartitionsSlot: nat := 4
  const SeriesSlot: nat := 5

  /** Looking up `columns`, `_partitions` and `_series` by name finds the operands in those slots. */
  lemma FromPandasSlots(e: Expr)
    requires e.kind == FromPandas
    ensures ValueOf(e, "columns") == SlotValue(e, ColumnsSlot)
    ensures ValueOf(e, "_partitions") == SlotValue(e, PartitionsSlot)
    ensures ValueOf(e, "_series") == SlotValue(e, SeriesSlot)
  {
    var ps := Params(FromPandas);
    assert ps[ColumnsSlot] == "columns" && ps[PartitionsSlot] == "_partitions" && ps[SeriesSlot] == "_series";
    OperandAtSlot(e, ColumnsSlot);
    OperandAtSlot(e, PartitionsSlot);
    OperandAtSlot(e, SeriesSlot);
  }

  /**
    `columns`: with no `columns` operand, the frame's columns (none for a
    Series or anything without columns); otherwise the operand as a list.
   */
  function Columns(e: Expr): (r: Result<seq<Value>>)
    requires e.kind == FromPandas
    ensures SlotValue(e, ColumnsSlot).Ok? && SlotValue(e, ColumnsSlot).value.VNone? && SlotValue(e, FrameSlot).Ok? ==>
              r == Ok(var f := SlotValue(e, FrameSlot).value;
                      if f.VFrame? && f.table.columns.Some? then f.table.columns.value else [])
    ensures SlotValue(e, ColumnsSlot).Ok? && !SlotValue(e, ColumnsSlot).value.VNone? ==>
              r == Ok(ConvertToList(SlotValue(e, ColumnsSlot).value).value)
    ensures r.Ok? ==> SlotValue(e, ColumnsSlot).Ok?
  {
    var c :- SlotValue(e, ColumnsSlot);
    if c.VNone? then
      var f :- SlotValue(e, FrameSlot);
      Ok(if f.VFrame? && f.table.columns.Some? then f.table.columns.value else [])
    else
      Ok(ConvertToList(c).value)
  }

  /** `t[cols]`: every label must be a column of a DataFrame. */
  function SelectColumns(t: Table, cols: seq<Value>): (r: Result<Table>)
    ensures r.Ok? <==> t.columns.Some? && forall c :: c in cols ==> c in t.columns.value
    ensures r.Ok? ==> r.value == Table(t.index, Some(cols))
    ensures r.Err? ==> r.error == KeyError
  {
    if t.columns.Some? && forall c :: c in cols ==> c in t.columns.value then Ok(Table(t.index, Some(cols)))
    else Err(KeyError)
  }

  /** `t[label]`: one column of a DataFrame, as a Series. */
  function SelectColumn(t: Table, col: Value): (r: Result<Table>)
    ensures r.Ok? <==> t.columns.Some? && col in t.columns.value
    ensures r.Ok? ==> r.value == Table(t.index, None)
    ensures r.Err? ==> r.error == KeyError
  {
    if t.columns.Some? && col in t.columns.value then Ok(Table(t.index, None)) else Err(KeyError)
  }

  /** `_meta`: the empty frame, narrowed to the `columns` operand (one Series when `_series`). */
  function MetaOf(e: Expr): (r: Result<Table>)
    requires e.kind == FromPandas
    ensures r.Ok? ==> FrameOf(e).Ok? && r.value.index == []
    ensures r.Ok? && SlotValue(e, ColumnsSlot) == Ok(VNone) ==> r.value.columns == FrameOf(e).value.columns
  {
    var frame :- FrameOf(e);
    var empty := Table([], frame.columns);
    var c :- SlotValue(e, ColumnsSlot);
    if c.VNone? then Ok(empty)
    else
      var cols := ConvertToList(c).value;
      var series :- SlotValue(e, SeriesSlot);
      if Truthy(series) then
        if |cols| == 0 then Err(IndexError) else SelectColumn(empty, cols[0])
      else SelectColumns(empty, cols)
  }

  /** `is_dataframe_like(self._meta)`. */
  function MetaIsFrame(e: Expr): Result<bool>
    requires e.kind == FromPandas
  {
    var meta :- MetaOf(e);
    Ok(meta.columns.Some?)
  }

  // ---------------------------------------------------------------------
  // Projection absorption (`BlockwiseIO._simplify_up`)
  // ---------------------------------------------------------------------

  predicate AllHashable(xs: seq<Value>) {
    forall i :: 0 <= i < |xs| ==> Hashable(xs[i])
  }

  function SetOf(xs: seq<Value>): set<Value> {
    set i | 0 <= i < |xs| :: xs[i]
  }

  /** Whether a projection by `pc` turns a read that is not yet a Series into one. */
  predicate MakesSeries(pc: Value, series: Value) {
    IsStrOrInt(pc) && !Truthy(series)
  }

  /** The operands a projection by `pc` substitutes into the read. */
  function ProjectionSubs(proposed: seq<Value>, makeSeries: bool): map<string, Value> {
    if makeSeries then map["columns" := VList(proposed), "_series" := VBool(true)]
    else map["columns" := VList(proposed)]
  }

  /**
    `BlockwiseIO._simplify_up`: a Projection over an absorbing read whose meta
    is a DataFrame becomes the read with the projected `columns` (and
    `_series` set when a single label turns it into a Series), unless it
    already reads exactly those columns.
   */
  function AbsorbProjection(e: Expr, parent: Expr): (r: Result<Option<Expr>>)
    ensures !Absorbs(e.kind) || parent.kind != Projection ==> r == Ok(None)
    ensures r.Ok? && r.value.Some? ==>
              && ValueOf(parent, "columns").Ok?
              && ConvertToList(ValueOf(parent, "columns").value).Some?
              && SlotValue(e, SeriesSlot).Ok? && Columns(e).Ok?
              && var pc := ValueOf(parent, "columns").value;
                 var proposed := ConvertToList(pc).value;
                 var makeSeries := MakesSeries(pc, SlotValue(e, SeriesSlot).value);
                 && (SetOf(proposed) != SetOf(Columns(e).value) || makeSeries)
                 && r.value.value == SubstituteParameters(e, ProjectionSubs(proposed, makeSeries))
    ensures Absorbs(e.kind) && parent.kind == Projection && MetaIsFrame(e) == Ok(true) &&
            ValueOf(parent, "columns").Ok? && ConvertToList(ValueOf(parent, "columns").value).Some? &&
            AllHashable(ConvertToList(ValueOf(parent, "columns").value).value) &&
            SlotValue(e, SeriesSlot).Ok? && Columns(e).Ok? && AllHashable(Columns(e).value) ==>
              (r == Ok(None) <==>
                 && SetOf(ConvertToList(ValueOf(parent, "columns").value).value) == SetOf(Columns(e).value)
                 && !MakesSeries(ValueOf(parent, "columns").value, SlotValue(e, SeriesSlot).value))
  {
    if !(Absorbs(e.kind) && parent.kind == Projection) then Ok(None)
    else
      var current :- Columns(e);
      var isFrame :- MetaIsFrame(e);
      if !isFrame then Ok(None)
      else
        var pc :- ValueOf(parent, "columns");
        var proposedOpt := ConvertToList(pc);
        if proposedOpt.None? then Err(TypeError)
        else
          var proposed := proposedOpt.value;
          var series :- SlotValue(e, SeriesSlot);
          var makeSeries := MakesSeries(pc, series);
          if !AllHashable(proposed) then Err(TypeError)
          else
            if !AllHashable(current) then Err(TypeError)
            else if SetOf(proposed) == SetOf(current) && !makeSeries then Ok(None)
            else Ok(Some(SubstituteParameters(e, ProjectionSubs(proposed, makeSeries))))
  }

  /**
    An absorbed projection changes only `columns` (to the projected list) and,
    for a single label on a read that was not a Series, `_series` (to true).
   */
  lemma AbsorbProjectionOperands(e: Expr, parent: Expr)
    requires AbsorbProjection(e, parent).Ok? && AbsorbProjection(e, parent).value.Some?
    ensures var n := AbsorbProjection(e, parent).value.value;
            var pc := ValueOf(parent, "columns").value;
            var ms := MakesSeries(pc, SlotValue(e, SeriesSlot).value);
            && n.kind == e.kind == FromPandas
            && Slot(n, ColumnsSlot) == Ok(Lit(VList(ConvertToList(pc).value)))
            && (ms ==> Slot(n, SeriesSlot) == Ok(Lit(VBool(true))))
            && (!ms ==> Slot(n, SeriesSlot) == Slot(e, SeriesSlot))
            && forall i :: 0 <= i < |e.operands| && i != ColumnsSlot && i != SeriesSlot ==>
                 n.operands[i] == e.operands[i]
  {
    var pc := ValueOf(parent, "columns").value;
    var ms := MakesSeries(pc, SlotValue(e, SeriesSlot).value);
    ProjectionSubsSlots(e, ConvertToList(pc).value, ms);
  }

  /** Substituting a projection's operands into a FromPandas touches the `columns` and `_series` slots only. */
  lemma ProjectionSubsSlots(e: Expr, proposed: seq<Value>, ms: bool)
    requires e.kind == FromPandas && SeriesSlot < |e.operands|
    ensures var n := SubstituteParameters(e, ProjectionSubs(proposed, ms));
            && n.kind == FromPandas && |n.operands| == |e.operands|
            && n.operands[ColumnsSlot] == Lit(VList(proposed))
            && n.operands[SeriesSlot] == (if ms then Lit(VBool(true)) else e.operands[SeriesSlot])
            && forall i :: 0 <= i < |e.operands| && i != ColumnsSlot && i != SeriesSlot ==>
                 n.operands[i] == e.operands[i]
  {
    ProjectionSubsTouched(e, proposed, ms);
    ProjectionSubsKeep(e, proposed, ms);
  }

  /** The `columns` slot takes the proposed labels and `_series` is set exactly when asked. */
  lemma ProjectionSubsTouched(e: Expr, proposed: seq<Value>, ms: bool)
    requires e.kind == FromPandas && SeriesSlot < |e.operands|
    ensures var n := SubstituteParameters(e, ProjectionSubs(proposed, ms));
            && n.operands[ColumnsSlot] == Lit(VList(proposed))
            && n.operands[SeriesSlot] == (if ms then Lit(VBool(true)) else e.operands[SeriesSlot])
  {
    var ps := Params(FromPandas);
    assert ps[ColumnsSlot] == "columns" && ps[SeriesSlot] == "_series";
  }

  /** Every other slot is untouched. */
  lemma ProjectionSubsKeep(e: Expr, proposed: seq<Value>, ms: bool)
    requires e.kind == FromPandas
    ensures var n := SubstituteParameters(e, ProjectionSubs(proposed, ms));
            forall i :: 0 <= i < |e.operands| && i != ColumnsSlot && i != SeriesSlot ==> n.operands[i] == e.operands[i]
  {
    var subs := ProjectionSubs(proposed, ms);
    var ps := Params(FromPandas);
    assert ps == ["frame", "npartitions", "sort", "columns", "_partitions", "_series"];
    assert subs.Keys <= {"columns", "_series"};
  }

  // ---------------------------------------------------------------------
  // Partition lengths, Len and Lengths (`_get_lengths`, `_simplify_up`)
  // ---------------------------------------------------------------------

  /** The lengths `locs[i + 1] - locs[i]` for the partitions from `i` on that `selected` keeps (all when `None`). */
  function KeptLengths(locs: seq<int>, selected: Option<seq<Value>>, i: nat): (r: seq<int>)
    ensures selected.None? ==> |r| == (if i + 1 < |locs| then |locs| - 1 - i else 0)
    ensures selected.None? ==> forall j :: 0 <= j < |r| ==> r[j] == locs[i + j + 1] - locs[i + j]
    decreases |locs| - i
  {
    if i + 1 >= |locs| then []
    else
      (if selected.None? || VInt(i) in selected.value then [locs[i + 1] - locs[i]] else [])
      + KeptLengths(locs, selected, i + 1)
  }

  /** The partition indices from `i` below `n` that `selected` lists, in increasing order. */
  function SelectedIndices(n: int, selected: seq<Value>, i: nat): (r: seq<nat>)
    ensures forall k :: 0 <= k < |r| ==> i <= r[k] < n && VInt(r[k]) in selected
    ensures forall k :: 0 < k < |r| ==> r[k - 1] < r[k]
    decreases n - i
  {
    if i >= n then []
    else
      var rest := SelectedIndices(n, selected, i + 1);
      if VInt(i) in selected then [i] + rest else rest
  }

  /** Every selected partition from `i` below `n` is listed. */
  lemma {:induction false} SelectedIndicesComplete(n: int, selected: seq<Value>, i: nat, j: nat)
    requires i <= j < n && VInt(j) in selected
    ensures j in SelectedIndices(n, selected, i)
    decreases n - i
  {
    if i < j {
      SelectedIndicesComplete(n, selected, i + 1, j);
    }
  }

  /** The lengths `locs[j + 1] - locs[j]` of the partitions `j` in `idx`, in that order. */
  function Gaps(locs: seq<int>, idx: seq<nat>): (r: seq<int>)
    requires forall k :: 0 <= k < |idx| ==> idx[k] + 1 < |locs|
    ensures |r| == |idx|
  {
    seq(|idx|, k requires 0 <= k < |idx| => locs[idx[k] + 1] - locs[idx[k]])
  }

  /**
    Filtered, the lengths are those of exactly the selected partitions, in
    partition order (`i in self._partitions`).
   */
  lemma {:induction false} KeptLengthsSelected(locs: seq<int>, selected: seq<Value>, i: nat)
    ensures KeptLengths(locs, Some(selected), i) == Gaps(locs, SelectedIndices(|locs| - 1, selected, i))
    decreases |locs| - i
  {
    if i + 1 < |locs| {
      KeptLengthsSelected(locs, selected, i + 1);
      var rest := SelectedIndices(|locs| - 1, selected, i + 1);
      if VInt(i) in selected {
        var idx := [i] + rest;
        assert Gaps(locs, idx) == [locs[i + 1] - locs[i]] + Gaps(locs, rest);
      }
    }
  }

  /** The `_partitions` selection: `None` when the read is not filtered. */
  function Selection(e: Expr): Result<Option<seq<Value>>>
    requires e.kind == FromPandas
  {
    var parts :- SlotValue(e, PartitionsSlot);
    if parts.VNone? then Ok(None)
    else
      var items :- PyIter(parts);
      Ok(Some(items))
  }

  /** The lengths `_get_lengths` computes: differences of consecutive locations, for the selected partitions. */
  function PartitionLengths(e: Expr, w: World): Result<seq<int>>
    requires e.kind == FromPandas
  {
    var dl :- DivisionsAndLocationsOf(e, w);
    var selected :- Selection(e);
    Ok(KeptLengths(dl.locations, selected, 0))
  }

  function Sum(xs: seq<int>): int {
    if xs == [] then 0 else Sum(xs[..|xs| - 1]) + xs[|xs| - 1]
  }

  /** The unfiltered lengths telescope: they add up to the last location minus the `i`-th. */
  lemma {:induction false} KeptLengthsSum(locs: seq<int>, i: nat)
    requires i < |locs|
    ensures Sum(KeptLengths(locs, None, i)) == locs[|locs| - 1] - locs[i]
    decreases |locs| - i
  {
    if i + 1 < |locs| {
      KeptLengthsSum(locs, i + 1);
      var rest := KeptLengths(locs, None, i + 1);
      SumPrepend(locs[i + 1] - locs[i], rest);
    }
  }

  lemma {:induction false} SumPrepend(x: int, xs: seq<int>)
    ensures Sum([x] + xs) == x + Sum(xs)
    decreases |xs|
  {
    if xs != [] {
      var ys := [x] + xs;
      assert ys[..|ys| - 1] == [x] + xs[..|xs| - 1];
      SumPrepend(x, xs[..|xs| - 1]);
    }
  }

  /** A memo of `_get_lengths` on one read (`_pd_length_stats`). */
  class LengthCache {
    const expr: Expr
    const world: World
    var stats: Option<seq<int>>

    ghost predicate Valid()
      reads this
    {
      && expr.kind == FromPandas
      && (stats.Some? ==> PartitionLengths(expr, world) == Ok(stats.value))
    }

    constructor (e: Expr, w: World)
      requires e.kind == FromPandas
      ensures expr == e && world == w && stats == None
      ensures Valid()
    {
      expr := e;
      world := w;
      stats := None;
    }

    /** `_get_lengths`: compute once, then answer from the memo. */
    method GetLengths() returns (r: Result<seq<int>>)
      requires Valid()
      modifies this
      ensures Valid()
      ensures r == PartitionLengths(expr, world)
      ensures r.Ok? ==> stats == Some(r.value)
      ensures old(stats).Some? ==> stats == old(stats)
      ensures r.Err? ==> stats == old(stats)
    {
      if stats.None? {
        r := PartitionLengths(expr, world);
        if r.Ok? {
          stats := Some(r.value);
        }
      } else {
        r := Ok(stats.value);
      }
    }
  }

  /** A `Literal` node holding a value. */
  function Literal(v: Value): Expr {
    Expr(Kind.Literal, [Lit(v)])
  }

  function Ints(xs: seq<int>): seq<Value> {
    seq(|xs|, i requires 0 <= i < |xs| => VInt(xs[i]))
  }

  /**
    `FromPandas._simplify_up`: `Lengths` of the read becomes the literal tuple
    of its partition lengths and `Len` their sum, when there is at least one
    partition; a Projection is absorbed; any other parent is left alone.
   */
  function SimplifyUp(e: Expr, parent: Expr, w: World): (r: Result<Option<Expr>>)
    requires e.kind == FromPandas
    ensures parent.kind == Lengths && PartitionLengths(e, w).Ok? && |PartitionLengths(e, w).value| > 0 ==>
              r == Ok(Some(Literal(VTuple(Ints(PartitionLengths(e, w).value)))))
    ensures parent.kind == Len && PartitionLengths(e, w).Ok? && |PartitionLengths(e, w).value| > 0 ==>
              r == Ok(Some(Literal(VInt(Sum(PartitionLengths(e, w).value)))))
    ensures parent.kind in {Lengths, Len} && PartitionLengths(e, w) == Ok([]) ==> r == Ok(None)
    ensures parent.kind == Projection ==> r == AbsorbProjection(e, parent)
    ensures parent.kind !in {Lengths, Len, Projection} ==> r == Ok(None)
  {
    if parent.kind == Lengths then
      var lengths :- PartitionLengths(e, w);
      if |lengths| > 0 then Ok(Some(Literal(VTuple(Ints(lengths))))) else Ok(None)
    else if parent.kind == Len then
      var lengths :- PartitionLengths(e, w);
      if |lengths| > 0 then Ok(Some(Literal(VInt(Sum(lengths))))) else Ok(None)
    else if parent.kind == Projection then AbsorbProjection(e, parent)
    else Ok(None)
  }

  /**
    `Len` of a filtered read simplifies to the total length of exactly the
    selected partitions, when any is selected.
   */
  lemma FilteredLen(e: Expr, parent: Expr, w: World, selected: seq<Value>)
    requires e.kind == FromPandas && parent.kind == Len
    requires Selection(e) == Ok(Some(selected)) && DivisionsAndLocationsOf(e, w).Ok?
    requires var locs := DivisionsAndLocationsOf(e, w).value.locations; SelectedIndices(|locs| - 1, selected, 0) != []
    ensures var locs := DivisionsAndLocationsOf(e, w).value.locations;
            SimplifyUp(e, parent, w) == Ok(Some(Literal(VInt(Sum(Gaps(locs, SelectedIndices(|locs| - 1, selected, 0)))))))
  {
    var locs := DivisionsAndLocationsOf(e, w).value.locations;
    KeptLengthsSelected(locs, selected, 0);
    assert PartitionLengths(e, w) == Ok(Gaps(locs, SelectedIndices(|locs| - 1, selected, 0)));
  }

  /**
    `Len` of an unfiltered, unsorted read of a non-empty frame simplifies to
    the frame's row count.
   */
  lemma LenIsRowCount(e: Expr, parent: Expr, w: World)
    requires e.kind == FromPandas && parent.kind == Len
    requires FrameOf(e).Ok? && |FrameOf(e).value.index| > 0
    requires SlotValue(e, SortSlot).Ok? && !Truthy(SlotValue(e, SortSlot).value)
    requires SlotValue(e, NPartitionsSlot).Ok? && SlotValue(e, NPartitionsSlot).value.VInt? && SlotValue(e, NPartitionsSlot).value.i > 0
    requires SlotValue(e, PartitionsSlot) == Ok(VNone)
    ensures SimplifyUp(e, parent, w) == Ok(Some(Literal(VInt(|FrameOf(e).value.index|))))
  {
    var frame := FrameOf(e).value;
    var locs := UnfilteredLocations(e, w);
    var lengths := KeptLengths(locs, None, 0);
    KeptLengthsSum(locs, 0);
    assert |lengths| == |locs| - 1 > 0;
    assert Sum(lengths) == |frame.index|;
    assert SimplifyUp(e, parent, w) == Ok(Some(Literal(VInt(Sum(lengths)))));
  }

  /** An unfiltered, unsorted read of a non-empty frame cuts it into chunks, and its lengths are those of the chunks. */
  lemma UnfilteredLocations(e: Expr, w: World) returns (locs: seq<int>)
    requires e.kind == FromPandas
    requires FrameOf(e).Ok? && |FrameOf(e).value.index| > 0
    requires SlotValue(e, SortSlot).Ok? && !Truthy(SlotValue(e, SortSlot).value)
    requires SlotValue(e, NPartitionsSlot).Ok? && SlotValue(e, NPartitionsSlot).value.VInt? && SlotValue(e, NPartitionsSlot).value.i > 0
    requires SlotValue(e, PartitionsSlot) == Ok(VNone)
    ensures Cuts(locs, |FrameOf(e).value.index|) && |locs| >= 2
    ensures PartitionLengths(e, w) == Ok(KeptLengths(locs, None, 0))
  {
    var frame := FrameOf(e).value;
    var nv := SlotValue(e, NPartitionsSlot).value;
    var chunk := ChunkSize(|frame.index|, nv.i);
    UnsortedChunking(|frame.index|, nv.i);
    locs := RangeFrom(0, |frame.index|, chunk) + [|frame.index|];
    var dl := DivisionsAndLocations(frame, nv, SlotValue(e, SortSlot).value, w);
    assert dl.Ok? && dl.value.locations == locs;
    assert DivisionsAndLocationsOf(e, w) == dl;
    assert Selection(e) == Ok(None);
  }

  // ---------------------------------------------------------------------
  // npartitions and partition tasks
  // ---------------------------------------------------------------------

  /** `npartitions`: the number of selected partitions when filtered, else `len(divisions) - 1`. */
  function NPartitions(e: Expr, w: World): (r: Result<int>)
    requires e.kind == FromPandas
    ensures Selection(e) == Ok(None) && DivisionsAndLocationsOf(e, w).Ok? ==>
              r == Ok(|DivisionsAndLocationsOf(e, w).value.divisions| - 1)
    ensures Selection(e).Ok? && Selection(e).value.Some? ==> r == Ok(|Selection(e).value.value|)
  {
    var selected :- Selection(e);
    if selected.Some? then Ok(|selected.value|)
    else
      var dl :- DivisionsAndLocationsOf(e, w);
      Ok(|dl.divisions| - 1)
  }

  /** Unfiltered, there is one partition length per partition. */
  lemma NPartitionsCountsLengths(e: Expr, w: World)
    requires e.kind == FromPandas
    requires Selection(e) == Ok(None) && DivisionsAndLocationsOf(e, w).Ok?
    requires |DivisionsAndLocationsOf(e, w).value.divisions| == |DivisionsAndLocationsOf(e, w).value.locations| >= 1
    ensures NPartitions(e, w).Ok? && PartitionLengths(e, w).Ok?
    ensures NPartitions(e, w).value == |PartitionLengths(e, w).value|
  {
  }

  /**
    `_filtered_task(index)`: rows `[locations[index], locations[index + 1])`
    of the data the locations were computed on (sorted when `sort`), narrowed
    to `columns` when that is non-empty.
   */
  function FilteredTask(e: Expr, w: World, index: int): (r: Result<Table>)
    requires e.kind == FromPandas
    ensures r.Ok? ==> DivisionsAndLocationsOf(e, w).Ok? && FrameOf(e).Ok? && SlotValue(e, SortSlot).Ok?
    ensures r.Ok? ==>
              var locs := DivisionsAndLocationsOf(e, w).value.locations;
              var data := if Truthy(SlotValue(e, SortSlot).value) then SortedData(FrameOf(e).value) else FrameOf(e).value;
              0 <= index && index + 2 <= |locs| && 0 <= locs[index] <= locs[index + 1] <= |data.index| ==>
                r.value.index == data.index[locs[index]..locs[index + 1]]
    ensures DivisionsAndLocationsOf(e, w).Ok? && FrameOf(e).Ok? && SlotValue(e, SortSlot).Ok? ==>
              var locs := DivisionsAndLocationsOf(e, w).value.locations;
              var data := if Truthy(SlotValue(e, SortSlot).value) then SortedData(FrameOf(e).value) else FrameOf(e).value;
              0 <= index && index + 2 <= |locs| && 0 <= locs[index] <= locs[index + 1] <= |data.index| ==>
                r == Narrowed(e, Table(data.index[locs[index]..locs[index + 1]], data.columns))
  {
    var frame :- FrameOf(e);
    var npartitions :- SlotValue(e, NPartitionsSlot);
    var sort :- SlotValue(e, SortSlot);
    var dl :- DivisionsAndLocations(frame, npartitions, sort, w);
    assert DivisionsAndLocationsOf(e, w) == Ok(dl);
    var bounds := Slice(dl.locations, index, index + 2);
    if |bounds| != 2 then Err(ValueError)
    else
      var data := if Truthy(sort) then SortedData(frame) else frame;
      Narrowed(e, Table(Slice(data.index, bounds[0], bounds[1]), data.columns))
  }

  /** A partition narrowed to the read's `columns` when that is non-empty: a Series when `_series` is set. */
  function Narrowed(e: Expr, part: Table): (r: Result<Table>)
    requires e.kind == FromPandas
    ensures r.Ok? ==> r.value.index == part.index && Columns(e).Ok?
    ensures Columns(e) == Ok([]) ==> r == Ok(part)
    ensures Columns(e).Ok? && Columns(e).value != [] && SlotValue(e, SeriesSlot).Ok? ==>
              var cols := Columns(e).value;
              && (Truthy(SlotValue(e, SeriesSlot).value) ==> r == SelectColumn(part, cols[0]))
              && (!Truthy(SlotValue(e, SeriesSlot).value) ==> r == SelectColumns(part, cols))
  {
    var cols :- Columns(e);
    if |cols| > 0 then
      var series :- SlotValue(e, SeriesSlot);
      if Truthy(series) then SelectColumn(part, cols[0]) else SelectColumns(part, cols)
    else Ok(part)
  }

  lemma SortedDataLength(t: Table)
    ensures |SortedData(t).index| == |t.index|
  {
    assert |multiset(SortedData(t).index)| == |multiset(t.index)|;
  }

  /**
    When the locations cut the rows, the partitions of a read, in order, hold
    every row of the data its divisions describe (the sorted frame when
    `sort`) exactly once.
   */
  lemma FilteredTasksReassemble(e: Expr, w: World)
    requires e.kind == FromPandas
    requires DivisionsAndLocationsOf(e, w).Ok? && FrameOf(e).Ok? && SlotValue(e, SortSlot).Ok?
    requires Cuts(DivisionsAndLocationsOf(e, w).value.locations, |FrameOf(e).value.index|)
    ensures var locs := DivisionsAndLocationsOf(e, w).value.locations;
            var data := if Truthy(SlotValue(e, SortSlot).value) then SortedData(FrameOf(e).value) else FrameOf(e).value;
            && |data.index| == |FrameOf(e).value.index|
            && Pieces(data.index, locs) == data.index
            && forall i :: 0 <= i < |locs| - 1 && FilteredTask(e, w, i).Ok? ==>
                 FilteredTask(e, w, i).value.index == data.index[locs[i]..locs[i + 1]]
  {
    var locs := DivisionsAndLocationsOf(e, w).value.locations;
    var frame := FrameOf(e).value;
    var data := if Truthy(SlotValue(e, SortSlot).value) then SortedData(frame) else frame;
    SortedDataLength(frame);
    PiecesReassemble(data.index, locs);
    Ascending(locs);
    forall i | 0 <= i < |locs| - 1 && FilteredTask(e, w, i).Ok?
      ensures FilteredTask(e, w, i).value.index == data.index[locs[i]..locs[i + 1]]
    {
      assert 0 <= locs[i] <= locs[i + 1] <= |data.index|;
    }
  }

  // ---------------------------------------------------------------------
  // Combining similar reads (`BlockwiseIO._combine_similar`)
  // ---------------------------------------------------------------------

  /** Python's `<` on two strings: code-point lexicographic order. */
  predicate StrLt(a: string, b: string) {
    if a == [] then b != []
    else if b == [] then false
    else a[0] < b[0] || (a[0] == b[0] && StrLt(a[1..], b[1..]))
  }

  lemma {:induction false} StrLtTotal(a: string, b: string)
    ensures a == b || StrLt(a, b) || StrLt(b, a)
    decreases |a|
  {
    if a != [] && b != [] && a[0] == b[0] {
      StrLtTotal(a[1..], b[1..]);
      if a[1..] == b[1..] {
        assert a == [a[0]] + a[1..] && b == [b[0]] + b[1..];
      }
    }
  }

  /** Column labels `sorted` can order: all numbers, or all strings. */
  predicate Comparable(xs: seq<Value>) {
    (forall v :: v in xs ==> IsNumber(v)) || (forall v :: v in xs ==> v.VStr?)
  }

  /** The order `sorted` puts labels in (a bool before the int it equals, which a set never holds together). */
  predicate LabelLt(a: Value, b: Value) {
    if IsNumber(a) && IsNumber(b) then NumberOf(a) < NumberOf(b) || (NumberOf(a) == NumberOf(b) && a.VBool? && b.VInt?)
    else if a.VStr? && b.VStr? then StrLt(a.s, b.s)
    else false
  }

  lemma LabelLtTotal(a: Value, b: Value)
    requires (IsNumber(a) && IsNumber(b)) || (a.VStr? && b.VStr?)
    ensures a == b || LabelLt(a, b) || LabelLt(b, a)
  {
    if a.VStr? && b.VStr? {
      StrLtTotal(a.s, b.s);
    }
  }

  predicate Ascend(xs: seq<Value>) {
    forall i :: 0 <= i < |xs| - 1 ==> LabelLt(xs[i], xs[i + 1])
  }

  function InsertLabel(x: Value, s: seq<Value>): (r: seq<Value>)
    requires Ascend(s) && Comparable([x] + s)
    ensures Ascend(r) && SetOf(r) == SetOf(s) + {x}
    ensures |r| > 0 && |s| > 0 ==> r[0] == x || r[0] == s[0]
    ensures |r| > 0 && |s| == 0 ==> r[0] == x
    ensures forall v :: v in r ==> v == x || v in s
  {
    if x in s then
      assert x in SetOf(s) by { var i :| 0 <= i < |s| && s[i] == x; }
      s
    else if s == [] then [x]
    else
      assert x != s[0] && ([x] + s)[1] == s[0];
      LabelLtTotal(x, s[0]);
      if LabelLt(x, s[0]) then
        assert SetOf([x] + s) == SetOf(s) + {x} by { SetOfConcat([x], s); }
        [x] + s
      else
        assert forall v :: v in [x] + s[1..] ==> v in [x] + s;
        var t := InsertLabel(x, s[1..]);
        assert s == [s[0]] + s[1..];
        SetOfConcat([s[0]], s[1..]);
        SetOfConcat([s[0]], t);
        assert forall v :: v in t ==> v == x || v in s by {
          forall v | v in t ensures v == x || v in s {
            if v != x { assert v in s[1..]; }
          }
        }
        [s[0]] + t
  }

  lemma InSetOf(v: Value, xs: seq<Value>)
    ensures v in SetOf(xs) <==> v in xs
  {
    if v in xs {
      var i :| 0 <= i < |xs| && xs[i] == v;
    }
  }

  lemma SetOfConcat(a: seq<Value>, b: seq<Value>)
    ensures SetOf(a + b) == SetOf(a) + SetOf(b)
  {
    forall v | v in SetOf(a + b) ensures v in SetOf(a) + SetOf(b) {
      var i :| 0 <= i < |a + b| && (a + b)[i] == v;
      if i >= |a| { assert b[i - |a|] == v; }
    }
    forall v | v in SetOf(a) + SetOf(b) ensures v in SetOf(a + b) {
      if v in SetOf(a) {
        var i :| 0 <= i < |a| && a[i] == v;
        assert (a + b)[i] == v;
      } else {
        var i :| 0 <= i < |b| && b[i] == v;
        assert (a + b)[|a| + i] == v;
      }
    }
  }

  /** `sorted(labels)`: the distinct labels in ascending order; mixing numbers and strings is a TypeError. */
  function SortLabels(xs: seq<Value>): (r: Result<seq<Value>>)
    ensures r.Ok? <==> Comparable(xs)
    ensures r.Err? ==> r.error == TypeError
    ensures r.Ok? ==> Ascend(r.value) && SetOf(r.value) == SetOf(xs)
  {
    if !Comparable(xs) then Err(TypeError) else Ok(Sorted(xs))
  }

  function Sorted(xs: seq<Value>): (r: seq<Value>)
    requires Comparable(xs)
    ensures Ascend(r) && SetOf(r) == SetOf(xs) && Comparable(r)
  {
    if xs == [] then []
    else
      ComparableWithin(xs[1..], xs);
      var t := Sorted(xs[1..]);
      SortedCons(xs, t);
      var r := InsertLabel(xs[0], t);
      ComparableWithin(r, [xs[0]] + t);
      r
  }

  /** Every member of a sub-collection of comparable labels is comparable. */
  lemma ComparableWithin(a: seq<Value>, b: seq<Value>)
    requires Comparable(b) && forall v :: v in a ==> v in b
    ensures Comparable(a)
  {
  }

  /** Putting back the first label of `xs` in front of the sorted rest gives the labels of `xs`. */
  lemma SortedCons(xs: seq<Value>, t: seq<Value>)
    requires xs != [] && Comparable(xs) && SetOf(t) == SetOf(xs[1..])
    ensures forall v :: v in [xs[0]] + t ==> v in xs
    ensures Comparable([xs[0]] + t)
    ensures SetOf(t) + {xs[0]} == SetOf(xs)
  {
    forall v | v in [xs[0]] + t
      ensures v in xs
    {
      if v != xs[0] {
        assert v in SetOf(t);
        InSetOf(v, xs[1..]);
      }
    }
    assert xs == [xs[0]] + xs[1..];
    SetOfConcat([xs[0]], xs[1..]);
    assert SetOf([xs[0]]) == {xs[0]};
  }

  /** The columns operand of a read, or its `columns` when the operand is `None`. */
  function ColumnsOperand(op: Expr): (r: Result<Value>)
    requires op.kind == FromPandas
    ensures SlotValue(op, ColumnsSlot).Ok? && !SlotValue(op, ColumnsSlot).value.VNone? ==> r == SlotValue(op, ColumnsSlot)
  {
    var c :- SlotValue(op, ColumnsSlot);
    if c.VNone? then
      var cols :- Columns(op);
      Ok(VList(cols))
    else Ok(c)
  }

  /** `set(columns_operand)`: the labels of a read's columns, which must be hashable. */
  function LabelsOf(op: Expr): (r: Result<seq<Value>>)
    requires op.kind == FromPandas
    ensures r.Ok? ==> AllHashable(r.value)
  {
    var c :- ColumnsOperand(op);
    var items :- PyIter(c);
    if AllHashable(items) then Ok(items) else Err(TypeError)
  }

  /** The labels of `base` followed by those of each read in `ops`, in order. */
  function Accumulate(base: seq<Value>, ops: seq<Expr>): (r: Result<seq<Value>>)
    requires forall i :: 0 <= i < |ops| ==> ops[i].kind == FromPandas
    ensures r.Ok? ==> SetOf(base) <= SetOf(r.value)
    ensures r.Ok? ==> forall i :: 0 <= i < |ops| ==> LabelsOf(ops[i]).Ok? && SetOf(LabelsOf(ops[i]).value) <= SetOf(r.value)
  {
    if ops == [] then Ok(base)
    else
      var prev :- Accumulate(base, ops[..|ops| - 1]);
      var labels :- LabelsOf(ops[|ops| - 1]);
      SetOfConcat(prev, labels);
      assert forall i :: 0 <= i < |ops| - 1 ==> ops[i] == ops[..|ops| - 1][i];
      Ok(prev + labels)
  }

  /** Index a columns operand the way `columns_operand[0]` does. */
  function FirstLabel(v: Value): Result<Value> {
    var items :- PyIter(v);
    if |items| == 0 then Err(IndexError) else Ok(items[0])
  }

  /** `op[columns_operand[0]]` for a Series read, `op[columns_operand]` otherwise. */
  function Reproject(op: Expr, columnsOperand: Value, series: bool): Result<Expr> {
    if series then
      var first :- FirstLabel(columnsOperand);
      Ok(GetItem(op, Lit(first)))
    else Ok(GetItem(op, Lit(columnsOperand)))
  }

  /** Whether a read already reads exactly `columns`, as a DataFrame. */
  function ReadsExactly(op: Expr, columns: seq<Value>): Result<bool>
    requires op.kind == FromPandas
  {
    var cols :- Columns(op);
    var series :- SlotValue(op, SeriesSlot);
    Ok(cols == columns && !Truthy(series))
  }

  /** The sorted union of the labels of a read and of every similar read. */
  function Union(e: Expr, alike: seq<Expr>): Result<seq<Value>>
    requires e.kind == FromPandas
    requires forall i :: 0 <= i < |alike| ==> alike[i].kind == FromPandas
  {
    var base :- LabelsOf(e);
    var acc :- Accumulate(base, alike);
    SortLabels(acc)
  }

  /** A read widened to `union`; a Series read becomes a DataFrame read. */
  function Widened(e: Expr, union: seq<Value>, series: bool): Expr {
    SubstituteParameters(e, if series then map["columns" := VList(union), "_series" := VBool(false)]
                            else map["columns" := VList(union)])
  }

  /** `out` re-projects a read of `[e] + alike` that already reads exactly `union`. */
  ghost predicate Reuses(e: Expr, alike: seq<Expr>, union: seq<Value>, columnsOperand: Value, series: bool, out: Expr)
    requires e.kind == FromPandas && forall i :: 0 <= i < |alike| ==> alike[i].kind == FromPandas
  {
    exists k :: 0 <= k <= |alike| &&
      ReadsExactly(([e] + alike)[k], union) == Ok(true) && Reproject(([e] + alike)[k], columnsOperand, series) == Ok(out)
  }

  /** The first read of `ops` that already reads exactly `columns`, if any. */
  method FindExact(ops: seq<Expr>, columns: seq<Value>) returns (r: Result<Option<nat>>)
    requires forall k :: 0 <= k < |ops| ==> ops[k].kind == FromPandas
    ensures r.Ok? && r.value.Some? ==> r.value.value < |ops| && ReadsExactly(ops[r.value.value], columns) == Ok(true)
    ensures r.Ok? && r.value.Some? ==> forall k :: 0 <= k < r.value.value ==> ReadsExactly(ops[k], columns) == Ok(false)
    ensures r.Ok? && r.value.None? ==> forall k :: 0 <= k < |ops| ==> ReadsExactly(ops[k], columns) == Ok(false)
    ensures r.Err? ==> exists k :: 0 <= k < |ops| && ReadsExactly(ops[k], columns).Err?
  {
    var j := 0;
    while j < |ops|
      invariant 0 <= j <= |ops|
      invariant forall k :: 0 <= k < j ==> ReadsExactly(ops[k], columns) == Ok(false)
    {
      var exact := ReadsExactly(ops[j], columns);
      if exact.Err? {
        return Err(exact.error);
      }
      if exact.value {
        return Ok(Some(j));
      }
      j := j + 1;
    }
    return Ok(None);
  }

  /** Reuse a read of `[e] + alike` that reads exactly `union`, or widen `e` to it; then re-project. */
  method Rebuild(e: Expr, alike: seq<Expr>, union: seq<Value>, columnsOperand: Value, series: bool) returns (r: Result<Expr>)
    requires e.kind == FromPandas && forall i :: 0 <= i < |alike| ==> alike[i].kind == FromPandas
    ensures r.Ok? ==>
              || Reuses(e, alike, union, columnsOperand, series, r.value)
              || (&& Reproject(Widened(e, union, series), columnsOperand, series) == r
                  && forall k :: 0 <= k <= |alike| ==> ReadsExactly(([e] + alike)[k], union) == Ok(false))
  {
    var ops := [e] + alike;
    var found :- FindExact(ops, union);
    if found.Some? {
      r := Reproject(ops[found.value], columnsOperand, series);
      if r.Ok? {
        assert Reuses(e, alike, union, columnsOperand, series, r.value);
      }
    } else {
      r := Reproject(Widened(e, union, series), columnsOperand, series);
    }
  }

  /**
    `_combine_similar`: with `alike` the other reads of the same kind and
    source found in the graph, the combined read takes the sorted union of all
    their columns. It declines when that union is already this read's columns
    (and more than one column, or not a Series). Otherwise a read among
    `[self] + alike` that already reads exactly the union is reused, or, when
    there is none, this read is widened to the union; either way the result is
    re-projected to this read's own columns.
   */
  method CombineSimilar(e: Expr, alike: seq<Expr>) returns (r: Result<Option<Expr>>)
    requires forall i :: 0 <= i < |alike| ==> alike[i].kind == e.kind
    ensures !Absorbs(e.kind) || alike == [] ==> r == Ok(None)
    ensures r == Ok(None) ==>
              || !Absorbs(e.kind) || alike == []
              || (&& ColumnsOperand(e).Ok? && SlotValue(e, SeriesSlot).Ok? && Union(e, alike).Ok?
                  && ColumnsOperand(e).value == VList(Union(e, alike).value)
                  && (|Union(e, alike).value| > 1 || !Truthy(SlotValue(e, SeriesSlot).value)))
    ensures r.Ok? && r.value.Some? ==>
              && Absorbs(e.kind)
              && ColumnsOperand(e).Ok? && SlotValue(e, SeriesSlot).Ok? && Union(e, alike).Ok?
              && var union := Union(e, alike).value;
                 var series := Truthy(SlotValue(e, SeriesSlot).value);
                 var co := ColumnsOperand(e).value;
                 && !(co == VList(union) && (|union| > 1 || !series))
                 && (Reuses(e, alike, union, co, series, r.value.value)
                     || (&& Reproject(Widened(e, union, series), co, series) == Ok(r.value.value)
                         && forall k :: 0 <= k <= |alike| ==> ReadsExactly(([e] + alike)[k], union) == Ok(false)))
  {
    if !Absorbs(e.kind) || alike == [] {
      return Ok(None);
    }
    var columnsOperand :- ColumnsOperand(e);
    var base :- LabelsOf(e);
    var acc := base;
    var i := 0;
    while i < |alike|
      invariant 0 <= i <= |alike|
      invariant Accumulate(base, alike[..i]) == Ok(acc)
    {
      var labels :- LabelsOf(alike[i]);
      assert alike[..i + 1][..i] == alike[..i];
      acc := acc + labels;
      i := i + 1;
    }
    assert alike[..|alike|] == alike;
    var union :- SortLabels(acc);
    assert Union(e, alike) == Ok(union);
    var seriesValue :- SlotValue(e, SeriesSlot);
    var series := Truthy(seriesValue);
    if columnsOperand == VList(union) && (|union| > 1 || !series) {
      return Ok(None);
    }
    var out :- Rebuild(e, alike, union, columnsOperand, series);
    return Ok(Some(out));
  }

  /** The sorted union covers the columns of this read and of every similar read. */
  lemma UnionCoversAll(e: Expr, alike: seq<Expr>)
    requires e.kind == FromPandas && forall i :: 0 <= i < |alike| ==> alike[i].kind == FromPandas
    requires Union(e, alike).Ok?
    ensures var union := Union(e, alike).value;
            && Ascend(union)
            && SetOf(LabelsOf(e).value) <= SetOf(union)
            && forall i :: 0 <= i < |alike| ==> LabelsOf(alike[i]).Ok? && SetOf(LabelsOf(alike[i]).value) <= SetOf(union)
  {
  }
}
