/**
  The dask_expr parquet leaf `ReadParquet`: column normalisation, statistics
  alignment, division planning, partition tasks, `len`, and the absorption of
  a parent projection or comparison filter into the read.

  The engine (dataset inspection, the collection plan, row-group aggregation
  and `sorted_columns`) is a field of the `World`; the properties proved here
  hold for every engine, except where a lemma names what it assumes of it.
 */
module Parquet {
  import opened Wrappers
  import opened Ir
  import opened Oracles
  import Meta
  import ExprIO

  // ---------------------------------------------------------------------
  // `_list_columns` and `_align_statistics`
  // ---------------------------------------------------------------------

  /** `_list_columns`: a single str/int label becomes a one-element list, a tuple a list; anything else is kept. */
  function ListColumns(columns: Value): (r: Value)
    ensures IsStrOrInt(columns) ==> r == VList([columns])
    ensures columns.VTuple? ==> r == VList(columns.items)
    ensures !IsStrOrInt(columns) && !columns.VTuple? ==> r == columns
    ensures !IsStrOrInt(r) && !r.VTuple?
  {
    if IsStrOrInt(columns) then VList([columns])
    else if columns.VTuple? then VList(columns.items)
    else columns
  }

  /** Normalising twice is normalising once. */
  lemma ListColumnsIdempotent(columns: Value)
    ensures ListColumns(ListColumns(columns)) == ListColumns(columns)
  {
  }

  function TotalRows(stats: seq<FragmentStats>): int {
    if stats == [] then 0 else TotalRows(stats[..|stats| - 1]) + stats[|stats| - 1].numRows
  }

  /** The (part, statistics) pairs whose fragment has rows, in order. */
  function KeepNonEmpty(parts: seq<Value>, stats: seq<FragmentStats>): (r: (seq<Value>, seq<FragmentStats>))
    requires |parts| == |stats|
    ensures |r.0| == |r.1| <= |parts|
    ensures forall i :: 0 <= i < |r.1| ==> r.1[i].numRows > 0
    ensures (forall i :: 0 <= i < |stats| ==> stats[i].numRows > 0) ==> r == (parts, stats)
    decreases |parts|
  {
    if parts == [] then ([], [])
    else
      var n := |parts| - 1;
      var rest := KeepNonEmpty(parts[..n], stats[..n]);
      assert parts == parts[..n] + [parts[n]] && stats == stats[..n] + [stats[n]];
      if stats[n].numRows > 0 then (rest.0 + [parts[n]], rest.1 + [stats[n]]) else rest
  }

  /** One pair is kept exactly when its fragment has rows. */
  lemma KeepNonEmptySingle(part: Value, stat: FragmentStats)
    ensures KeepNonEmpty([part], [stat]) == if stat.numRows > 0 then ([part], [stat]) else ([], [])
  {
    assert [part][..0] == [] && [stat][..0] == [];
  }

  /**
    Filtering distributes over concatenation: the pairs kept from `p1 + p2`
    are those kept from `p1` followed by those kept from `p2`. With
    KeepNonEmptySingle this fixes exactly which pairs are kept, together and
    in order.
   */
  lemma {:induction false} KeepNonEmptyAppend(p1: seq<Value>, s1: seq<FragmentStats>, p2: seq<Value>, s2: seq<FragmentStats>)
    requires |p1| == |s1| && |p2| == |s2|
    ensures KeepNonEmpty(p1 + p2, s1 + s2) ==
              (KeepNonEmpty(p1, s1).0 + KeepNonEmpty(p2, s2).0, KeepNonEmpty(p1, s1).1 + KeepNonEmpty(p2, s2).1)
    decreases |p2|
  {
    if p2 == [] {
      KeepNonEmptyAppendEmpty(p1, s1, p2, s2);
    } else {
      var n := |p2| - 1;
      var q2, t2 := p2[..n], s2[..n];
      KeepNonEmptyAppend(p1, s1, q2, t2);
      KeepNonEmptyAppendStep(p1, s1, q2, t2, p2[n], s2[n]);
      KeepNonEmptyLast(p1, s1, p2, s2);
    }
  }

  lemma KeepNonEmptyAppendEmpty(p1: seq<Value>, s1: seq<FragmentStats>, p2: seq<Value>, s2: seq<FragmentStats>)
    requires |p1| == |s1| && p2 == [] && s2 == []
    ensures KeepNonEmpty(p1 + p2, s1 + s2) ==
              (KeepNonEmpty(p1, s1).0 + KeepNonEmpty(p2, s2).0, KeepNonEmpty(p1, s1).1 + KeepNonEmpty(p2, s2).1)
  {
    assert p1 + p2 == p1 && s1 + s2 == s1;
    var k1 := KeepNonEmpty(p1, s1);
    assert k1.0 + [] == k1.0 && k1.1 + [] == k1.1;
  }

  /** `p2` is `p2` without its last pair, then that pair: the filter sees the same arguments. */
  lemma KeepNonEmptyLast(p1: seq<Value>, s1: seq<FragmentStats>, p2: seq<Value>, s2: seq<FragmentStats>)
    requires |p1| == |s1| && |p2| == |s2| && p2 != []
    ensures var n := |p2| - 1;
            && KeepNonEmpty(p1 + p2, s1 + s2) == KeepNonEmpty(p1 + (p2[..n] + [p2[n]]), s1 + (s2[..n] + [s2[n]]))
            && KeepNonEmpty(p2, s2) == KeepNonEmpty(p2[..n] + [p2[n]], s2[..n] + [s2[n]])
  {
    var n := |p2| - 1;
    assert p2 == p2[..n] + [p2[n]] && s2 == s2[..n] + [s2[n]];
  }

  /** The inductive step of KeepNonEmptyAppend: one more pair at the end of the second part. */
  lemma KeepNonEmptyAppendStep(p1: seq<Value>, s1: seq<FragmentStats>, q2: seq<Value>, t2: seq<FragmentStats>,
                               x: Value, t: FragmentStats)
    requires |p1| == |s1| && |q2| == |t2|
    requires KeepNonEmpty(p1 + q2, s1 + t2) ==
               (KeepNonEmpty(p1, s1).0 + KeepNonEmpty(q2, t2).0, KeepNonEmpty(p1, s1).1 + KeepNonEmpty(q2, t2).1)
    ensures KeepNonEmpty(p1 + (q2 + [x]), s1 + (t2 + [t])) ==
              (KeepNonEmpty(p1, s1).0 + KeepNonEmpty(q2 + [x], t2 + [t]).0,
               KeepNonEmpty(p1, s1).1 + KeepNonEmpty(q2 + [x], t2 + [t]).1)
  {
    assert p1 + (q2 + [x]) == (p1 + q2) + [x];
    assert s1 + (t2 + [t]) == (s1 + t2) + [t];
    KeepNonEmptySnoc(p1 + q2, s1 + t2, x, t);
    KeepNonEmptySnoc(q2, t2, x, t);
    if t.numRows > 0 {
      Associate(KeepNonEmpty(p1, s1).0, KeepNonEmpty(q2, t2).0, x);
      Associate(KeepNonEmpty(p1, s1).1, KeepNonEmpty(q2, t2).1, t);
    }
  }

  lemma Associate<T>(a: seq<T>, b: seq<T>, x: T)
    ensures (a + b) + [x] == a + (b + [x])
  {
  }

  /** Adding one pair at the end keeps it after the earlier kept pairs exactly when its fragment has rows. */
  lemma KeepNonEmptySnoc(p: seq<Value>, s: seq<FragmentStats>, x: Value, t: FragmentStats)
    requires |p| == |s|
    ensures KeepNonEmpty(p + [x], s + [t]) ==
              if t.numRows > 0 then (KeepNonEmpty(p, s).0 + [x], KeepNonEmpty(p, s).1 + [t]) else KeepNonEmpty(p, s)
  {
    assert (p + [x])[..|p|] == p && (s + [t])[..|s|] == s;
  }

  /** Dropping the fragments without rows does not change the total row count. */
  lemma {:induction false} KeepNonEmptyRows(parts: seq<Value>, stats: seq<FragmentStats>)
    requires |parts| == |stats|
    requires forall i :: 0 <= i < |stats| ==> stats[i].numRows >= 0
    ensures TotalRows(KeepNonEmpty(parts, stats).1) == TotalRows(stats)
    decreases |parts|
  {
    if parts != [] {
      var n := |parts| - 1;
      KeepNonEmptyRows(parts[..n], stats[..n]);
      var rest := KeepNonEmpty(parts[..n], stats[..n]);
      if stats[n].numRows > 0 {
        assert (rest.1 + [stats[n]])[..|rest.1|] == rest.1;
      }
    }
  }

  /**
    `_align_statistics`: statistics that do not match the parts one to one are
    dropped; otherwise only the parts whose fragment has rows are kept, with
    their statistics.
   */
  function AlignStatistics(parts: seq<Value>, stats: seq<FragmentStats>): (r: (seq<Value>, seq<FragmentStats>))
    ensures stats == [] || |parts| != |stats| ==> r == (parts, [])
    ensures stats != [] && |parts| == |stats| ==> r == KeepNonEmpty(parts, stats)
    ensures r.1 != [] ==> |r.0| == |r.1|
  {
    if stats == [] || |parts| != |stats| then (parts, []) else KeepNonEmpty(parts, stats)
  }

  // ---------------------------------------------------------------------
  // Row-group aggregation and divisions
  // ---------------------------------------------------------------------

  /** An optional sign followed by decimal digits. */
  function ParseDecimal(s: string): Option<int> {
    if |s| > 0 && (s[0] == '-' || s[0] == '+') then
      match Digits(s[1..])
      case Some(n) => var m: int := n; Some(if s[0] == '-' then -m else m)
      case None => None
    else Digits(s)
  }

  function Digits(s: string): (r: Option<nat>)
    ensures r.Some? ==> s != []
  {
    if s == [] || !('0' <= s[|s| - 1] <= '9') then None
    else if |s| == 1 then Some((s[0] - '0') as nat)
    else
      match Digits(s[..|s| - 1])
      case Some(n) => Some(10 * n + (s[|s| - 1] - '0') as nat)
      case None => None
  }

  /** Python's `int(v)` on a literal: numbers as they are, strings by their digits. */
  function PyInt(v: Value): (r: Result<int>)
    ensures IsNumber(v) ==> r == Ok(NumberOf(v))
    ensures v.VStr? && ParseDecimal(v.s).None? ==> r == Err(ValueError)
  {
    if IsNumber(v) then Ok(NumberOf(v))
    else if v.VStr? then
      match ParseDecimal(v.s)
      case Some(n) => Ok(n)
      case None => Err(ValueError)
    else Err(TypeError)
  }

  /**
    `_aggregate_row_groups`: the engine aggregates parts only when there are
    statistics and either `split_row_groups is True` with a truthy blocksize,
    or `int(split_row_groups) > 1`.
   */
  function AggregateRowGroups(ps: PartsAndStats, info: DatasetInfo, w: World): (r: Result<PartsAndStats>)
    ensures ps.stats == [] ==> r == Ok(ps)
    ensures ps.stats != [] && info.splitRowGroups == VBool(true) && Truthy(info.blocksize) ==>
              r == Ok(w.aggregateRowGroups(ps, info))
    ensures !Truthy(info.splitRowGroups) ==> r == Ok(ps)
    ensures r.Ok? ==> r.value == ps || r.value == w.aggregateRowGroups(ps, info)
  {
    var blocksize := if info.splitRowGroups == VBool(true) then info.blocksize else VNone;
    if ps.stats == [] then Ok(ps)
    else if Truthy(blocksize) then Ok(w.aggregateRowGroups(ps, info))
    else if !Truthy(info.splitRowGroups) then Ok(ps)
    else
      var n :- PyInt(info.splitRowGroups);
      if n > 1 then Ok(w.aggregateRowGroups(ps, info)) else Ok(ps)
  }

  function Nones(n: nat): (r: seq<Value>)
    ensures |r| == n && forall i :: 0 <= i < n ==> r[i] == VNone
  {
    seq(n, _ => VNone)
  }

  /** The divisions of the first sorted column that is in `index`. */
  function FirstSorted(sorted: seq<SortedColumn>, index: seq<Value>): (r: Option<seq<Value>>)
    ensures r.Some? <==> exists i :: 0 <= i < |sorted| && sorted[i].name in index
    ensures r.Some? ==> exists i :: 0 <= i < |sorted| && sorted[i].name in index && sorted[i].divisions == r.value &&
                          forall j :: 0 <= j < i ==> sorted[j].name !in index
  {
    if sorted == [] then None
    else if sorted[0].name in index then Some(sorted[0].divisions)
    else
      var r := FirstSorted(sorted[1..], index);
      assert forall i :: 1 <= i < |sorted| ==> sorted[i] == sorted[1..][i - 1];
      if r.Some? then
        var i :| 0 <= i < |sorted| - 1 && sorted[1..][i].name in index && sorted[1..][i].divisions == r.value &&
                 forall j :: 0 <= j < i ==> sorted[1..][j].name !in index;
        assert sorted[i + 1].name in index && sorted[i + 1].divisions == r.value;
        r
      else r
  }

  /** The index columns `sorted_columns` is asked about: the index when it names exactly one column. */
  function ProcessColumns(index: Value): (r: Result<Option<seq<Value>>>)
    ensures r.Ok? && r.value.Some? ==> Truthy(index) && PyIter(index) == Ok(r.value.value) && |r.value.value| == 1
    ensures !Truthy(index) ==> r == Ok(None)
  {
    if !Truthy(index) then Ok(None)
    else
      var items :- PyIter(index);
      if |items| == 1 then Ok(Some(items)) else Ok(None)
  }

  /**
    `_calculate_divisions`: the divisions of the sorted index column when
    there are statistics, `calculate_divisions` is not `False` and the index is
    one column; otherwise `npartitions + 1` unknown divisions.
   */
  function CalculateDivisions(stats: seq<FragmentStats>, info: DatasetInfo, npartitions: nat, w: World): (r: Result<seq<Value>>)
    ensures r.Ok? ==> |r.value| >= 1
    ensures stats == [] ==> r == Ok(Nones(npartitions + 1))
    ensures r.Ok? && info.calculateDivisions == VBool(false) ==> r.value == Nones(npartitions + 1)
    ensures ProcessColumns(info.index) == Ok(None) ==> r == Ok(Nones(npartitions + 1))
    ensures r.Ok? && r.value != Nones(npartitions + 1) ==>
              && ProcessColumns(info.index).Ok? && ProcessColumns(info.index).value.Some?
              && FirstSorted(w.sortedColumns(stats, ProcessColumns(info.index).value.value),
                             ProcessColumns(info.index).value.value) == Some(r.value)
    ensures stats != [] && ProcessColumns(info.index).Err? ==> r == Err(ProcessColumns(info.index).error)
    ensures stats != [] && info.calculateDivisions != VBool(false) &&
            ProcessColumns(info.index).Ok? && ProcessColumns(info.index).value.Some? ==>
              var cols := ProcessColumns(info.index).value.value;
              var found := FirstSorted(w.sortedColumns(stats, cols), cols);
              && (found.Some? && found.value != [] ==> r == Ok(found.value))
              && (found.None? || found.value == [] ==> r == Ok(Nones(npartitions + 1)))
  {
    if stats == [] then Ok(Nones(npartitions + 1))
    else
      var process :- ProcessColumns(info.index);
      var found :=
        if info.calculateDivisions != VBool(false) && process.Some? then
          FirstSorted(w.sortedColumns(stats, process.value), process.value)
        else None;
      if found.Some? && found.value != [] then Ok(found.value) else Ok(Nones(npartitions + 1))
  }

  // ---------------------------------------------------------------------
  // The plan (`_plan`), divisions, tasks and `len`
  // ---------------------------------------------------------------------

  /** The function a partition task applies: the identity for the empty plan, the engine's reader otherwise. */
  datatype IOFunc = Identity | ReadPart

  datatype Plan = Plan(func: IOFunc, parts: seq<Value>, stats: seq<FragmentStats>, divisions: seq<Value>)

  /**
    `_plan`: align and aggregate the engine's parts and statistics, then
    compute divisions; with fewer than two divisions the read is the empty
    meta in one partition with divisions `(None, None)`.
   */
  function PlanOf(e: Expr, w: World): (r: Result<Plan>)
    ensures r.Ok? ==> |r.value.divisions| >= 2
    ensures r.Ok? && r.value.func == Identity ==>
              r.value.parts == [VFrame(w.datasetInfo(e).meta)] && r.value.divisions == [VNone, VNone]
    ensures r.Ok? <==> Aggregated(e, w).Ok? && PlannedDivisions(e, w).Ok?
    ensures r.Ok? ==> r.value.stats == Aggregated(e, w).value.stats
    ensures r.Ok? ==> (r.value.func == Identity <==> |PlannedDivisions(e, w).value| < 2)
    ensures r.Ok? && r.value.func == ReadPart ==>
              r.value.parts == Aggregated(e, w).value.parts && r.value.divisions == PlannedDivisions(e, w).value
  {
    var info := w.datasetInfo(e);
    var agg :- Aggregated(e, w);
    var divisions :- CalculateDivisions(agg.stats, info, |agg.parts|, w);
    if |divisions| < 2 then Ok(Plan(Identity, [VFrame(info.meta)], agg.stats, [VNone, VNone]))
    else Ok(Plan(ReadPart, agg.parts, agg.stats, divisions))
  }

  /** The engine's parts and statistics, aligned and then aggregated. */
  function Aggregated(e: Expr, w: World): Result<PartsAndStats> {
    var info := w.datasetInfo(e);
    var planned := w.collectionPlan(info);
    var aligned := AlignStatistics(planned.parts, planned.stats);
    AggregateRowGroups(PartsAndStats(aligned.0, aligned.1), info, w)
  }

  /** The divisions computed from the aggregated statistics. */
  function PlannedDivisions(e: Expr, w: World): Result<seq<Value>>
    requires Aggregated(e, w).Ok?
  {
    var agg := Aggregated(e, w).value;
    CalculateDivisions(agg.stats, w.datasetInfo(e), |agg.parts|, w)
  }

  /**
    A dataset with no parts after aggregation (and an engine that keeps parts
    and statistics one to one) is read as the empty meta in one partition.
   */
  lemma EmptyDatasetPlan(e: Expr, w: World)
    requires AggregationAligned(w)
    requires Aggregated(e, w).Ok? && Aggregated(e, w).value.parts == []
    ensures PlanOf(e, w).Ok? && PlanOf(e, w).value.func == Identity
    ensures PlanOf(e, w).value.parts == [VFrame(w.datasetInfo(e).meta)] && PlanOf(e, w).value.divisions == [VNone, VNone]
  {
    var info := w.datasetInfo(e);
    var planned := w.collectionPlan(info);
    var aligned := AlignStatistics(planned.parts, planned.stats);
    var ps := PartsAndStats(aligned.0, aligned.1);
    var agg := Aggregated(e, w).value;
    if aligned.1 != [] {
      assert |ps.parts| == |ps.stats|;
      assert agg == ps || agg == w.aggregateRowGroups(ps, info);
      assert |agg.parts| == |agg.stats|;
    }
    assert agg.stats == [];
    assert PlannedDivisions(e, w) == Ok(Nones(1));
  }

  /** The engine keeps parts and statistics one to one when it aggregates row groups. */
  ghost predicate AggregationAligned(w: World) {
    forall ps: PartsAndStats, info: DatasetInfo {:trigger w.aggregateRowGroups(ps, info)} ::
      |ps.parts| == |ps.stats| ==> |w.aggregateRowGroups(ps, info).parts| == |w.aggregateRowGroups(ps, info).stats|
  }

  /** `sorted_columns` reports one more division than there are fragments. */
  ghost predicate SortedColumnsSpan(w: World) {
    forall stats: seq<FragmentStats>, cols: seq<Value>, i: int {:trigger w.sortedColumns(stats, cols)[i]} ::
      0 <= i < |w.sortedColumns(stats, cols)| ==> |w.sortedColumns(stats, cols)[i].divisions| == |stats| + 1
  }

  /** With an engine that keeps that bookkeeping, a plan has exactly one more division than parts. */
  lemma PlanDivisionsCountParts(e: Expr, w: World)
    requires PlanOf(e, w).Ok?
    requires AggregationAligned(w) && SortedColumnsSpan(w)
    ensures |PlanOf(e, w).value.divisions| == |PlanOf(e, w).value.parts| + 1
  {
    var info := w.datasetInfo(e);
    var planned := w.collectionPlan(info);
    var aligned := AlignStatistics(planned.parts, planned.stats);
    var ps := PartsAndStats(aligned.0, aligned.1);
    var agg := Aggregated(e, w).value;
    assert agg == AggregateRowGroups(ps, info, w).value;
    var divisions := PlannedDivisions(e, w).value;
    if |divisions| >= 2 && divisions != Nones(|agg.parts| + 1) {
      var process := ProcessColumns(info.index).value.value;
      var sorted := w.sortedColumns(agg.stats, process);
      var i :| 0 <= i < |sorted| && sorted[i].name in process && sorted[i].divisions == divisions;
      assert |divisions| == |agg.stats| + 1;
      assert agg.stats != [];
      assert |agg.parts| == |agg.stats|;
    }
  }

  /** `_divisions`. */
  function Divisions(e: Expr, w: World): (r: Result<seq<Value>>)
    ensures r.Ok? <==> PlanOf(e, w).Ok?
    ensures r.Ok? ==> r.value == PlanOf(e, w).value.divisions && |r.value| >= 2
  {
    var plan :- PlanOf(e, w);
    Ok(plan.divisions)
  }

  /** Positions in `_parameters` of the operands the read looks up by name. */
  const PathSlot: nat := 0
  const ColumnsSlot: nat := 1
  const FiltersSlot: nat := 2
  const SeriesSlot: nat := 16

  /** Looking up `path`, `columns`, `filters` and `_series` by name finds the operands in those slots. */
  lemma NamedSlots(e: Expr)
    requires e.kind == ReadParquet
    ensures OperandOf(e, "path") == Slot(e, PathSlot)
    ensures ValueOf(e, "columns") == SlotValue(e, ColumnsSlot)
    ensures ValueOf(e, "filters") == SlotValue(e, FiltersSlot)
    ensures ValueOf(e, "_series") == SlotValue(e, SeriesSlot)
  {
    var ps := Params(ReadParquet);
    assert ps[PathSlot] == "path" && ps[ColumnsSlot] == "columns";
    assert ps[FiltersSlot] == "filters" && ps[SeriesSlot] == "_series";
    OperandAtSlot(e, PathSlot);
    OperandAtSlot(e, ColumnsSlot);
    OperandAtSlot(e, FiltersSlot);
    OperandAtSlot(e, SeriesSlot);
  }

  /** The meta of the read; a Series read selects its one column from the dataset's meta. */
  function MetaOf(e: Expr, w: World): (r: Result<Table>)
    requires e.kind == ReadParquet
    ensures SlotValue(e, SeriesSlot).Ok? && !Truthy(SlotValue(e, SeriesSlot).value) ==> r == Ok(w.datasetInfo(e).meta)
    ensures r.Ok? && r.value.columns.Some? ==> r.value == w.datasetInfo(e).meta
  {
    var meta := w.datasetInfo(e).meta;
    var series :- SlotValue(e, SeriesSlot);
    if Truthy(series) then
      var c :- SlotValue(e, ColumnsSlot);
      var first :- FirstItem(ListColumns(c));
      ExprIO.SelectColumn(meta, first)
    else Ok(meta)
  }

  /** `v[0]`. */
  function FirstItem(v: Value): (r: Result<Value>)
    ensures (v.VList? || v.VTuple? || v.VArray?) && v.items != [] ==> r == Ok(v.items[0])
  {
    match v
    case VList(xs) => if xs == [] then Err(IndexError) else Ok(xs[0])
    case VTuple(xs) => if xs == [] then Err(IndexError) else Ok(xs[0])
    case VArray(xs) => if xs == [] then Err(IndexError) else Ok(xs[0])
    case VStr(s) => if s == [] then Err(IndexError) else Ok(VStr([s[0]]))
    case VDict(_) => Err(KeyError)
    case _ => Err(TypeError)
  }

  /**
    `columns`: the meta's columns when the operand is `None` (a Series meta
    has none), else the operand normalised by `_list_columns`.
   */
  function Columns(e: Expr, w: World): (r: Result<seq<Value>>)
    requires e.kind == ReadParquet
    ensures SlotValue(e, ColumnsSlot).Ok? && !SlotValue(e, ColumnsSlot).value.VNone? ==>
              r == PyIter(ListColumns(SlotValue(e, ColumnsSlot).value))
    ensures SlotValue(e, ColumnsSlot) == Ok(VNone) && MetaOf(e, w).Ok? && MetaOf(e, w).value.columns.Some? ==>
              r == Ok(w.datasetInfo(e).meta.columns.value)
  {
    var c :- SlotValue(e, ColumnsSlot);
    if c.VNone? then
      var meta :- MetaOf(e, w);
      if meta.columns.None? then Err(AttributeError) else Ok(meta.columns.value)
    else PyIter(ListColumns(c))
  }

  /** A partition task: the plan's function on one part, then the Series column when `_series`. */
  datatype PartTask = PartTask(func: IOFunc, part: Value, column: Option<Value>)

  /** Python's `xs[i]`, where a negative `i` counts from the end. */
  function PyIndex<T>(xs: seq<T>, i: int): (r: Result<T>)
    ensures r.Ok? <==> -|xs| <= i < |xs|
    ensures 0 <= i < |xs| ==> r == Ok(xs[i])
    ensures r.Err? ==> r.error == IndexError
  {
    if 0 <= i < |xs| then Ok(xs[i])
    else if -|xs| <= i < 0 then Ok(xs[|xs| + i])
    else Err(IndexError)
  }

  /** `_filtered_task(index)`. */
  function FilteredTask(e: Expr, w: World, index: int): (r: Result<PartTask>)
    requires e.kind == ReadParquet
    ensures r.Ok? ==> PlanOf(e, w).Ok? && r.value.func == PlanOf(e, w).value.func
    ensures r.Ok? && 0 <= index ==> index < |PlanOf(e, w).value.parts| && r.value.part == PlanOf(e, w).value.parts[index]
    ensures r.Ok? ==> SlotValue(e, SeriesSlot).Ok? && (r.value.column.Some? <==> Truthy(SlotValue(e, SeriesSlot).value))
    ensures r.Ok? && r.value.column.Some? ==>
              Columns(e, w).Ok? && Columns(e, w).value != [] && r.value.column.value == Columns(e, w).value[0]
  {
    var plan :- PlanOf(e, w);
    var part :- PyIndex(plan.parts, index);
    var series :- SlotValue(e, SeriesSlot);
    if Truthy(series) then
      var cols :- Columns(e, w);
      if cols == [] then Err(IndexError) else Ok(PartTask(plan.func, part, Some(cols[0])))
    else Ok(PartTask(plan.func, part, None))
  }

  /** The empty plan has one task, which returns the meta. */
  lemma EmptyPlanTask(e: Expr, w: World)
    requires e.kind == ReadParquet
    requires PlanOf(e, w).Ok? && PlanOf(e, w).value.func == Identity
    requires SlotValue(e, SeriesSlot) == Ok(VBool(false))
    ensures FilteredTask(e, w, 0) == Ok(PartTask(Identity, VFrame(w.datasetInfo(e).meta), None))
    ensures FilteredTask(e, w, 1).Err?
  {
  }

  /** `_len`: the statistics' row total when there are statistics and no filters, else the inherited length. */
  function Len(e: Expr, w: World): (r: Result<int>)
    requires e.kind == ReadParquet
    ensures r.Ok? ==> PlanOf(e, w).Ok? && SlotValue(e, FiltersSlot).Ok?
    ensures r.Ok? && PlanOf(e, w).value.stats != [] && !Truthy(SlotValue(e, FiltersSlot).value) ==>
              r.value == TotalRows(PlanOf(e, w).value.stats)
    ensures r.Ok? && (PlanOf(e, w).value.stats == [] || Truthy(SlotValue(e, FiltersSlot).value)) ==>
              r.value == w.fallbackLen(e)
  {
    var plan :- PlanOf(e, w);
    var filters :- SlotValue(e, FiltersSlot);
    if plan.stats != [] && !Truthy(filters) then Ok(TotalRows(plan.stats)) else Ok(w.fallbackLen(e))
  }

  lemma {:induction false} PositiveTotal(stats: seq<FragmentStats>)
    requires forall i :: 0 <= i < |stats| ==> stats[i].numRows > 0
    ensures stats != [] ==> TotalRows(stats) > 0
    decreases |stats|
  {
    if stats != [] {
      PositiveTotal(stats[..|stats| - 1]);
    }
  }

  /**
    When the engine plans without row-group aggregation, every fragment
    reports a non-negative row count and there are no filters, `len` is the
    total row count of all fragments (dropping the empty ones changes nothing),
    or the inherited length when that total is zero.
   */
  lemma LenCountsAllFragments(e: Expr, w: World)
    requires e.kind == ReadParquet
    requires Len(e, w).Ok?
    requires var planned := w.collectionPlan(w.datasetInfo(e));
             && |planned.parts| == |planned.stats|
             && (forall i :: 0 <= i < |planned.stats| ==> planned.stats[i].numRows >= 0)
    requires !Truthy(w.datasetInfo(e).splitRowGroups)
    requires !Truthy(SlotValue(e, FiltersSlot).value)
    ensures var total := TotalRows(w.collectionPlan(w.datasetInfo(e)).stats);
            Len(e, w).value == if total > 0 then total else w.fallbackLen(e)
  {
    var planned := w.collectionPlan(w.datasetInfo(e));
    PlanStatsAligned(e, w);
    AlignedRows(planned.parts, planned.stats);
  }

  /** Without row-group aggregation the plan's statistics are the aligned ones. */
  lemma PlanStatsAligned(e: Expr, w: World)
    requires PlanOf(e, w).Ok? && !Truthy(w.datasetInfo(e).splitRowGroups)
    ensures var planned := w.collectionPlan(w.datasetInfo(e));
            PlanOf(e, w).value.stats == AlignStatistics(planned.parts, planned.stats).1
  {
    var info := w.datasetInfo(e);
    var planned := w.collectionPlan(info);
    var aligned := AlignStatistics(planned.parts, planned.stats);
    assert AggregateRowGroups(PartsAndStats(aligned.0, aligned.1), info, w) == Ok(PartsAndStats(aligned.0, aligned.1));
  }

  /** Aligning statistics with non-negative row counts keeps the total, and keeps some statistics exactly when the total is positive. */
  lemma AlignedRows(parts: seq<Value>, stats: seq<FragmentStats>)
    requires |parts| == |stats| && forall i :: 0 <= i < |stats| ==> stats[i].numRows >= 0
    ensures TotalRows(AlignStatistics(parts, stats).1) == TotalRows(stats)
    ensures AlignStatistics(parts, stats).1 != [] <==> TotalRows(stats) > 0
  {
    if stats != [] {
      KeepNonEmptyRows(parts, stats);
      PositiveTotal(AlignStatistics(parts, stats).1);
    }
  }

  // ---------------------------------------------------------------------
  // Absorbing a parent (`_simplify_up`)
  // ---------------------------------------------------------------------

  /** `dict(zip(self._parameters, self.operands))`. */
  function KwargsOf(e: Expr): (m: map<string, Operand>)
    requires e.kind == ReadParquet
  {
    ParamsDistinct(ReadParquet);
    Meta.KeywordsOf(Params(ReadParquet), e.operands)
  }

  /** `(filters or ()) + (triple,)`: conjoin one more filter; a truthy non-tuple cannot be extended. */
  function AppendFilter(filters: Value, triple: Value): (r: Result<Value>)
    ensures !Truthy(filters) ==> r == Ok(VTuple([triple]))
    ensures Truthy(filters) && filters.VTuple? ==> r == Ok(VTuple(filters.items + [triple]))
    ensures Truthy(filters) && !filters.VTuple? ==> r == Err(TypeError)
  {
    if !Truthy(filters) then Ok(VTuple([triple]))
    else if filters.VTuple? then Ok(VTuple(filters.items + [triple]))
    else Err(TypeError)
  }

  /** The result of a rebuilding construction, as a replacement. */
  function Rebuilt(r: Result<Expr>): Result<Option<Expr>> {
    if r.Ok? then Ok(Some(r.value)) else Err(r.error)
  }

  /** The comparison an operator becomes when its operands are swapped. */
  function Flip(k: Kind): (r: Kind)
    requires IsComparison(k)
    ensures IsComparison(r)
    ensures OperatorRepr(r) == OperatorRepr(k) <==> k in {EQ, NE}
  {
    match k
    case LT => GT
    case GT => LT
    case LE => GE
    case GE => LE
    case _ => k
  }

  /** Flipping twice gives back the comparison. */
  lemma FlipInvolutive(k: Kind)
    requires IsComparison(k)
    ensures Flip(Flip(k)) == k
  {
  }

  /** Whether `o` is a ReadParquet reading the same path as `e`. */
  function SamePathRead(o: Operand, e: Expr): Result<bool> {
    if o.Node? && o.e.kind == ReadParquet then
      var p :- Slot(o.e, PathSlot);
      var q :- Slot(e, PathSlot);
      Ok(p == q)
    else Ok(false)
  }

  /**
    Push a comparison `left op right` into the read as the filter triple
    `(column, op, literal)`, where the column is the first column of the
    same-path read on one side and the literal is the other side. With
    `flipOnRight`, a read on the right stores the swapped operator.
   */
  function PushFilter(e: Expr, pred: Expr, w: World, flipOnRight: bool): (r: Result<Option<Expr>>)
    requires e.kind == ReadParquet && IsComparison(pred.kind)
  {
    var left :- OperandOf(pred, "left");
    var leftRead :- SamePathRead(left, e);
    var right :- OperandOf(pred, "right");
    if leftRead && right.Lit? then
      var cols :- Columns(left.e, w);
      if cols == [] then Err(IndexError)
      else AddFilter(e, VTuple([cols[0], VStr(OperatorRepr(pred.kind)), right.v]))
    else
      var rightRead :- SamePathRead(right, e);
      if rightRead && left.Lit? then
        var cols :- Columns(right.e, w);
        var op := if flipOnRight then Flip(pred.kind) else pred.kind;
        if cols == [] then Err(IndexError)
        else AddFilter(e, VTuple([cols[0], VStr(OperatorRepr(op)), left.v]))
      else Ok(None)
  }

  /** Rebuild the read by keyword with one more filter triple. */
  function AddFilter(e: Expr, triple: Value): (r: Result<Option<Expr>>)
    requires e.kind == ReadParquet
  {
    var kwargs := KwargsOf(e);
    if "filters" !in kwargs then Err(KeyError)
    else if !kwargs["filters"].Lit? then Err(TypeError)
    else
      var filters :- AppendFilter(kwargs["filters"].v, triple);
      Rebuilt(Meta.ConstructIntended(ReadParquet, [], kwargs["filters" := Lit(filters)]))
  }

  /** Replace the operand at `i`, which must exist. */
  function SetOperand(ops: seq<Operand>, i: nat, op: Operand): (r: Result<seq<Operand>>)
    ensures r.Ok? <==> i < |ops|
    ensures r.Ok? ==> r.value == ops[i := op]
    ensures r.Err? ==> r.error == IndexError
  {
    if i < |ops| then Ok(ops[i := op]) else Err(IndexError)
  }

  /**
    A projection replaces the `columns` operand with its list form and marks
    the read as a Series when a single str/int label was selected.
   */
  function AbsorbProjection(e: Expr, parent: Expr): (r: Result<Option<Expr>>)
    requires e.kind == ReadParquet
  {
    var pc :- OperandOf(parent, "columns");
    var listed := if pc.Lit? then Lit(ListColumns(pc.v)) else pc;
    var ops :- SetOperand(e.operands, 1, listed);
    var ops' :- if pc.Lit? && IsStrOrInt(pc.v) then SetOperand(ops, 16, Lit(VBool(true))) else Ok(ops);
    Rebuilt(Meta.ConstructIntended(ReadParquet, ops', map[]))
  }

  function Absorb(e: Expr, parent: Expr, w: World, flipOnRight: bool): (r: Result<Option<Expr>>)
    requires e.kind == ReadParquet
  {
    if parent.kind == Projection then AbsorbProjection(e, parent)
    else if parent.kind == Filter then
      var pred :- OperandOf(parent, "predicate");
      if pred.Node? && IsComparison(pred.e.kind) then PushFilter(e, pred.e, w, flipOnRight) else Ok(None)
    else Ok(None)
  }

  /**
    `ReadParquet._simplify_up` as written: a comparison with the read on the
    right stores the operator unchanged, so the node `LT(5, read.x)` becomes
    the filter `(x, "<", 5)`. The operator `5 < read.x` does not get here:
    Python evaluates it as `read.x > 5`, the node `GT(read.x, 5)`, which has
    the read on the left.
   */
  function SimplifyUp(e: Expr, parent: Expr, w: World): (r: Result<Option<Expr>>)
    requires e.kind == ReadParquet
    ensures parent.kind !in {Projection, Filter} ==> r == Ok(None)
  {
    Absorb(e, parent, w, false)
  }

  /** `_simplify_up` with the operator flipped for a read on the right, as the field-first triple intends. */
  function SimplifyUpFlipped(e: Expr, parent: Expr, w: World): (r: Result<Option<Expr>>)
    requires e.kind == ReadParquet
    ensures parent.kind !in {Projection, Filter} ==> r == Ok(None)
  {
    Absorb(e, parent, w, true)
  }

  // ---------------------------------------------------------------------
  // Properties of absorption
  // ---------------------------------------------------------------------

  /** A full ReadParquet node: one operand per declared parameter. */
  predicate Full(e: Expr) {
    e.kind == ReadParquet && |e.operands| == |Params(ReadParquet)|
  }

  /** Rebuilding a full read by keyword from its own operands, one of them replaced, gives those operands back. */
  lemma RebuildByKeyword(e: Expr, i: nat, op: Operand)
    requires Full(e) && i < |e.operands|
    ensures var kwargs := KwargsOf(e)[Params(ReadParquet)[i] := op];
            Meta.ConstructIntended(ReadParquet, [], kwargs) == Ok(Expr(ReadParquet, e.operands[i := op]))
  {
    var ps := Params(ReadParquet);
    ParamsDistinct(ReadParquet);
    Meta.KeywordsUpdate(ps, e.operands, i, op);
    Meta.FillByKeyword(ps, Defaults(ReadParquet), e.operands[i := op]);
  }

  /** Adding a filter to a full read replaces its `filters` operand and nothing else. */
  lemma AddFilterFull(e: Expr, triple: Value)
    requires Full(e) && e.operands[2].Lit?
    requires AppendFilter(e.operands[2].v, triple).Ok?
    ensures AddFilter(e, triple) ==
              Ok(Some(Expr(ReadParquet, e.operands[2 := Lit(AppendFilter(e.operands[2].v, triple).value)])))
  {
    assert Params(ReadParquet)[2] == "filters";
    RebuildByKeyword(e, 2, Lit(AppendFilter(e.operands[2].v, triple).value));
  }

  /**
    Projection absorption changes only `columns` (to its list form) and, for
    a single str/int label, `_series` (to true).
   */
  lemma ProjectionOperands(e: Expr, parent: Expr, w: World)
    requires Full(e) && parent.kind == Projection
    requires OperandOf(parent, "columns").Ok? && OperandOf(parent, "columns").value.Lit?
    ensures var pc := OperandOf(parent, "columns").value.v;
            var ops := e.operands[1 := Lit(ListColumns(pc))];
            SimplifyUp(e, parent, w) ==
              Ok(Some(Expr(ReadParquet, if IsStrOrInt(pc) then ops[16 := Lit(VBool(true))] else ops)))
  {
    var pc := OperandOf(parent, "columns").value.v;
    var ops := e.operands[1 := Lit(ListColumns(pc))];
    var ops' := if IsStrOrInt(pc) then ops[16 := Lit(VBool(true))] else ops;
    assert Meta.FillIntended(Params(ReadParquet), Defaults(ReadParquet), ops', map[]) == Ok(ops') by {
      assert Meta.KwargsFit(Params(ReadParquet), |ops'|, map[]);
    }
  }

  /** The parent `Filter(frame, Expr(k, [left, right]))`. */
  function ComparisonFilter(frame: Operand, k: Kind, left: Operand, right: Operand): Expr {
    Expr(Filter, [frame, Node(Expr(k, [left, right]))])
  }

  /** The `filters` a pushed comparison leaves: the old ones (or none), then `(column, op, value)`. */
  function Conjoined(filters: Value, column: Value, op: Kind, value: Value): Value
    requires IsComparison(op) && (!Truthy(filters) || filters.VTuple?)
  {
    VTuple((if Truthy(filters) then filters.items else []) + [VTuple([column, VStr(OperatorRepr(op)), value])])
  }

  lemma ComparisonOperands(k: Kind, l: Operand, r: Operand)
    requires IsComparison(k)
    ensures OperandOf(Expr(k, [l, r]), "left") == Ok(l) && OperandOf(Expr(k, [l, r]), "right") == Ok(r)
  {
    assert Params(k) == ["left", "right"];
  }

  lemma SamePathSelf(e: Expr)
    requires Full(e)
    ensures SamePathRead(Node(e), e) == Ok(true)
  {
  }

  /** The triple a pushed comparison stores. */
  function Triple(column: Value, op: Kind, value: Value): Value
    requires IsComparison(op)
  {
    VTuple([column, VStr(OperatorRepr(op)), value])
  }

  lemma PushFilterLeft(e: Expr, pred: Expr, v: Value, w: World, flip: bool)
    requires e.kind == ReadParquet && IsComparison(pred.kind) && SamePathRead(Node(e), e) == Ok(true)
    requires OperandOf(pred, "left") == Ok(Node(e)) && OperandOf(pred, "right") == Ok(Lit(v))
    requires Columns(e, w).Ok? && Columns(e, w).value != []
    ensures PushFilter(e, pred, w, flip) == AddFilter(e, Triple(Columns(e, w).value[0], pred.kind, v))
  {
  }

  lemma PushFilterRight(e: Expr, pred: Expr, v: Value, w: World, flip: bool)
    requires e.kind == ReadParquet && IsComparison(pred.kind) && SamePathRead(Node(e), e) == Ok(true)
    requires OperandOf(pred, "left") == Ok(Lit(v)) && OperandOf(pred, "right") == Ok(Node(e))
    requires Columns(e, w).Ok? && Columns(e, w).value != []
    ensures PushFilter(e, pred, w, flip) ==
              AddFilter(e, Triple(Columns(e, w).value[0], if flip then Flip(pred.kind) else pred.kind, v))
  {
    assert SamePathRead(Lit(v), e) == Ok(false);
    var op := if flip then Flip(pred.kind) else pred.kind;
    assert PushFilter(e, pred, w, flip) == AddFilter(e, Triple(Columns(e, w).value[0], op, v));
  }

  lemma AppendConjoins(filters: Value, column: Value, op: Kind, value: Value)
    requires IsComparison(op) && (!Truthy(filters) || filters.VTuple?)
    ensures AppendFilter(filters, Triple(column, op, value)) == Ok(Conjoined(filters, column, op, value))
  {
    if !Truthy(filters) {
      assert [] + [Triple(column, op, value)] == [Triple(column, op, value)];
    }
  }

  lemma AbsorbComparison(e: Expr, frame: Operand, k: Kind, l: Operand, r: Operand, w: World, flip: bool)
    requires e.kind == ReadParquet && IsComparison(k)
    ensures Absorb(e, ComparisonFilter(frame, k, l, r), w, flip) == PushFilter(e, Expr(k, [l, r]), w, flip)
  {
    assert Params(Filter) == ["frame", "predicate"];
  }

  /** Pushing a comparison whose read side is `e` and whose literal is `v`, with operator `op` stored. */
  lemma PushStep(e: Expr, frame: Operand, k: Kind, l: Operand, r: Operand, w: World, flip: bool, op: Kind, v: Value)
    requires Full(e) && IsComparison(k) && IsComparison(op)
    requires (l == Node(e) && r == Lit(v) && op == k) ||
             (l == Lit(v) && r == Node(e) && op == (if flip then Flip(k) else k))
    requires Columns(e, w).Ok? && Columns(e, w).value != []
    requires e.operands[2].Lit? && (!Truthy(e.operands[2].v) || e.operands[2].v.VTuple?)
    ensures Absorb(e, ComparisonFilter(frame, k, l, r), w, flip) ==
              Ok(Some(Expr(ReadParquet, e.operands[2 := Lit(Conjoined(e.operands[2].v, Columns(e, w).value[0], op, v))])))
  {
    var filters := e.operands[2].v;
    var pred := Expr(k, [l, r]);
    AbsorbComparison(e, frame, k, l, r, w, flip);
    ComparisonOperands(k, l, r);
    SamePathSelf(e);
    var triple := Triple(Columns(e, w).value[0], op, v);
    if l == Node(e) && r == Lit(v) {
      PushFilterLeft(e, pred, v, w, flip);
    } else {
      PushFilterRight(e, pred, v, w, flip);
    }
    assert PushFilter(e, pred, w, flip) == AddFilter(e, triple);
    AppendConjoins(e.operands[2].v, Columns(e, w).value[0], op, v);
    AddFilterFull(e, triple);
    assert AddFilter(e, triple) == Ok(Some(Expr(ReadParquet, e.operands[2 := Lit(Conjoined(e.operands[2].v, Columns(e, w).value[0], op, v))])));
  }

  /** A comparison with the read on the left is pushed as `(read.columns[0], op, literal)`; nothing else changes. */
  lemma PushLeft(e: Expr, frame: Operand, k: Kind, v: Value, w: World)
    requires Full(e) && IsComparison(k)
    requires Columns(e, w).Ok? && Columns(e, w).value != []
    requires e.operands[2].Lit? && (!Truthy(e.operands[2].v) || e.operands[2].v.VTuple?)
    ensures SimplifyUp(e, ComparisonFilter(frame, k, Node(e), Lit(v)), w) ==
              Ok(Some(Expr(ReadParquet, e.operands[2 := Lit(Conjoined(e.operands[2].v, Columns(e, w).value[0], k, v))])))
  {
    PushStep(e, frame, k, Node(e), Lit(v), w, false, k, v);
  }

  /** As written, a read on the right is pushed with the operator unchanged. */
  lemma PushRightAsWritten(e: Expr, frame: Operand, k: Kind, v: Value, w: World)
    requires Full(e) && IsComparison(k)
    requires Columns(e, w).Ok? && Columns(e, w).value != []
    requires e.operands[2].Lit? && (!Truthy(e.operands[2].v) || e.operands[2].v.VTuple?)
    ensures SimplifyUp(e, ComparisonFilter(frame, k, Lit(v), Node(e)), w) ==
              Ok(Some(Expr(ReadParquet, e.operands[2 := Lit(Conjoined(e.operands[2].v, Columns(e, w).value[0], k, v))])))
  {
    PushStep(e, frame, k, Lit(v), Node(e), w, false, k, v);
  }

  /** With the flip, a read on the right is pushed with the swapped operator. */
  lemma PushRightFlipped(e: Expr, frame: Operand, k: Kind, v: Value, w: World)
    requires Full(e) && IsComparison(k)
    requires Columns(e, w).Ok? && Columns(e, w).value != []
    requires e.operands[2].Lit? && (!Truthy(e.operands[2].v) || e.operands[2].v.VTuple?)
    ensures SimplifyUpFlipped(e, ComparisonFilter(frame, k, Lit(v), Node(e)), w) ==
              Ok(Some(Expr(ReadParquet, e.operands[2 := Lit(Conjoined(e.operands[2].v, Columns(e, w).value[0], Flip(k), v))])))
  {
    PushStep(e, frame, k, Lit(v), Node(e), w, true, Flip(k), v);
  }

  /** Whether a filter triple `(column, op, value)` keeps a row whose column holds `x`. */
  predicate Keeps(op: string, x: int, value: int) {
    match op
    case "<" => x < value
    case "<=" => x <= value
    case ">" => x > value
    case ">=" => x >= value
    case "==" => x == value
    case "!=" => x != value
    case _ => true
  }

  /** Whether the comparison `a k b` holds. */
  predicate Holds(k: Kind, a: int, b: int)
    requires IsComparison(k)
  {
    Keeps(OperatorRepr(k), a, b)
  }

  /** The flipped triple keeps exactly the rows on which `literal k column` holds. */
  lemma FlippedTripleAgrees(k: Kind, x: int, c: int)
    requires IsComparison(k)
    ensures Keeps(OperatorRepr(Flip(k)), x, c) <==> Holds(k, c, x)
  {
  }

  /**
    As written, the node `LT(5, read.x)` stores `(x, "<", 5)`, which keeps
    the row with `x == 4` that the predicate drops and drops the row with
    `x == 6` that it keeps.
   */
  lemma UnflippedTripleDisagrees()
    ensures Holds(LT, 5, 6) && !Keeps(OperatorRepr(LT), 6, 5)
    ensures !Holds(LT, 5, 4) && Keeps(OperatorRepr(LT), 4, 5)
  {
  }

  /** With explicit columns, a read's `columns` does not depend on its filters. */
  lemma ColumnsIgnoreFilters(e: Expr, f: Operand, w: World)
    requires Full(e) && e.operands[1].Lit? && !e.operands[1].v.VNone?
    ensures Columns(Expr(ReadParquet, e.operands[2 := f]), w) == Columns(e, w)
  {
    var e1 := Expr(ReadParquet, e.operands[2 := f]);
    assert SlotValue(e1, ColumnsSlot) == SlotValue(e, ColumnsSlot);
  }

  /** The read `e` with its `filters` operand set to `f`. */
  function WithFilters(e: Expr, f: Value): (r: Expr)
    requires Full(e)
    ensures Full(r)
  {
    Expr(ReadParquet, e.operands[2 := Lit(f)])
  }

  /** One filter conjoined onto none, then a second, is the pair of triples in order. */
  lemma ConjoinedPair(col: Value, k1: Kind, v1: Value, k2: Kind, v2: Value)
    requires IsComparison(k1) && IsComparison(k2)
    ensures Conjoined(VNone, col, k1, v1) == VTuple([Triple(col, k1, v1)])
    ensures Conjoined(Conjoined(VNone, col, k1, v1), col, k2, v2) == VTuple([Triple(col, k1, v1), Triple(col, k2, v2)])
  {
    assert [] + [Triple(col, k1, v1)] == [Triple(col, k1, v1)];
  }

  /** With explicit columns, absorbing a comparison into a read that carries filters `f` conjoins one triple onto `f`. */
  lemma PushOnto(e: Expr, f: Value, frame: Operand, k: Kind, v: Value, w: World)
    requires Full(e) && IsComparison(k) && (f.VNone? || f.VTuple?)
    requires e.operands[1].Lit? && !e.operands[1].v.VNone?
    requires Columns(e, w).Ok? && Columns(e, w).value != []
    ensures var e1 := WithFilters(e, f);
            SimplifyUp(e1, ComparisonFilter(frame, k, Node(e1), Lit(v)), w) ==
              Ok(Some(WithFilters(e, Conjoined(f, Columns(e, w).value[0], k, v))))
  {
    var e1 := WithFilters(e, f);
    ColumnsIgnoreFilters(e, Lit(f), w);
    PushLeft(e1, frame, k, v, w);
    assert e1.operands[2 := Lit(Conjoined(f, Columns(e, w).value[0], k, v))] ==
           e.operands[2 := Lit(Conjoined(f, Columns(e, w).value[0], k, v))];
  }

  /** Absorbing two comparisons in turn conjoins both triples, in order. */
  lemma RepeatedPushConjoins(e: Expr, frame: Operand, k1: Kind, v1: Value, k2: Kind, v2: Value, w: World)
    requires Full(e) && IsComparison(k1) && IsComparison(k2)
    requires e.operands[1].Lit? && !e.operands[1].v.VNone? && e.operands[2] == Lit(VNone)
    requires Columns(e, w).Ok? && Columns(e, w).value != []
    ensures var col := Columns(e, w).value[0];
            var e1 := WithFilters(e, VTuple([Triple(col, k1, v1)]));
            && SimplifyUp(e, ComparisonFilter(frame, k1, Node(e), Lit(v1)), w) == Ok(Some(e1))
            && SimplifyUp(e1, ComparisonFilter(frame, k2, Node(e1), Lit(v2)), w) ==
                 Ok(Some(WithFilters(e, VTuple([Triple(col, k1, v1), Triple(col, k2, v2)]))))
  {
    var col := Columns(e, w).value[0];
    ConjoinedPair(col, k1, v1, k2, v2);
    assert WithFilters(e, VNone) == e by {
      assert e.operands[2 := Lit(VNone)] == e.operands;
    }
    PushOnto(e, VNone, frame, k1, v1, w);
    PushOnto(e, Conjoined(VNone, col, k1, v1), frame, k2, v2, w);
  }

  /** Any parent other than a projection or a comparison filter is left alone. */
  lemma OtherParentsIgnored(e: Expr, parent: Expr, w: World)
    requires e.kind == ReadParquet
    requires parent.kind == Filter && OperandOf(parent, "predicate").Ok?
    requires !(OperandOf(parent, "predicate").value.Node? && IsComparison(OperandOf(parent, "predicate").value.e.kind))
    ensures SimplifyUp(e, parent, w) == Ok(None)
  {
  }
}
