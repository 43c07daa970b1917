/**
  The in-memory and graph leaves of dask_match/io/io.py: partition planning
  for a pandas frame (`FromPandas`) and the pass-through accessors of
  `FromGraph`. The chunking arithmetic here is shared with the dask_expr
  `FromPandas`, whose `_divisions_and_locations` is the same code.
 */
module MatchIO {
  import opened Wrappers
  import opened Ir
  import opened Oracles
  import Meta

  // ---------------------------------------------------------------------
  // Python integer arithmetic and `range`
  // ---------------------------------------------------------------------

  /** Python's `a // b` (rounds toward negative infinity). */
  function FloorDiv(a: int, b: int): (q: int)
    requires b != 0
    ensures b > 0 ==> q * b <= a < q * b + b
    ensures b < 0 ==> q * b >= a > q * b + b
  {
    if b > 0 then a / b else (-a) / (-b)
  }

  /** `math.ceil(a / b)`, computed exactly. */
  function CeilDiv(a: int, b: int): (r: int)
    requires b != 0
    ensures b > 0 ==> r * b - b < a <= r * b
    ensures b < 0 ==> r * b <= a < r * b - b
  {
    -FloorDiv(-a, b)
  }

  /** `list(range(start, stop, step))` for a non-zero step. */
  function RangeFrom(start: int, stop: int, step: int): (r: seq<int>)
    requires step != 0
    ensures |r| > 0 ==> r[0] == start
    ensures forall i :: 0 <= i < |r| - 1 ==> r[i + 1] == r[i] + step
    ensures step > 0 ==> forall i :: 0 <= i < |r| ==> start <= r[i] < stop
    ensures step > 0 ==> (if |r| == 0 then start else r[|r| - 1] + step) >= stop
    ensures step < 0 ==> forall i :: 0 <= i < |r| ==> stop < r[i] <= start
    ensures step < 0 ==> (if |r| == 0 then start else r[|r| - 1] + step) <= stop
    decreases if step > 0 then stop - start else start - stop
  {
    if (step > 0 && start < stop) || (step < 0 && start > stop) then [start] + RangeFrom(start + step, stop, step)
    else []
  }

  /** `list(range(0, stop, step))`: a zero step raises ValueError. */
  function Range(stop: int, step: int): (r: Result<seq<int>>)
    ensures r.Err? <==> step == 0
    ensures r.Err? ==> r.error == ValueError
    ensures r.Ok? ==> r.value == RangeFrom(0, stop, step)
  {
    if step == 0 then Err(ValueError) else Ok(RangeFrom(0, stop, step))
  }

  // ---------------------------------------------------------------------
  // Sorting the index (`sort_index` when not `is_monotonic_increasing`)
  // ---------------------------------------------------------------------

  predicate NonDecreasing(s: seq<int>) {
    forall i, j :: 0 <= i < j < |s| ==> s[i] <= s[j]
  }

  function Insert(x: int, s: seq<int>): (r: seq<int>)
    requires NonDecreasing(s)
    ensures NonDecreasing(r)
    ensures multiset(r) == multiset(s) + multiset{x}
    ensures |s| > 0 && x <= s[0] ==> r == [x] + s
  {
    if s == [] || x <= s[0] then [x] + s
    else
      var t := Insert(x, s[1..]);
      assert s == [s[0]] + s[1..];
      LowerBound(s[0], t, s[1..], x);
      [s[0]] + t
  }

  /** A bound on every element survives into a permutation that adds one larger element. */
  lemma LowerBound(a: int, t: seq<int>, rest: seq<int>, x: int)
    requires multiset(t) == multiset(rest) + multiset{x}
    requires a <= x && forall y :: y in rest ==> a <= y
    requires NonDecreasing(t)
    ensures NonDecreasing([a] + t)
  {
    forall j | 0 <= j < |t|
      ensures a <= t[j]
    {
      assert t[j] in multiset(t);
      if t[j] != x {
        assert t[j] in multiset(rest);
        assert t[j] in rest;
      }
    }
  }

  /** The labels of an index in ascending order. */
  function SortIndex(xs: seq<int>): (r: seq<int>)
    ensures NonDecreasing(r)
    ensures multiset(r) == multiset(xs)
  {
    if xs == [] then []
    else
      assert xs == [xs[0]] + xs[1..];
      Insert(xs[0], SortIndex(xs[1..]))
  }

  /** Sorting an index that is already ascending leaves it as it is. */
  lemma {:induction false} SortIndexSorted(xs: seq<int>)
    requires NonDecreasing(xs)
    ensures SortIndex(xs) == xs
  {
    if xs != [] {
      SortIndexSorted(xs[1..]);
      assert xs == [xs[0]] + xs[1..];
    }
  }

  /** `_sorted_data`: the frame, re-ordered by index only when the index is not already ascending. */
  function SortedData(t: Table): (r: Table)
    ensures NonDecreasing(r.index) && multiset(r.index) == multiset(t.index)
    ensures r.columns == t.columns
    ensures NonDecreasing(t.index) ==> r == t
  {
    if NonDecreasing(t.index) then t else Table(SortIndex(t.index), t.columns)
  }

  /** The monotonicity check only saves work: the result is always the sorted index. */
  lemma SortedDataIsSortIndex(t: Table)
    ensures SortedData(t).index == SortIndex(t.index)
  {
    if NonDecreasing(t.index) {
      SortIndexSorted(t.index);
    }
  }

  // ---------------------------------------------------------------------
  // Divisions and locations (`_divisions_and_locations`)
  // ---------------------------------------------------------------------

  /** The unsorted chunk size `ceil(nrows / npartitions)`. */
  function ChunkSize(nrows: nat, npartitions: int): int
    requires npartitions != 0
  {
    CeilDiv(nrows, npartitions)
  }

  /**
    `_divisions_and_locations` of a frame. Sorted: the ascending index goes to
    `sorted_division_locations`. Unsorted: locations are the multiples of
    `ceil(nrows / npartitions)` below `nrows`, then `nrows`, and every
    division is unknown.
   */
  function DivisionsAndLocations(frame: Table, npartitions: Value, sort: Value, w: World): (r: Result<DivisionsLocations>)
    ensures Truthy(sort) ==> r == Ok(w.sortedDivisionLocations(SortedData(frame).index, npartitions))
    ensures !Truthy(sort) && !IsNumber(npartitions) ==> r == Err(TypeError)
    ensures !Truthy(sort) && IsNumber(npartitions) && NumberOf(npartitions) == 0 ==> r == Err(ZeroDivisionError)
    ensures !Truthy(sort) && IsNumber(npartitions) && NumberOf(npartitions) != 0 ==>
              var chunk := ChunkSize(|frame.index|, NumberOf(npartitions));
              && (chunk == 0 <==> r.Err?)
              && (chunk == 0 ==> r == Err(ValueError))
              && (r.Ok? ==>
                    && r.value.locations == RangeFrom(0, |frame.index|, chunk) + [|frame.index|]
                    && |r.value.divisions| == |r.value.locations|
                    && forall i :: 0 <= i < |r.value.divisions| ==> r.value.divisions[i] == VNone)
  {
    if Truthy(sort) then
      Ok(w.sortedDivisionLocations(SortedData(frame).index, npartitions))
    else
      var n :- IntOf(npartitions);
      if n == 0 then Err(ZeroDivisionError)
      else
        var nrows := |frame.index|;
        var starts :- Range(nrows, ChunkSize(nrows, n));
        var locations := starts + [nrows];
        Ok(DivisionsLocations(seq(|locations|, _ => VNone), locations))
  }

  /** Locations that cut `0..n` into consecutive slices. */
  predicate Cuts(locs: seq<int>, n: int) {
    && |locs| >= 1
    && locs[0] == 0
    && locs[|locs| - 1] == n
    && (forall i :: 0 <= i < |locs| ==> 0 <= locs[i] <= n)
    && forall i :: 0 <= i < |locs| - 1 ==> locs[i] < locs[i + 1]
  }

  /**
    The unsorted chunking of a non-empty frame into a positive number of
    partitions: the locations cut the rows into slices of `chunk` rows, the
    last possibly shorter, and there are at most `npartitions` of them.
   */
  lemma {:induction false} UnsortedChunking(nrows: nat, npartitions: int)
    requires nrows > 0 && npartitions > 0
    ensures var chunk := ChunkSize(nrows, npartitions);
            var locs := RangeFrom(0, nrows, chunk) + [nrows];
            && chunk > 0
            && Cuts(locs, nrows)
            && (forall i :: 0 <= i < |locs| - 2 ==> locs[i + 1] - locs[i] == chunk)
            && locs[|locs| - 1] - locs[|locs| - 2] <= chunk
            && |locs| - 1 <= npartitions
  {
    var chunk := ChunkSize(nrows, npartitions);
    assert nrows <= chunk * npartitions;
    PositiveFactor(chunk, npartitions, nrows);
    ChunkCuts(nrows, chunk);
    RangeCount(RangeFrom(0, nrows, chunk), chunk, nrows, npartitions);
  }

  /** The multiples of a positive `chunk` below `nrows`, then `nrows`, cut the rows into slices of `chunk`, the last possibly shorter. */
  lemma ChunkCuts(nrows: nat, chunk: int)
    requires nrows > 0 && chunk > 0
    ensures var locs := RangeFrom(0, nrows, chunk) + [nrows];
            && Cuts(locs, nrows)
            && (forall i :: 0 <= i < |locs| - 2 ==> locs[i + 1] - locs[i] == chunk)
            && locs[|locs| - 1] - locs[|locs| - 2] <= chunk
  {
    var starts := RangeFrom(0, nrows, chunk);
    assert |starts| > 0;
    var locs := starts + [nrows];
    assert forall i :: 0 <= i < |starts| ==> locs[i] == starts[i];
    forall i | 0 <= i < |locs| - 1
      ensures locs[i] < locs[i + 1]
    {
      if i < |starts| - 1 {
        assert locs[i + 1] == starts[i + 1];
      }
    }
  }

  lemma PositiveFactor(a: int, b: int, c: int)
    requires b > 0 && 0 < c <= a * b
    ensures a > 0
  {
  }

  /** `m` multiples of `chunk` below `nrows <= npartitions * chunk` number at most `npartitions`. */
  lemma RangeCount(starts: seq<int>, chunk: int, nrows: int, npartitions: int)
    requires chunk > 0 && npartitions > 0 && nrows <= npartitions * chunk
    requires |starts| > 0 && starts[0] == 0
    requires forall i :: 0 <= i < |starts| - 1 ==> starts[i + 1] == starts[i] + chunk
    requires forall i :: 0 <= i < |starts| ==> starts[i] < nrows
    ensures |starts| <= npartitions
  {
    var k := |starts| - 1;
    MultiplesOf(starts, chunk);
    assert starts[k] == k * chunk;
    if npartitions <= k {
      ScaledAtMost(npartitions, k, chunk);
    }
  }

  /** Scaling by a positive chunk keeps the order. */
  lemma ScaledAtMost(a: int, b: int, chunk: int)
    requires a <= b && chunk > 0
    ensures a * chunk <= b * chunk
  {
    assert b * chunk == a * chunk + (b - a) * chunk;
  }

  lemma {:induction false} MultiplesOf(starts: seq<int>, chunk: int)
    requires |starts| > 0 && starts[0] == 0
    requires forall i :: 0 <= i < |starts| - 1 ==> starts[i + 1] == starts[i] + chunk
    ensures forall i :: 0 <= i < |starts| ==> starts[i] == i * chunk
  {
    if |starts| > 1 {
      var init := starts[..|starts| - 1];
      MultiplesOf(init, chunk);
      var k := |starts| - 1;
      assert starts[k] == starts[k - 1] + chunk == (k - 1) * chunk + chunk;
    }
  }

  // ---------------------------------------------------------------------
  // Partition tasks
  // ---------------------------------------------------------------------

  /** The concatenation of the row slices between consecutive locations. */
  function Pieces(rows: seq<int>, locs: seq<int>): seq<int>
    requires forall i :: 0 <= i < |locs| ==> 0 <= locs[i] <= |rows|
    requires forall i :: 0 <= i < |locs| - 1 ==> locs[i] <= locs[i + 1]
  {
    if |locs| < 2 then [] else rows[locs[0]..locs[1]] + Pieces(rows, locs[1..])
  }

  /** Partitions cut at the locations, read in order, give back every row exactly once. */
  lemma {:induction false} PiecesReassemble(rows: seq<int>, locs: seq<int>)
    requires Cuts(locs, |rows|)
    ensures Pieces(rows, locs) == rows
  {
    PiecesFrom(rows, locs);
  }

  lemma {:induction false} PiecesFrom(rows: seq<int>, locs: seq<int>)
    requires |locs| >= 1 && 0 <= locs[0] && locs[|locs| - 1] == |rows|
    requires forall i :: 0 <= i < |locs| - 1 ==> locs[i] < locs[i + 1]
    ensures forall i :: 0 <= i < |locs| ==> 0 <= locs[i] <= |rows|
    ensures Pieces(rows, locs) == rows[locs[0]..]
    decreases |locs|
  {
    Ascending(locs);
    if |locs| >= 2 {
      PiecesFrom(rows, locs[1..]);
      assert rows[locs[0]..] == rows[locs[0]..locs[1]] + rows[locs[1]..];
    }
  }

  lemma {:induction false} Ascending(locs: seq<int>)
    requires forall i :: 0 <= i < |locs| - 1 ==> locs[i] < locs[i + 1]
    ensures forall i, j :: 0 <= i < j < |locs| ==> locs[i] < locs[j]
    decreases |locs|
  {
    if |locs| > 1 {
      Ascending(locs[1..]);
      forall i, j | 0 <= i < j < |locs|
        ensures locs[i] < locs[j]
      {
        if i > 0 {
          assert locs[i] == locs[1..][i - 1] && locs[j] == locs[1..][j - 1];
        } else if j > 1 {
          assert locs[1] == locs[1..][0] && locs[j] == locs[1..][j - 1];
        }
      }
    }
  }

  /** `_task(index)`: rows `[locations[index], locations[index + 1])` of the frame as given. */
  function Task(frame: Table, locations: seq<int>, index: int): (r: Result<Table>)
    ensures 0 <= index && index + 2 <= |locations| && 0 <= locations[index] <= locations[index + 1] <= |frame.index| ==>
              r == Ok(Table(frame.index[locations[index]..locations[index + 1]], frame.columns))
    ensures |Slice(locations, index, index + 2)| != 2 <==> r.Err?
    ensures r.Err? ==> r.error == ValueError
  {
    var bounds := Slice(locations, index, index + 2);
    if |bounds| != 2 then Err(ValueError)
    else Ok(Table(Slice(frame.index, bounds[0], bounds[1]), frame.columns))
  }

  // ---------------------------------------------------------------------
  // The FromPandas node (operands frame, npartitions, sort)
  // ---------------------------------------------------------------------

  /** dask_match's FromPandas or dask-expr's: both begin with the parameters `frame`, `npartitions`, `sort`. */
  predicate PandasRead(k: Kind) {
    k == MatchFromPandas || k == FromPandas
  }

  /** Positions in `_parameters` of `frame`, `npartitions` and `sort`. */
  const FrameSlot: nat := 0
  const NPartitionsSlot: nat := 1
  const SortSlot: nat := 2

  /** Looking up `frame`, `npartitions` and `sort` by name finds the operands in those slots. */
  lemma PandasSlots(e: Expr)
    requires PandasRead(e.kind)
    ensures ValueOf(e, "frame") == SlotValue(e, FrameSlot)
    ensures ValueOf(e, "npartitions") == SlotValue(e, NPartitionsSlot)
    ensures ValueOf(e, "sort") == SlotValue(e, SortSlot)
  {
    var ps := Params(e.kind);
    assert ps[FrameSlot] == "frame" && ps[NPartitionsSlot] == "npartitions" && ps[SortSlot] == "sort";
    OperandAtSlot(e, FrameSlot);
    OperandAtSlot(e, NPartitionsSlot);
    OperandAtSlot(e, SortSlot);
  }

  /** The `frame` operand, which must hold a pandas object. */
  function FrameOf(e: Expr): (r: Result<Table>)
    requires PandasRead(e.kind)
    ensures r.Ok? <==> SlotValue(e, FrameSlot).Ok? && SlotValue(e, FrameSlot).value.VFrame?
    ensures r.Ok? ==> SlotValue(e, FrameSlot) == Ok(VFrame(r.value))
  {
    var v :- SlotValue(e, FrameSlot);
    if v.VFrame? then Ok(v.table) else Err(AttributeError)
  }

  function DivisionsAndLocationsOf(e: Expr, w: World): Result<DivisionsLocations>
    requires PandasRead(e.kind)
  {
    var frame :- FrameOf(e);
    var npartitions :- SlotValue(e, NPartitionsSlot);
    var sort :- SlotValue(e, SortSlot);
    DivisionsAndLocations(frame, npartitions, sort, w)
  }

  function TaskOf(e: Expr, w: World, index: int): Result<Table>
    requires PandasRead(e.kind)
  {
    var frame :- FrameOf(e);
    var dl :- DivisionsAndLocationsOf(e, w);
    Task(frame, dl.locations, index)
  }

  /** `FromPandas(df)` is built with one partition, sorted. */
  lemma FromPandasDefaults(df: Table)
    ensures Meta.ConstructIntended(MatchFromPandas, [Lit(VFrame(df))], map[]) ==
            Ok(Expr(MatchFromPandas, [Lit(VFrame(df)), Lit(VInt(1)), Lit(VBool(true))]))
  {
    var r := Meta.ConstructIntended(MatchFromPandas, [Lit(VFrame(df))], map[]);
    assert Meta.AllSupplied(Params(MatchFromPandas), Defaults(MatchFromPandas), 1, map[]);
    assert r.Ok?;
    var ps := Params(MatchFromPandas);
    assert ps[1] == "npartitions" && ps[2] == "sort";
    assert r.value.operands[1] == Lit(VInt(1)) && r.value.operands[2] == Lit(VBool(true));
    assert r.value.operands[0] == r.value.operands[..1][0];
    assert |r.value.operands| == 3 && r.value.kind == MatchFromPandas;
    assert r.value.operands == [Lit(VFrame(df)), Lit(VInt(1)), Lit(VBool(true))];
  }

  /**
    Unsorted, the tasks of a non-empty frame are its consecutive row slices,
    so reading them in order gives back every row of the frame.
   */
  lemma UnsortedTasks(e: Expr, w: World)
    requires e.kind == MatchFromPandas
    requires FrameOf(e).Ok? && |FrameOf(e).value.index| > 0
    requires SlotValue(e, SortSlot).Ok? && !Truthy(SlotValue(e, SortSlot).value)
    requires SlotValue(e, NPartitionsSlot).Ok? && SlotValue(e, NPartitionsSlot).value.VInt? && SlotValue(e, NPartitionsSlot).value.i > 0
    ensures DivisionsAndLocationsOf(e, w).Ok?
    ensures var frame := FrameOf(e).value;
            var locs := DivisionsAndLocationsOf(e, w).value.locations;
            && Cuts(locs, |frame.index|)
            && Pieces(frame.index, locs) == frame.index
            && forall i :: 0 <= i < |locs| - 1 ==>
                 TaskOf(e, w, i) == Ok(Table(frame.index[locs[i]..locs[i + 1]], frame.columns))
  {
    var frame := FrameOf(e).value;
    var nv := SlotValue(e, NPartitionsSlot).value;
    var sort := SlotValue(e, SortSlot).value;
    UnsortedChunking(|frame.index|, nv.i);
    var dl := DivisionsAndLocations(frame, nv, sort, w);
    assert dl.Ok? && dl.value.locations == RangeFrom(0, |frame.index|, ChunkSize(|frame.index|, nv.i)) + [|frame.index|];
    assert DivisionsAndLocationsOf(e, w) == dl;
    var locs := dl.value.locations;
    PiecesReassemble(frame.index, locs);
    forall i | 0 <= i < |locs| - 1
      ensures TaskOf(e, w, i) == Ok(Table(frame.index[locs[i]..locs[i + 1]], frame.columns))
    {
      assert 0 <= locs[i] <= locs[i + 1] <= |frame.index|;
    }
  }

  // ---------------------------------------------------------------------
  // FromGraph (operands layer, _meta, divisions, _name)
  // ---------------------------------------------------------------------

  /** `_meta` is the `_meta` operand, verbatim. */
  function FromGraphMeta(e: Expr): (r: Result<Value>)
    ensures r.Ok? <==> OperandOf(e, "_meta").Ok? && OperandOf(e, "_meta").value.Lit?
    ensures r.Ok? ==> OperandOf(e, "_meta") == Ok(Lit(r.value))
  {
    ValueOf(e, "_meta")
  }

  /** `divisions` is `tuple` of the `divisions` operand. */
  function FromGraphDivisions(e: Expr): (r: Result<seq<Value>>)
    ensures r.Ok? ==> OperandOf(e, "divisions").Ok? && OperandOf(e, "divisions").value.Lit?
    ensures r.Ok? ==> r == PyIter(OperandOf(e, "divisions").value.v)
    ensures ValueOf(e, "divisions").Ok? ==> r == PyIter(ValueOf(e, "divisions").value)
    ensures ValueOf(e, "divisions").Err? ==> r.Err?
  {
    var d :- ValueOf(e, "divisions");
    PyIter(d)
  }

  /** `_name` is the `_name` operand, verbatim. */
  function FromGraphName(e: Expr): (r: Result<Name>)
    requires e.kind == FromGraph
    ensures r.Ok? <==> ValueOf(e, "_name").Ok?
    ensures ValueOf(e, "_name").Ok? ==> r == Ok(Given(ValueOf(e, "_name").value))
    ensures r.Ok? ==> r.value.Given? && r.value == NameOf(e) && OperandOf(e, "_name") == Ok(Lit(r.value.v))
  {
    var v :- ValueOf(e, "_name");
    Ok(Given(v))
  }

  /** `_layer` is (a dict copy of) the `layer` operand. */
  function FromGraphLayer(e: Expr): (r: Result<map<Key, Task>>)
    ensures r.Ok? <==> ValueOf(e, "layer").Ok? && ValueOf(e, "layer").value.VLayer?
    ensures r.Ok? ==> r.value == DictOf(ValueOf(e, "layer").value.tasks)
  {
    var v :- ValueOf(e, "layer");
    if v.VLayer? then Ok(DictOf(v.tasks)) else Err(TypeError)
  }
}
