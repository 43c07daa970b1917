/**
  The code the core calls but does not define: metadata inference, dask's
  `sorted_division_locations`, and the parquet engine. Each is a field of a
  `World`, so every property proved here holds for every behaviour of that
  code, except where a lemma states the assumption it needs.
 */
module Oracles {
  import opened Ir

  /** The statistics of one parquet fragment: its `num-rows`, and the column statistics `sorted_columns` reads. */
  datatype FragmentStats = FragmentStats(numRows: int, columnStats: Value)

  /** One entry of `sorted_columns`: a column whose fragments are sorted, and the divisions they imply. */
  datatype SortedColumn = SortedColumn(name: Value, divisions: seq<Value>)

  /**
    The entries of a parquet `dataset_info` that the planning code reads:
    the inferred meta, the index columns, `kwargs["calculate_divisions"]`
    (`VNone` when absent), `split_row_groups` and `blocksize`.
   */
  datatype DatasetInfo = DatasetInfo(
    meta: Table,
    index: Value,
    calculateDivisions: Value,
    splitRowGroups: Value,
    blocksize: Value)

  /** Parts and statistics, as the engine's collection plan returns them. */
  datatype PartsAndStats = PartsAndStats(parts: seq<Value>, stats: seq<FragmentStats>)

  /** Divisions and row locations from `sorted_division_locations`. */
  datatype DivisionsLocations = DivisionsLocations(divisions: seq<Value>, locations: seq<int>)

  datatype World = World(
    /** `ndim` of a node's meta (0 when the meta has none). */
    ndim: Expr -> int,
    /** `sorted_division_locations(index, npartitions=..., chunksize=None)`. */
    sortedDivisionLocations: (seq<int>, Value) -> DivisionsLocations,
    /** `ReadParquet._dataset_info`: filesystem and engine inspection of a read. */
    datasetInfo: Expr -> DatasetInfo,
    /** `engine._construct_collection_plan(dataset_info)`. */
    collectionPlan: DatasetInfo -> PartsAndStats,
    /** dask's `aggregate_row_groups`. */
    aggregateRowGroups: (PartsAndStats, DatasetInfo) -> PartsAndStats,
    /** dask's `sorted_columns(statistics, columns=...)`. */
    sortedColumns: (seq<FragmentStats>, seq<Value>) -> seq<SortedColumn>,
    /** Divisions of the kinds defined outside the core (Literal, Len, Lengths). */
    opaqueDivisions: Expr -> seq<Value>,
    /** Graph layers of the kinds defined outside the core. */
    opaqueLayer: Expr -> map<Key, Task>,
    /** `len` of a ReadParquet without statistics (the inherited `_len`). */
    fallbackLen: Expr -> int)
}
