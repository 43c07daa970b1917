# dask-expr expression core in Dafny

This project models the expression layer of dask-expr (`dask_match`). It
proves properties of that model with the Dafny verifier.

A dataframe computation is an immutable tree of expression nodes. Each node
has a kind, such as `Add`, `Projection`, `Head`, `FromPandas`,
`ReadParquet` or `Fused`, and a list of operands. An operand is a literal
or a child node. The node's name is a function of its kind and operands.

On top of these trees the model covers:

- **Construction.** Operands are filled from positional arguments,
  keywords and declared defaults.
- **Access.** Operands are looked up by name; `dependencies` lists the
  child nodes.
- **Rewriting.** `substitute`, the node-local `simplify` rules and the
  bottom-up `simplify` driver.
- **Matchpy rules.** The four replacement rules, written as pure rewrites.
- **Divisions and partitions.** Divisions, `npartitions`, keys and graph
  layers.
- **Graph materialisation.** `__dask_graph__` is a worklist traversal.
- **Blockwise fusion.** The pass and its driver.
- **Partitioned reads.**
  - In-memory frames (`FromPandas`): chunk locations, partition lengths
    and projection absorption.
  - Parquet (`ReadParquet`): statistics alignment, divisions, and
    projection and predicate pushdown.
  - `FromGraph`.

Modules:

| file | module | what it holds |
|---|---|---|
| wrappers.dfy | Wrappers | `Option`, `Result` and the Python exceptions as errors |
| ir.dfy | Ir | values, kinds, nodes, names, operand access, reachability |
| construct.dfy | Meta | `_ExprMeta.__call__` |
| util.dfy | Util | `_convert_to_list` |
| oracles.dfy | Oracles | the external functions the core calls (`World`) |
| match_io.dfy | MatchIO | dask_match `FromPandas` and `FromGraph` |
| expr_io.dfy | ExprIO | dask_expr `BlockwiseIO` and `FromPandas` |
| parquet.dfy | Parquet | `ReadParquet` and its helpers |
| partitions.dfy | Partitions | divisions, `npartitions`, keys |
| graph.dfy | Graph | layers and `__dask_graph__` |
| rewrite.dfy | Rewrite | `substitute`, `Projection.simplify`, `Head.simplify`, `simplify` |
| rules.dfy | Rules | the replacement rules and an evaluator that shows they keep values |
| fusion.dfy | Fusion | `optimize_blockwise_fusion` and `Fused` |

Python exceptions are the `Err` case of `Result`. Calls into code outside
the core are fields of the `World` record in `Oracles`. These include
`sorted_division_locations`, the parquet engine, `sorted_columns`,
`aggregate_row_groups`, `ndim` of a meta, and the divisions and layers of
kinds defined elsewhere. The model assumes nothing about them beyond their
types, except where a lemma names an assumption in its `requires` (such as
`AggregationAligned` and `SortedColumnsSpan` in `Parquet`).

Nodes hash by name. While fusion runs, `==` between two nodes builds a
truthy `EQ` node. So Python sets and dicts of nodes behave as if keyed by
name, and the fusion model keys its maps by `Name`.

## Model

| member | source | states |
|---|---|---|
| Ir.ParamsDistinct | dask_match/expr.py:122-125 | every kind's declared parameters are distinct, so `list.index` finds the one slot of a name |
| Ir.DefaultsDeclared | dask_match/expr.py:52-55 | every declared default belongs to a declared parameter |
| Ir.IndexOf | dask_match/expr.py:125 | `list.index`: the first position holding the item |
| Ir.OperandOf | dask_match/expr.py:122-125 | `operand(k)` is the operand at `k`'s position in `_parameters`; an undeclared name is a ValueError, a missing slot an error |
| Ir.ValueOf | dask_match/expr.py:122-125 | the literal held in a named slot; Ok exactly when `operand(k)` succeeds on a literal |
| Ir.Slot | dask_match/expr.py:116-119 | the operand in slot `i`, IndexError past the end |
| Ir.SlotValue | dask_match/expr.py:116-119 | the literal in slot `i`; a node there is a TypeError |
| Ir.IndexOfDistinct | dask_match/expr.py:125 | in a list without repeats, `index` of the `i`th item is `i` |
| Ir.OperandAtSlot | dask_match/expr.py:116-125 | looking an operand up by name is looking in the slot of the name's position |
| Ir.NodesOf | dask_match/expr.py:127-129 | the node operands (`Ir.Dependencies`): a node is listed exactly when it is an operand |
| Ir.NodesOfAppend | dask_match/expr.py:127-129 | `dependencies` distributes over concatenation, so it keeps operand order |
| Ir.NodesOfIndex | dask_match/expr.py:127-129 | a node operand at slot `i` follows exactly the nodes before it |
| Ir.IntOf | dask_match/io/io.py:66 | integer arithmetic on an operand: numbers and bools, any other value a TypeError |
| Ir.Slice | dask_match/expr.py:626 | Python slicing: in-range bounds give the sub-sequence, bounds are clamped, never longer than the input |
| Ir.PyIter | dask_match/expr.py:237 | iterating a literal: the items of a list, tuple or array; a non-iterable is an error |
| Ir.DictOf | dask_expr/io/io.py:46-47 | `dict(entries)` has exactly the keys of the entries |
| Ir.DictOfLaterWins | dask_expr/io/io.py:46-47 | a key maps to the task of its last entry: later entries win |
| Ir.TokensOf | dask_match/expr.py:255-257 | one name token per operand |
| Ir.NameInjective | dask_match/expr.py:255-257 | two plain nodes with the same name (`Ir.NameOf`) are the same node |
| Ir.TokenInjective | dask_match/expr.py:255-257 | equal operand tokens mean equal operands |
| Ir.ReachOperand | dask_match/expr.py:284-286 | what a child reaches, its parent reaches (`Ir.Reach`) |
| Ir.PlainReach | dask_match/expr.py:255-257 | every node below a plain node is plain |
| Ir.PlainUniqueNames | dask_match/expr.py:255-257 | in a plain tree two different reachable nodes never share a name |
| Ir.GetItem | dask_match/expr.py:145-149 | `expr[key]`: a node key builds a Filter, any other key a Projection, over `[expr, key]` |
| Ir.SubstituteParameters | dask_expr/io/io.py:66-69 | substituting parameters replaces the named slots only and keeps kind and length |
| Meta.FillIntended | dask_match/expr.py:52-56 | positional operands kept, each later parameter filled from its keyword or default; KeyError when one has neither, AssertionError for a leftover keyword |
| Meta.FilledUnique | dask_match/expr.py:52-56 | the filled operand list is determined by positional arguments, keywords and defaults |
| Meta.Fill | dask_match/expr.py:52-56 | the fill loop as written: it fails with KeyError as soon as a later parameter lacks a default, even when a keyword gives it; otherwise it agrees with the intended fill |
| Meta.KeywordsOf | dask_expr/io/parquet.py:154 | `dict(zip(_parameters, operands))` pairs each parameter with its operand |
| Meta.FillByKeyword | dask_expr/io/parquet.py:154-166 | passing every operand by keyword rebuilds exactly those operands |
| Meta.KeywordsUpdate | dask_expr/io/parquet.py:163-166 | overriding one keyword is replacing that operand |
| Meta.ConstructIntended | dask_match/expr.py:45-59 | construction succeeds exactly when the fill does, giving a node of that kind over the filled operands |
| Meta.PositionalAgrees | dask_match/expr.py:53-55 | with positional arguments only, construction succeeds exactly when every later parameter has a default, else KeyError |
| Meta.Construct | dask_match/expr.py:45-59 | `_ExprMeta.__call__` as written: Ok exactly when every later parameter has a default and no keyword is left over; then it equals the intended construction |
| Meta.HeadByKeyword | dask_match/expr.py:617-619 | `Head(frame=df)` is a KeyError as written and `Head(df, 5)` as intended |
| Util.ConvertToList | dask_expr/_util.py:6-15 | `None` stays `None`; a list, tuple or array gives its items in order; any other value `v` gives `[v]` |
| Util.ConvertToListIdempotent | dask_expr/_util.py:6-15 | converting an already converted column list changes nothing |
| Util.ConvertScalar | dask_expr/_util.py:13-14 | a str or int label becomes the one-element list |
| MatchIO.FloorDiv | dask_match/io/io.py:66 | Python `//`: the quotient rounded toward negative infinity |
| MatchIO.CeilDiv | dask_match/io/io.py:66 | `ceil(a / b)`: the least multiple bound, computed exactly |
| MatchIO.RangeFrom | dask_match/io/io.py:67 | `range(start, stop, step)`: starts at `start`, steps by `step`, stays before `stop`, and the next step would reach it |
| MatchIO.Range | dask_match/io/io.py:67 | a zero step is a ValueError, any other step the range |
| MatchIO.Insert | dask_match/io/io.py:58-59 | inserting into an ascending list keeps it ascending and a permutation |
| MatchIO.SortIndex | dask_match/io/io.py:58-59 | `sort_index`: ascending, and a permutation of the labels |
| MatchIO.SortIndexSorted | dask_match/io/io.py:57-59 | sorting an ascending index leaves it unchanged |
| MatchIO.SortedData | dask_match/io/io.py:57-59 | the frame re-ordered by index only when not ascending: ascending, same labels, same columns, unchanged when already ascending |
| MatchIO.SortedDataIsSortIndex | dask_match/io/io.py:57-59 | the monotonicity check only saves work: the result is the sorted index |
| MatchIO.DivisionsAndLocations | dask_match/io/io.py:52-69 | `MatchIO.DivisionsAndLocationsOf` reads the operands and calls it; sorted: `sorted_division_locations` of the sorted index; unsorted: TypeError for a non-number and ZeroDivisionError for zero partitions, else the chunk locations and one `None` per location |
| MatchIO.UnsortedChunking | dask_match/io/io.py:65-68 | unsorted with rows: locations start at 0, step by `ceil(nrows/npartitions)`, end at `nrows`, and there are at most `npartitions` chunks |
| MatchIO.ChunkCuts | dask_match/io/io.py:67 | the multiples of the chunk below `nrows`, then `nrows`, cut the rows into consecutive slices |
| MatchIO.RangeCount | dask_match/io/io.py:66-67 | at most `npartitions` chunk starts fit below `nrows` |
| MatchIO.MultiplesOf | dask_match/io/io.py:67 | the `i`th chunk start is `i * chunk` |
| MatchIO.PiecesReassemble | dask_match/io/io.py:77-79 | the tasks' row slices, in order, give back every row once |
| MatchIO.PiecesFrom | dask_match/io/io.py:77-79 | slices between increasing locations concatenate to the rows from the first location |
| MatchIO.Ascending | dask_match/io/io.py:67 | consecutive increase gives increase between any two locations |
| MatchIO.Task | dask_match/io/io.py:77-79 | `_task(i)`: the rows between locations `i` and `i+1`; `MatchIO.TaskOf` reads the operands and calls it |
| MatchIO.PandasSlots | dask_match/io/io.py:45 | `frame`, `npartitions` and `sort` are looked up in slots 0, 1 and 2 |
| MatchIO.FrameOf | dask_match/io/io.py:54 | the `frame` operand must be a pandas object |
| MatchIO.FromPandasDefaults | dask_match/io/io.py:45-46 | `FromPandas(df)` has one partition and `sort=True` |
| MatchIO.UnsortedTasks | dask_match/io/io.py:65-79 | an unsorted read's tasks are its chunks: each has at most `ceil(nrows/npartitions)` rows and together they are the frame |
| MatchIO.FromGraphMeta | dask_match/io/io.py:23-25 | `_meta` is the `_meta` operand verbatim |
| MatchIO.FromGraphDivisions | dask_match/io/io.py:27-28 | `divisions` is the `divisions` operand as a tuple; a missing or non-iterable operand is an error |
| MatchIO.FromGraphName | dask_match/io/io.py:30-32 | succeeds exactly when the `_name` operand is a literal, and is then that operand verbatim, which is the node's name |
| MatchIO.FromGraphLayer | dask_expr/io/io.py:46-47 | `_layer` is a dict copy of the `layer` operand |
| ExprIO.FromPandasSlots | dask_expr/io/io.py:127 | `columns`, `_partitions` and `_series` are looked up in slots 3, 4 and 5 |
| ExprIO.Columns | dask_expr/io/io.py:145-154 | a `None` operand gives the frame's columns, or `[]` for a Series; otherwise `_convert_to_list` of the operand |
| ExprIO.SelectColumns | dask_expr/io/io.py:142 | `t[cols]` succeeds exactly when every label is a column of a DataFrame, else KeyError |
| ExprIO.SelectColumn | dask_expr/io/io.py:142 | `t[label]` succeeds exactly when the label is a column, giving a Series |
| ExprIO.MetaOf | dask_expr/io/io.py:138-143 | the empty frame, keeping the frame's columns when the operand is `None` |
| ExprIO.AbsorbProjection | dask_expr/io/io.py:53-69 | only an absorbing read under a Projection answers; it declines when the column sets agree and no Series is made, else substitutes `columns` and maybe `_series` |
| ExprIO.AbsorbProjectionOperands | dask_expr/io/io.py:60-69 | the replacement has `columns := list(parent columns)`, `_series` set exactly when a scalar label turns a DataFrame read into a Series, every other operand kept |
| ExprIO.ProjectionSubsSlots | dask_expr/io/io.py:66-69 | the substitution keeps the kind and the operand count |
| ExprIO.ProjectionSubsTouched | dask_expr/io/io.py:66-69 | `columns` takes the list and `_series` becomes true exactly when asked |
| ExprIO.ProjectionSubsKeep | dask_expr/io/io.py:66-69 | every slot other than `columns` and `_series` is untouched |
| ExprIO.KeptLengths | dask_expr/io/io.py:184-188 | unfiltered, one length per partition, each `locations[i+1] - locations[i]`; `ExprIO.PartitionLengths` is this list for the read's locations and selection |
| ExprIO.SelectedIndices | dask_expr/io/io.py:186-187 | the partitions `i` with `i in _partitions`, each in range and listed, in increasing order |
| ExprIO.SelectedIndicesComplete | dask_expr/io/io.py:186-187 | every selected partition in range is listed |
| ExprIO.KeptLengthsSelected | dask_expr/io/io.py:184-188 | filtered, the lengths are exactly those of the selected partitions, in partition order |
| ExprIO.FilteredLen | dask_expr/io/io.py:196-199 | `Len` over a filtered read with a selected partition simplifies to the total length of exactly the selected partitions |
| ExprIO.KeptLengthsSum | dask_expr/io/io.py:184-188 | the unfiltered lengths add up to the last location minus the first |
| ExprIO.LengthCache.constructor | dask_expr/io/io.py:135 | a read starts with no memoised lengths |
| ExprIO.LengthCache.GetLengths | dask_expr/io/io.py:181-189 | `_get_lengths` returns the partition lengths, memoises them, and never changes a memo once set |
| ExprIO.SimplifyUp | dask_expr/io/io.py:191-203 | under `Lengths` with non-empty lengths: a literal tuple of them; under `Len`: a literal of their sum; under Projection: projection absorption |
| ExprIO.LenIsRowCount | dask_expr/io/io.py:197-200 | `Len` over an unfiltered, unsorted, non-empty read simplifies to the frame's row count |
| ExprIO.UnfilteredLocations | dask_expr/io/io.py:175-188 | an unfiltered, unsorted read's locations cut its frame, and its lengths are those of the cuts |
| ExprIO.NPartitions | dask_expr/io/io.py:208-212 | unfiltered: `len(divisions) - 1`; filtered: the number of selected partitions |
| ExprIO.NPartitionsCountsLengths | dask_expr/io/io.py:181-212 | unfiltered, there is one partition length per partition |
| ExprIO.FilteredTask | dask_expr/io/io.py:217-223 | rows `[locations[i], locations[i+1])` of the frame, or of the sorted frame when `sort`; the task is that slice narrowed to the columns |
| ExprIO.Narrowed | dask_expr/io/io.py:219-223 | no columns: the part itself; columns and `_series`: the first column as a Series; columns without `_series`: those columns; rows are always kept, and a failing `columns` is an error |
| ExprIO.SortedDataLength | dask_expr/io/io.py:156-161 | sorting keeps the row count |
| ExprIO.FilteredTasksReassemble | dask_expr/io/io.py:217-223 | unfiltered, unsorted, no columns: the tasks in order give back the frame's rows |
| ExprIO.SortLabels | dask_expr/io/io.py:96 | `sorted(set)`: ascending with the same labels; mixing numbers and strings is a TypeError |
| ExprIO.Sorted | dask_expr/io/io.py:96 | sorting comparable labels gives an ascending list of the same labels |
| ExprIO.ColumnsOperand | dask_expr/io/io.py:86-88 | the `columns` operand, or the read's columns when it is `None` |
| ExprIO.LabelsOf | dask_expr/io/io.py:89 | `set(columns_operand)`: every label must be hashable |
| ExprIO.Accumulate | dask_expr/io/io.py:89-95 | the union holds the base labels and each alike read's labels; `ExprIO.Union` sorts it |
| ExprIO.FindExact | dask_expr/io/io.py:106-112 | the first op whose columns equal the union and that is not a Series, or none |
| ExprIO.Rebuild | dask_expr/io/io.py:114-119 | the read widened to the union (`ExprIO.Widened`), then re-projected to the original columns, or the first column for a Series (`ExprIO.Reproject`) |
| ExprIO.CombineSimilar | dask_expr/io/io.py:71-121 | nothing without alike reads; bails exactly when the union equals the current columns and (several columns or not a Series); else reuses an exact read or builds the widened one |
| ExprIO.UnionCoversAll | dask_expr/io/io.py:84-96 | the sorted union covers this read's and every alike read's columns |
| Parquet.ListColumns | dask_expr/io/parquet.py:23-29 | str or int gives a singleton list, a tuple a list of its items, anything else unchanged |
| Parquet.ListColumnsIdempotent | dask_expr/io/parquet.py:23-29 | normalising twice is normalising once |
| Parquet.KeepNonEmpty | dask_expr/io/parquet.py:37-47 | keeps the pairs with rows, in order, with equal lengths; nothing dropped when all have rows |
| Parquet.KeepNonEmptySingle | dask_expr/io/parquet.py:43-45 | a single pair is kept exactly when its statistics count rows |
| Parquet.KeepNonEmptyAppend | dask_expr/io/parquet.py:41-47 | filtering distributes over concatenation, so the result is exactly the pairs with rows, in order |
| Parquet.KeepNonEmptyRows | dask_expr/io/parquet.py:37-47 | dropping empty fragments keeps the row total |
| Parquet.AlignStatistics | dask_expr/io/parquet.py:32-48 | empty or mismatched statistics: parts unchanged and statistics dropped; else exactly the non-empty pairs |
| Parquet.AlignedRows | dask_expr/io/parquet.py:32-48 | alignment keeps the row total, and keeps statistics exactly when the total is positive |
| Parquet.Digits | dask_expr/io/parquet.py:61 | decimal digits parse only from a non-empty string |
| Parquet.PyInt | dask_expr/io/parquet.py:61 | `int(v)`: numbers as they are, an unparsable string a ValueError |
| Parquet.AggregateRowGroups | dask_expr/io/parquet.py:51-65 | no statistics: unchanged; with a blocksize or more than one row group per split: the engine's aggregation |
| Parquet.FirstSorted | dask_expr/io/parquet.py:76-81 | the divisions of the first sorted column in the index, found exactly when one is |
| Parquet.ProcessColumns | dask_expr/io/parquet.py:73-74 | the index only when it names exactly one column |
| Parquet.CalculateDivisions | dask_expr/io/parquet.py:68-83 | `(None,) * (npartitions + 1)` with no statistics, with `calculate_divisions=False`, without a one-column index or with no sorted column found; an error from the index is propagated; otherwise the divisions of the first sorted column |
| Parquet.PlanOf | dask_expr/io/parquet.py:269-309 | Ok exactly when the aggregated parts and the divisions are; the plan's statistics are the aggregated ones; the identity function exactly when fewer than two divisions are computed, else `_read_partition` over the aggregated parts and the computed divisions; a plan has at least two divisions |
| Parquet.EmptyDatasetPlan | dask_expr/io/parquet.py:286-290 | a dataset with no parts plans `(None, None)`, the identity function and the single part meta |
| Parquet.PlanDivisionsCountParts | dask_expr/io/parquet.py:277-290 | with an engine that keeps parts and statistics aligned, one more division than parts |
| Parquet.Divisions | dask_expr/io/parquet.py:311-312 | `_divisions` are the plan's |
| Parquet.NamedSlots | dask_expr/io/parquet.py:89-107 | `path`, `columns`, `filters` and `_series` are looked up in slots 0, 1, 2 and 16 |
| Parquet.MetaOf | dask_expr/io/parquet.py:261-267 | the dataset's meta, or for a Series read the meta's one column |
| Parquet.FirstItem | dask_expr/io/parquet.py:265 | `v[0]` of a non-empty list, tuple or array |
| Parquet.Columns | dask_expr/io/parquet.py:131-139 | the meta's columns for a `None` operand, else the operand's list form |
| Parquet.PyIndex | dask_expr/io/parquet.py:315 | `xs[i]` with negative indices from the end, IndexError outside |
| Parquet.FilteredTask | dask_expr/io/parquet.py:314-318 | the plan's function on part `i`, with the first column picked for a Series read |
| Parquet.EmptyPlanTask | dask_expr/io/parquet.py:286-290 | the empty plan has one task, which returns the meta |
| Parquet.Len | dask_expr/io/parquet.py:324-328 | the statistics' row total when there are statistics and no filters, else the inherited length |
| Parquet.LenCountsAllFragments | dask_expr/io/parquet.py:276-328 | without aggregation and filters, `_len` is the row total of all fragments |
| Parquet.PlanStatsAligned | dask_expr/io/parquet.py:276-280 | without aggregation the plan's statistics are the aligned ones |
| Parquet.AppendFilter | dask_expr/io/parquet.py:163-165 | `(filters or ()) + (triple,)`; a truthy non-tuple is a TypeError |
| Parquet.Flip | dask_expr/io/parquet.py:173 | the swapped comparison; its operator differs exactly for the order comparisons |
| Parquet.FlipInvolutive | dask_expr/io/parquet.py:173 | flipping twice is the identity |
| Parquet.SetOperand | dask_expr/io/parquet.py:143-148 | replacing an operand that exists, IndexError otherwise |
| Parquet.SimplifyUp | dask_expr/io/parquet.py:141-181 | as written: only Projection and Filter parents can be absorbed |
| Parquet.SimplifyUpFlipped | dask_expr/io/parquet.py:167-181 | with the right-side operator flipped: only Projection and Filter parents can be absorbed |
| Parquet.RebuildByKeyword | dask_expr/io/parquet.py:154-166 | rebuilding a full read by keyword, one operand replaced, gives those operands |
| Parquet.AddFilterFull | dask_expr/io/parquet.py:154-166 | `Parquet.AddFilter` on a full read replaces `filters` and nothing else |
| Parquet.ProjectionOperands | dask_expr/io/parquet.py:142-149 | `Parquet.AbsorbProjection` replaces `columns` with its list form and sets `_series` for a str or int label; nothing else changes |
| Parquet.ComparisonOperands | dask_expr/io/parquet.py:155-158 | a comparison's `left` and `right` are its two operands |
| Parquet.SamePathSelf | dask_expr/io/parquet.py:156-157 | a read has the same path as itself |
| Parquet.PushFilterLeft | dask_expr/io/parquet.py:155-166 | a same-path read on the left and a literal on the right add `(columns[0], op, literal)` |
| Parquet.PushFilterRight | dask_expr/io/parquet.py:167-181 | a same-path read on the right adds `(columns[0], op, literal)`, column first |
| Parquet.AppendConjoins | dask_expr/io/parquet.py:163-165 | appending to `None` or a tuple of filters conjoins the triple |
| Parquet.AbsorbComparison | dask_expr/io/parquet.py:151-153 | `Parquet.Absorb` sends a Filter whose predicate is a comparison to predicate pushdown |
| Parquet.PushStep | dask_expr/io/parquet.py:151-181 | pushing one comparison rebuilds the read with one more triple |
| Parquet.PushLeft | dask_expr/io/parquet.py:155-166 | `Parquet.PushFilter`, read on the left: `filters` gains `(columns[0], op, literal)`, nothing else changes |
| Parquet.PushRightAsWritten | dask_expr/io/parquet.py:167-181 | as written, a read on the right is stored with the operator unchanged |
| Parquet.PushRightFlipped | dask_expr/io/parquet.py:172-181 | with the flip, a read on the right is stored with the swapped operator |
| Parquet.FlippedTripleAgrees | dask_expr/io/parquet.py:172-175 | the flipped triple keeps exactly the rows where `literal op column` holds |
| Parquet.UnflippedTripleDisagrees | dask_expr/io/parquet.py:173-175 | for the node `LT(5, col)` (a read on the right) the unflipped triple keeps `4` and drops `6` |
| Parquet.ColumnsIgnoreFilters | dask_expr/io/parquet.py:131-139 | explicit columns do not depend on the filters |
| Parquet.ConjoinedPair | dask_expr/io/parquet.py:163-165 | two conjoined filters are the pair of triples in order |
| Parquet.PushOnto | dask_expr/io/parquet.py:163-166 | absorbing into a read with filters `f` conjoins one triple onto `f` |
| Parquet.RepeatedPushConjoins | dask_expr/io/parquet.py:163-166 | absorbing two comparisons in turn conjoins both triples, in order |
| Parquet.OtherParentsIgnored | dask_expr/io/parquet.py:141-181 | a Filter parent whose predicate is not a comparison gets no replacement |
| Partitions.Deps | dask_match/expr.py:970-971 | `dependencies()`: a Fused node lists `operands[1:]`, every other kind its node operands |
| Partitions.BroadcastDep | dask_match/expr.py:351-358 | a BlockwiseArg is never broadcast; any other kind but a dask_match `FromPandas` is broadcast exactly when it has one partition and lower ndim |
| Partitions.BroadcastByOperand | dask_match/expr.py:351-358 | a dask_match `FromPandas` is broadcast exactly when its `npartitions` operand equals `1` (int `1` or `True`) and its ndim is lower, as `dep.npartitions == 1` reads the operand |
| Partitions.OneRowNotBroadcast | dask_match/expr.py:351-358 | a one-row dask_match read asked for two unsorted partitions has one partition, yet it is not broadcast, because its `npartitions` operand is 2 |
| Partitions.NPartitionsAsWritten | dask_match/expr.py:247-253 | the `npartitions` operand when declared, else `len(divisions) - 1` |
| Partitions.NPartitionsAgree | dask_match/expr.py:247-253 | without an `npartitions` operand, the two definitions agree |
| Partitions.NPartitionsOverCounts | dask_match/expr.py:249-251 | 4 unsorted rows with `npartitions=3` have 2 partitions, but the operand says 3 |
| Partitions.PandasPartitions | dask_match/io/io.py:71-72 | a dask_match read has the divisions of its chunking, and one partition fewer |
| Partitions.ThreeRowsInTwoChunks | dask_match/io/io.py:65-68 | 4 unsorted rows asked for 3 partitions give 3 divisions |
| Partitions.Keys | dask_match/expr.py:290-291 | `__dask_keys__` is exactly `[(name, i) for i < npartitions]`, where `Partitions.NPartitions` is the corrected count `len(divisions) - 1` of `Partitions.Divisions` (the selected count for a filtered dask_expr read) |
| Partitions.KeysArePartitions | dask_match/expr.py:290-291 | a key is listed exactly when it names partition `i < npartitions`; keys are distinct |
| Partitions.AgreeSound | dask_match/expr.py:366-368 | when the assertion loop passes, every later non-broadcast dependency has the first one's divisions |
| Partitions.AgreeAt | dask_match/expr.py:366-368 | a passing assertion loop settles each later dependency: it is broadcast, or it has the first one's divisions |
| Partitions.AgreeFails | dask_match/expr.py:366-368 | a later non-broadcast dependency with other divisions makes the loop an AssertionError |
| Partitions.BlockwiseDivisionsAgree | dask_match/expr.py:360-369 | Blockwise divisions are the first dependency's, and every non-broadcast dependency has them |
| Partitions.BlockwiseDivisionsMismatch | dask_match/expr.py:360-369 | a non-broadcast dependency with other divisions makes the divisions an AssertionError |
| Partitions.ProjectionDivisions | dask_match/expr.py:542-543 | Projection and ProjectIndex keep their frame's divisions |
| Partitions.HeadDivisions | dask_match/expr.py:625-626 | Head has the first two of its frame's divisions, hence one partition and the one key `(name, 0)` |
| Partitions.FusedDivisions | dask_match/expr.py:967-971 | `Fused(group, *deps)` has `group[0]`'s divisions and exactly `deps` as dependencies |
| Partitions.FusedFirst | dask_match/expr.py:967-968 | a Fused node has the divisions of its first member |
| Partitions.BlockwiseArgDivisions | dask_match/expr.py:445-446 | one unknown division per lookup entry plus one: unknown divisions, one partition per entry |
| Partitions.UnsortedDivisionsUnknown | dask_match/expr.py:242-245 | an unsorted in-memory read has unknown divisions |
| Graph.LookupItems | dask_match/expr.py:448-449 | indexing a BlockwiseArg indexes its `lookup` operand: a list, tuple or array by its items, a string by its characters; any other value a TypeError (see Left out) |
| Graph.SourceFor | dask_match/expr.py:386-392 | a broadcast dependency feeds `(dep, 0)`, a BlockwiseArg its lookup entry, any other its partition |
| Graph.Sources | dask_match/expr.py:386-392 | one source per dependency, in order |
| Graph.TaskFor | dask_match/expr.py:403-411 | one argument per dependency |
| Graph.LayerIsBlockwise | dask_match/expr.py:385-412 | `Graph.Layer` gives the Blockwise kinds `Blockwise._layer` |
| Graph.BlockwiseLayerKeys | dask_match/expr.py:403-412 | `Graph.BlockwiseLayer` has exactly the keys of `__dask_keys__` |
| Graph.BlockwiseLayerTasks | dask_match/expr.py:403-411 | task `i` takes `(dep, 0)` from a broadcast dependency, `(dep, i)` from a partitioned one, `lookup[i]` from a BlockwiseArg |
| Graph.HeadLayerSingle | dask_match/expr.py:628-631 | `Graph.HeadLayer` emits one task, keyed `(name, 0)`, on partition 0 of its frame |
| Graph.FusedChainTasks | dask_match/tests/test_collection.py:148-156 | a Fused node over a group whose first member has N partitions emits exactly N tasks |
| Graph.ReachTransitive | dask_match/expr.py:284-286 | reachability is transitive |
| Graph.ReachDependency | dask_match/expr.py:284-286 | a child of a reachable node is reachable |
| Graph.ClosedHoldsReach | dask_match/expr.py:276-286 | a set closed under dependencies holds everything reachable |
| Graph.VisitedAll | dask_match/expr.py:276-286 | with unique names, the traversal visits every reachable node |
| Graph.MergeSound | dask_match/expr.py:288 | merging a layer, later keys winning, keeps each key's task that of a visited layer |
| Graph.MergeComplete | dask_match/expr.py:288 | merging a layer keeps every visited layer's keys |
| Graph.VisitStep | dask_match/expr.py:279-283 | a node with a new name keeps the visited names distinct |
| Graph.Materialize | dask_match/expr.py:271-288 | the traversal visits reachable nodes with distinct names; every visited layer's keys are in the graph, and every key carries a visited layer's task |
| Graph.DaskGraph | dask_match/expr.py:271-288 | `__dask_graph__`: with unique names, every reachable node's layer is in the graph, and every task comes from one |
| Rewrite.Substitute | dask_match/expr.py:293-328 | an empty map returns the node; a key node is replaced by its value; otherwise the node rebuilt by the operand loop, of the same kind |
| Rewrite.Rebuild | dask_match/expr.py:312-328 | the operand loop's result: unchanged when no operand changed, else the kind rebuilt over the new operands, exactly those for a full operand list; the kind is kept |
| Rewrite.SubstituteFrom | dask_match/expr.py:314-324 | one new operand per old one: a key's value, a child node rebuilt, or the operand kept; a key among them marks a change |
| Rewrite.SubstituteOperand | dask_match/expr.py:315-323 | one operand's replacement: a key's value (a change), a child node rebuilt, or the operand itself |
| Rewrite.ConstructSaturated | dask_match/expr.py:327 | rebuilding from a full operand list gives back that node |
| Rewrite.SubstituteIdentity | dask_match/expr.py:306-328 | `substitute({})`, or with no key below the node, returns the node itself |
| Rewrite.RebuildIdentity | dask_match/expr.py:312-328 | without keys below, the operand loop gives back the node |
| Rewrite.FromIdentity | dask_match/expr.py:314-324 | without keys below, the operands come back unchanged and the update flag stays false |
| Rewrite.SubstituteFixed | dask_match/expr.py:306-328 | substituting every key by itself leaves a full tree unchanged |
| Rewrite.RebuildFixed | dask_match/expr.py:312-328 | with keys mapped to themselves, rebuilding gives back the node |
| Rewrite.FromFixed | dask_match/expr.py:314-324 | with keys mapped to themselves, the operands come back unchanged |
| Rewrite.ProjectionSimplify | dask_match/expr.py:562-575 | only `df[a][b]` merges, into `df[b]`, and only when the assertion holds |
| Rewrite.MergeSubList | dask_match/expr.py:570-575 | `b` a sub-list of `a` merges into `df[b]` |
| Rewrite.MergeRejects | dask_match/expr.py:570-571 | a label of `b` not in `a` is an AssertionError |
| Rewrite.MergedSelectionAgrees | dask_match/expr.py:562-575 | for two label lists, the assertion holds exactly when `t[a][b]` is defined, and then `t[a][b] == t[b]` |
| Rewrite.MergedLabelAgrees | dask_match/expr.py:572-575 | a single label merges exactly when it is in `a`, and `t[a][c] == t[c]` |
| Rewrite.HeadEach | dask_match/expr.py:635-638 | one operand per operand |
| Rewrite.HeadDistributes | dask_match/expr.py:633-641 | `Rewrite.HeadSimplify` over an Elemwise frame: every node operand `op` becomes `Head(op, n)` and literals stay; otherwise the Head is kept |
| Rewrite.HeadPushdownDivisions | dask_match/expr.py:625-641 | pushing a Head below a Projection keeps the divisions, the first two of the frame's |
| Rewrite.LocalStep | dask_match/expr.py:131-132 | kinds without their own `simplify` return the node |
| Rewrite.StepShrinks | dask_match/expr.py:810-818 | a local step that changes the name lowers (rank, size), so the local loop ends |
| Rewrite.ProjectionShrinks | dask_match/expr.py:570-575 | a merged projection is smaller than the two projections it replaces, and is not a Head |
| Rewrite.HeadSimplifyKind | dask_match/expr.py:633-641 | Head simplification leaves the node as it is or rebuilds the frame's kind, never a Head |
| Rewrite.Simplify | dask_match/expr.py:788-832 | a non-node returns unchanged; unchanged means the same operand; a node result has no step left anywhere; a normal tree within the fuel returns unchanged |
| Rewrite.LocalFixpoint | dask_match/expr.py:810-818 | the node's own rewrites run until its name stops changing: the result has no step left at the root, equals the input when nothing changed, and a node with no step returns unchanged |
| Rewrite.SimplifyOperands | dask_match/expr.py:820-824 | every operand is simplified in turn: same length, each node operand comes back normal, unchanged when no operand changed, and unchanged when every operand is already normal within the fuel |
| Rewrite.NormalWithinNormal | dask_match/expr.py:788-832 | a tree with no step anywhere down to the fuel's depth has no step anywhere |
| Rules.Combine | dask_match/expr.py:673-746 | a binary operator on values fails exactly for two frames of different lengths |
| Rules.Select | dask_match/expr.py:536-554 | `frame[labels]` needs every label to be a column |
| Rules.Kept | dask_match/expr.py:518-520 | filtering by a mask never adds rows |
| Rules.Mask | dask_match/expr.py:518-520 | `frame[mask]` needs a mask frame of the same length |
| Rules.AddSelf | dask_match/expr.py:679-684 | the rule fires exactly on `Add(x, x)` |
| Rules.DoubleFrame | dask_match/expr.py:681-682 | adding a frame to itself is multiplying it by 2 |
| Rules.AddSelfPreserves | dask_match/expr.py:679-684 | `Add(x, x)` and `Mul(2, x)` have the same value, errors included |
| Rules.MulFold | dask_match/expr.py:699-709 | the rule fires only on the pattern `Mul(a, Mul(b, c))` |
| Rules.MulFoldMatches | dask_match/expr.py:703-706 | it fires exactly when both factors are numbers |
| Rules.ScaleTwice | dask_match/expr.py:708 | scaling by `b` then `a` is scaling by `a*b` |
| Rules.MulFoldPreserves | dask_match/expr.py:699-709 | the fold keeps the value, errors included |
| Rules.BinopProjection | dask_match/expr.py:652-670 | `(a op b)[c]` becomes `a[c] op b[c]`, projecting only node sides |
| Rules.RestrictZip | dask_match/expr.py:658-665 | narrowing commutes with an operator between two frames |
| Rules.RestrictLeft | dask_match/expr.py:658-665 | narrowing commutes with a number on the left |
| Rules.RestrictRight | dask_match/expr.py:658-665 | narrowing commutes with a number on the right |
| Rules.SelectCombine | dask_match/expr.py:658-665 | selecting from `x op y` is `x[c] op y[c]` |
| Rules.ProjectedArg | dask_match/expr.py:659-663 | a node side is projected, a literal side keeps its number |
| Rules.BinopProjectionPreserves | dask_match/expr.py:652-670 | the rewrite keeps the value of every projection that has one |
| Rules.FilterProjection | dask_match/expr.py:528-533 | `Filter(df, cond)[cols]` becomes `df[cols][cond]` |
| Rules.RestrictKept | dask_match/expr.py:531-532 | narrowing commutes with filtering by a mask |
| Rules.FilterProjectionPreserves | dask_match/expr.py:528-533 | the rewrite keeps the value of every projection that has one |
| Fusion.AddByName | dask_match/expr.py:862-865 | adding to a set of nodes: the names grow by the new one, nothing else is added |
| Fusion.Lookup | dask_match/expr.py:883 | a dict lookup by name, KeyError when missing |
| Fusion.Record | dask_match/expr.py:853-865 | recording one visited node keeps the maps consistent, marks it as a dependent of each of its Blockwise operands, records only real consumers, and (for a Blockwise node) gives it a dependency set naming its Blockwise operands while leaving other sets alone |
| Fusion.Collect | dask_match/expr.py:843-866 | the collection walk records only reachable Blockwise nodes; every visited node is a dependent of its Blockwise operands, and every recorded dependent consumes the node; every visited Blockwise node has its Blockwise operands among its dependencies; with unique names it visits every reachable node |
| Fusion.Roots | dask_match/expr.py:870-874 | a node is a root exactly when it is recorded and none of its dependents is Blockwise |
| Fusion.RequeueAsWritten | dask_match/expr.py:895 | as written: with roots pending the test is false; otherwise true exactly when the node has dependencies |
| Fusion.RequeueIntended | dask_match/expr.py:895 | as intended: true exactly when the node's name is not a root and it has dependencies; KeyError only when missing |
| Fusion.RequeueMissed | dask_match/expr.py:895 | with another root pending, a node with its own dependencies is requeued only by the intended test |
| Fusion.FindGroup | dask_match/expr.py:876-898 | with the corrected requeue test (`Fusion.RequeueIntended`): the group starts at the root and has distinct names; every later member is a recorded dependency all of whose dependents are in the group; the roots list only grows, by recorded dependencies; and every dependency of a member whose recorded dependents all lie among the members up to that one joins the group (`JoinsConsumed`), so the root's single-consumer dependencies always join |
| Fusion.TakeDependencies | dask_match/expr.py:888-898 | the inner loop over one member's dependencies: the stack and roots only grow, what is pushed is recorded, and each dependency whose dependents all lie in the group is pushed |
| Fusion.ChainEndIsRoot | dask_match/expr.py:843-874 | with unique names, a Blockwise node without Blockwise consumers is among the collected roots |
| Fusion.SoleDependencyRecorded | dask_match/expr.py:853-865 | with unique names, a Blockwise dependency consumed by one node alone is recorded as that node's dependency with that node as its only dependent |
| Fusion.GroupTakesSole | dask_match/expr.py:886-893 | a group that takes a dependency of another name than its root has more than one member |
| Fusion.ChainKept | dask_match/expr.py:876-899 | after one root's walk, the end of a fusable chain either was that root, whose group then has more than one member, or is still queued |
| Fusion.RequeuedRoots | dask_match/expr.py:895-897 | roots handed back by the walk are still reachable Blockwise nodes |
| Fusion.ExternalCovers | dask_match/expr.py:901-909 | the external dependencies are exactly the members' dependencies with non-local names |
| Fusion.ExternalDeps | dask_match/expr.py:901-909 | the loop collects the external dependencies member by member, in order |
| Fusion.FusedBehaves | dask_match/expr.py:967-971 | the fused node has its first member's divisions and exactly the external dependencies |
| Fusion.GroupIsFusable | dask_match/expr.py:876-899 | a found group of more than one member is fusable: Blockwise, reachable, distinct names, and with unique names no outside node consumes a later member |
| Fusion.FuseGroup | dask_match/expr.py:900-912 | the group's first member is replaced by the `Fused` node over the group and its external dependencies; the result is a node exactly when the replacement succeeds, and a failed replacement's error comes back unchanged |
| Fusion.FusionPass | dask_match/expr.py:841-914 | with the corrected requeue test: a pass either fuses a fusable group of more than one member, done exactly when no roots are left, or returns the expression unchanged and done; the roots left are reachable Blockwise nodes; and with unique names, if some Blockwise node with no Blockwise consumer has a Blockwise dependency that only it consumes (`ChainEnd`), a successful pass fuses a group |
| Fusion.StepsSnoc | dask_match/expr.py:916-920 | a trace of passes extends by one pass |
| Fusion.StepsAll | dask_match/expr.py:916-920 | every step of a trace is a pass |
| Fusion.ProgressingSnoc | dask_match/expr.py:919-920 | a pass that is not done and changes the name extends the progress |
| Fusion.ProgressingPrefix | dask_match/expr.py:919-920 | the last pass need not make progress |
| Fusion.TracedPass | dask_match/expr.py:917-920 | one pass of the driver loop: an error leaves the trace as it was; otherwise the trace grows by the pass's outcome, and the loop stops exactly when the pass was done or left the name unchanged, with progress recorded when it goes on |
| Fusion.Extend | dask_match/expr.py:917-920 | a further pass keeps the trace a chain of passes from the same start, with its last entry the pass's result |
| Fusion.OptimizeBlockwiseFusion | dask_match/expr.py:916-922 | the driver's trace is a chain of passes; every pass but the last was not done and changed the name; the result is the last expression, reached by a done or unchanged pass |

## Left out

- Names: `tokenize` and `funcname` are not modelled. A name is the kind with the operands' tokens; the `operation` function's name is replaced by the kind, so Projection and Filter, which share `getitem`, get different prefixes.
- `SubgraphCallable`, `apply` and the `M.*` task tuples are not modelled. A task is its list of arguments (key references and literals).
- `_meta`, `ndim` and dtypes are not computed. `ndim` comes from the `World` record; a meta is a table of index labels and columns.
- A Python set is modelled as a list in insertion order without two members of the same name. The model does not capture the order in which a real set is iterated.
- Python's `1 == True` in sets and dict keys is not modelled. Literal equality is structural.
- Rewrite.Substitute: substitution keys are compared structurally. Python looks node keys up by name, which gives the same answer for plain trees (Ir.PlainUniqueNames).
- Rewrite.ProjectionSimplify: a projection over a literal frame (no node) is a TypeError here.
- The layers of kinds defined outside the core, such as Literal, Len and Lengths, come from the `World` record.
- Rewrite.Simplify: the recursion on a rebuilt node has no structural measure, so a fuel parameter bounds it. Running out of fuel is a RecursionError; Python would keep going.
- Fusion.FusionPass: fuel bounds the roots loop, and running out is a RecursionError. In Python the loop ends because every requeued node is a dependency of a member of the current root's group, so it lies strictly below that root in the expression DAG; a node can be requeued again after it is popped, but only from a root above it.
- Fusion.OptimizeBlockwiseFusion: a pass count bounds the driver loop, and running out is a RecursionError. Python's loop may run until a pass is done or leaves the name unchanged.
- matchpy's `replace_all` engine, the `_defer_to_matchpy` toggle and `optimize` are not modelled. The rules are modelled as one-node rewrites.
- The `_ExprMeta` rule collection into `replacement_rules` is not modelled.
- Parquet.PyInt: `int(split_row_groups)` parses decimal strings only, without surrounding whitespace or underscores.
- ExprIO.SortLabels: labels are ordered only among integers (bools as 0 and 1) or among strings.
- ExprIO.CombineSimilar: the caller supplies `alike`. `_find_similar_operations` lives in a module that is not part of this model.
- Parquet.RepeatedPushConjoins: requires explicit columns, because with a `None` columns operand the columns come from the dataset meta the `World` supplies.
- When several errors are possible, the model raises the first in its own evaluation order, which may differ from Python's.
- Rules: `Eval` intersects the column sets of two frames and keeps integer cells. `Rules.Combine` pairs two frames row by row and gives a ValueError when their lengths differ, where pandas aligns them on the index. True division goes through the `Env` record. A mask row keeps its row when all its cells are non-zero.
- Graph.LookupItems: only a list, tuple, array or string lookup is indexed; `self.lookup[index]` on a dict or DataFrame (by key or column) is a TypeError in the model. Every BlockwiseArg the core builds wraps a list (dask_match/expr.py:388).
- Rules.BinopProjectionPreserves: requires that every node side evaluates to a frame. A node side that is a number would give an error after the rewrite, where `number[c]` has no projection.
- Rules.FilterProjection: fires only when `df` is a node. A literal `df[cols]` is outside the model.
- Rewrite.HeadDistributes: when the frame has no node operands, the `n` operand is never read.
- Rewrite.MergedLabelAgrees: requires a single label, not a list.
- `PartitionsFiltered._filtered`/`_partitions`, `substitute_parameters`, `Literal` and `Lengths` are defined in `dask_expr/_expr.py`, which is not part of this model. They are specified by what the IO code relies on.
- Partitions.Keys: uses the corrected count `len(divisions) - 1` for a dask_match `FromPandas`, where dask_match/expr.py:249-251 returns the `npartitions` operand. With 4 unsorted rows and `npartitions=3`, the source lists 3 keys and the model 2 (Partitions.NPartitionsOverCounts).
- Graph.BlockwiseLayer: emits one task per partition of the same corrected count, where dask_match/expr.py:411 iterates over the `npartitions` operand for a dask_match `FromPandas`.
- Partitions.EqualsOne: a node held in the `npartitions` slot counts as unequal to `1`, since the overloaded `==` on nodes is not modelled there, and a float `1.0` is a `VOpaque` (see Ir.Value).
- Parquet.AddFilter: rebuilds the read through the intended construction (Meta.ConstructIntended). The dask_expr constructor lives in `dask_expr/_expr.py`, which is not part of this model; if it fills keywords as dask_match does, `ReadParquet(**kwargs)` is a KeyError, because `path` has no default.
- Parquet.AbsorbProjection: rebuilds the read through Meta.ConstructIntended. dask_expr/io/parquet.py:149 passes every operand positionally, where the intended and the as-written fill agree (Meta.PositionalAgrees).
- Ir.Value: there is no float case. A float literal is a `VOpaque`, so Rules.MulFold does not fire on `Mul(0.5, Mul(2, x))`, and float divisions and statistics are not represented.
- Reductions, Concat, Repartition, GroupBy, the collection wrappers, categorical accessors and the parquet engine's internals are not part of this model.

## Findings

| source | as written | input that shows it | evidently intended | confidence | as-written member | corrected member |
|---|---|---|---|---|---|---|
| dask_match/expr.py:54-55 | `kwargs.pop(parameter, cls._defaults[parameter])` evaluates the default before popping, so a required parameter passed by keyword raises KeyError | `Head(frame=df)` | take the keyword when given and the default only otherwise | high, not executed | Meta.HeadByKeyword | Meta.ConstructIntended |
| dask_expr/io/parquet.py:173-175 | the flip dict is keyed by class but looked up with the predicate instance, so the operator is never flipped | the node `LT(5, df.a)`, built directly, stores `("a", "<", 5)`, which keeps `a = 4` and drops `a = 6`; the operator `5 < df.a` is evaluated as `GT(df.a, 5)` and stored correctly, and `EQ`/`NE` are symmetric | store `("a", ">", 5)` | medium (reached only by a directly built node), not executed | Parquet.UnflippedTripleDisagrees | Parquet.FlippedTripleAgrees |
| dask_match/expr.py:249-251 | `npartitions` returns the operand for dask_match FromPandas, while unsorted chunking may give fewer partitions | 4 rows, `npartitions=3`, `sort=False`: chunks of 2, so 2 partitions, but `npartitions` is 3; likewise 1 row with `npartitions=2` is one partition that `_broadcast_dep` does not broadcast (Partitions.OneRowNotBroadcast) | `len(divisions) - 1`, as the dask_expr override does at dask_expr/io/io.py:208-212 | high, not executed | Partitions.NPartitionsOverCounts | Partitions.PandasPartitions |
| dask_match/expr.py:895 | `dep not in roots` compares nodes with the overloaded `==`, whose `EQ` node is truthy, so any non-empty `roots` seems to hold every node | roots `[r1, r2]`: walking `r2`'s group, a dependency with another Blockwise consumer and its own dependencies is not requeued | requeue exactly when the name is not already a root | medium (relies on matchpy operations being truthy), not executed | Fusion.RequeueMissed | Fusion.RequeueIntended |
