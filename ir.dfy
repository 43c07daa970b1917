/**
  The expression IR of dask_match/expr.py, shared by the dask_expr IO leaves.

  A node is a kind with an ordered list of operands; an operand is a literal,
  a child node, or (for Fused only) a list of nodes. Nodes are values: a
  rewrite builds a new node and never changes an old one.
 */
module Ir {
  import opened Wrappers

  /** A Python literal operand, reduced to what the core inspects. */
  datatype Value =
    | VNone
    | VBool(b: bool)
    | VInt(i: int)
    | VStr(s: string)
    | VList(items: seq<Value>)
    | VTuple(items: seq<Value>)
    | VArray(items: seq<Value>)            // an array-like with a dtype (numpy array, pandas Index)
    | VDict(entries: seq<(Value, Value)>)
    | VFrame(table: Table)                 // an in-memory pandas object
    | VLayer(tasks: seq<(Key, Task)>)      // a ready-made task-graph layer
    | VOpaque(tag: string)                 // a callable, a dtype, or another object never inspected

  /**
    A pandas object as the core sees it: its row index labels and, for a
    DataFrame, its column labels (a Series has no `columns`).
   */
  datatype Table = Table(index: seq<int>, columns: Option<seq<Value>>)

  datatype Kind =
    | Projection | Filter | Head | ProjectIndex | AsType | Apply | Assign
    | Add | Sub | Mul | Div | LT | LE | GT | GE | EQ | NE
    | BlockwiseArg | Fused
    | FromGraph | MatchFromPandas | FromPandas | ReadParquet
    | Literal | Len | Lengths

  datatype Operand = Lit(v: Value) | Node(e: Expr) | Group(es: seq<Expr>)

  datatype Expr = Expr(kind: Kind, operands: seq<Operand>)

  /**
    A content-addressed name. `Given` is a name taken verbatim from an operand
    (FromGraph, a named BlockwiseArg); `Content` stands for
    `kind-tokenize(operands)`, where a child node contributes its own name.
   */
  datatype Name = Given(v: Value) | Content(kind: Kind, tokens: seq<Token>)

  datatype Token = TValue(v: Value) | TName(n: Name) | TNames(ns: seq<Name>)

  /** A task key `(name, i)`. */
  datatype Key = Key(name: Name, part: int)

  /** A task argument: the output of another key, or a literal. */
  datatype Arg = Ref(key: Key) | Const(v: Value)

  type Task = seq<Arg>

  // ---------------------------------------------------------------------
  // Kinds: class hierarchy, declared parameters and defaults
  // ---------------------------------------------------------------------

  predicate IsBinop(k: Kind) {
    k in {Add, Sub, Mul, Div, LT, LE, GT, GE, EQ, NE}
  }

  predicate IsComparison(k: Kind) {
    k in {LT, LE, GT, GE, EQ, NE}
  }

  predicate IsElemwise(k: Kind) {
    IsBinop(k) || k in {Projection, ProjectIndex, AsType, Apply, Assign}
  }

  predicate IsBlockwise(k: Kind) {
    IsElemwise(k) || k in {Filter, Fused, MatchFromPandas, FromPandas, ReadParquet}
  }

  /** `_operator_repr` of a binary operator. */
  function OperatorRepr(k: Kind): string
    requires IsBinop(k)
  {
    match k
    case Add => "+"
    case Sub => "-"
    case Mul => "*"
    case Div => "/"
    case LT => "<"
    case LE => "<="
    case GT => ">"
    case GE => ">="
    case EQ => "=="
    case NE => "!="
  }

  /** `_parameters` of each kind. Literal, Len and Lengths are stand-ins with one operand. */
  function Params(k: Kind): seq<string> {
    match k
    case Projection => ["frame", "columns"]
    case Filter => ["frame", "predicate"]
    case Head => ["frame", "n"]
    case ProjectIndex => ["frame"]
    case AsType => ["frame", "dtypes"]
    case Apply => ["frame", "function", "args", "kwargs"]
    case Assign => ["frame", "key", "value"]
    case BlockwiseArg => ["lookup", "name"]
    case Fused => ["exprs"]
    case FromGraph => ["layer", "_meta", "divisions", "_name"]
    case MatchFromPandas => ["frame", "npartitions", "sort"]
    case FromPandas => ["frame", "npartitions", "sort", "columns", "_partitions", "_series"]
    case ReadParquet =>
      ["path", "columns", "filters", "categories", "index", "storage_options",
       "gather_statistics", "ignore_metadata_file", "metadata_task_size",
       "split_row_groups", "blocksize", "aggregate_files", "parquet_file_extension",
       "filesystem", "kwargs", "_partitions", "_series"]
    case Literal => ["value"]
    case Len => ["frame"]
    case Lengths => ["frame"]
    case _ => ["left", "right"]
  }

  /** `_defaults` of each kind. */
  function Defaults(k: Kind): map<string, Value> {
    match k
    case Head => map["n" := VInt(5)]
    case Apply => map["args" := VTuple([]), "kwargs" := VDict([])]
    case BlockwiseArg => map["name" := VNone]
    case MatchFromPandas => map["npartitions" := VInt(1), "sort" := VBool(true)]
    case FromPandas =>
      map["npartitions" := VInt(1), "sort" := VBool(true), "columns" := VNone,
          "_partitions" := VNone, "_series" := VBool(false)]
    case ReadParquet =>
      map["columns" := VNone, "filters" := VNone, "categories" := VNone, "index" := VNone,
          "storage_options" := VNone, "gather_statistics" := VBool(true),
          "ignore_metadata_file" := VBool(false), "metadata_task_size" := VNone,
          "split_row_groups" := VStr("infer"), "blocksize" := VStr("default"),
          "aggregate_files" := VNone,
          "parquet_file_extension" := VTuple([VStr(".parq"), VStr(".parquet"), VStr(".pq")]),
          "filesystem" := VStr("fsspec"), "kwargs" := VNone, "_partitions" := VNone,
          "_series" := VBool(false)]
    case _ => map[]
  }

  predicate Distinct<T(==)>(xs: seq<T>) {
    forall i, j :: 0 <= i < j < |xs| ==> xs[i] != xs[j]
  }

  lemma ParamsDistinct(k: Kind)
    ensures Distinct(Params(k))
  {
  }

  /** Every declared default belongs to a declared parameter. */
  lemma DefaultsDeclared(k: Kind)
    ensures forall p :: p in Defaults(k) ==> p in Params(k)
  {
  }

  /** Position of the first occurrence of `x` in `xs` (Python `list.index`). */
  function IndexOf<T(==)>(xs: seq<T>, x: T): (r: nat)
    requires x in xs
    ensures r < |xs| && xs[r] == x
    ensures forall j :: 0 <= j < r ==> xs[j] != x
  {
    if xs[0] == x then 0 else 1 + IndexOf(xs[1..], x)
  }

  // ---------------------------------------------------------------------
  // Operand access and dependencies (expr.py:122-129)
  // ---------------------------------------------------------------------

  /** `operand(key)`: the operand in the slot of parameter `key`. */
  function OperandOf(e: Expr, key: string): (r: Result<Operand>)
    ensures key !in Params(e.kind) ==> r == Err(ValueError)
    ensures r.Ok? <==> exists i :: 0 <= i < |Params(e.kind)| && i < |e.operands| && Params(e.kind)[i] == key
    ensures r.Ok? ==> forall i :: 0 <= i < |Params(e.kind)| && Params(e.kind)[i] == key ==>
                        i < |e.operands| && r.value == e.operands[i]
    ensures r.Err? && key in Params(e.kind) ==> r == Err(IndexError)
  {
    ParamsDistinct(e.kind);
    if key !in Params(e.kind) then Err(ValueError)
    else
      var i := IndexOf(Params(e.kind), key);
      if i < |e.operands| then Ok(e.operands[i]) else Err(IndexError)
  }

  /** The literal in the slot of parameter `key`; a child node there is a type error. */
  function ValueOf(e: Expr, key: string): (r: Result<Value>)
    ensures r.Ok? <==> OperandOf(e, key).Ok? && OperandOf(e, key).value.Lit?
    ensures r.Ok? ==> OperandOf(e, key).value == Lit(r.value)
  {
    var op :- OperandOf(e, key);
    if op.Lit? then Ok(op.v) else Err(TypeError)
  }

  /** The operand in slot `i`, the one `operand(name)` finds for the parameter at position `i`. */
  function Slot(e: Expr, i: nat): (r: Result<Operand>)
    ensures r.Ok? <==> i < |e.operands|
    ensures r.Ok? ==> r.value == e.operands[i]
    ensures r.Err? ==> r.error == IndexError
  {
    if i < |e.operands| then Ok(e.operands[i]) else Err(IndexError)
  }

  /** The literal in slot `i`; a child node there is a type error. */
  function SlotValue(e: Expr, i: nat): (r: Result<Value>)
    ensures r.Ok? <==> i < |e.operands| && e.operands[i].Lit?
    ensures r.Ok? ==> e.operands[i] == Lit(r.value)
    ensures r.Err? && i < |e.operands| ==> r.error == TypeError
  {
    var op :- Slot(e, i);
    if op.Lit? then Ok(op.v) else Err(TypeError)
  }

  /** In a list of distinct names, a name's position is where it stands. */
  lemma {:induction false} IndexOfDistinct<T>(xs: seq<T>, i: nat)
    requires Distinct(xs) && i < |xs|
    ensures IndexOf(xs, xs[i]) == i
  {
    if i > 0 {
      assert xs[0] != xs[i];
      assert xs[1..][i - 1] == xs[i];
      IndexOfDistinct(xs[1..], i - 1);
    }
  }

  /** Looking an operand up by name is looking in the slot of the name's position. */
  lemma OperandAtSlot(e: Expr, i: nat)
    requires i < |Params(e.kind)|
    ensures OperandOf(e, Params(e.kind)[i]) == Slot(e, i)
    ensures ValueOf(e, Params(e.kind)[i]) == SlotValue(e, i)
  {
    ParamsDistinct(e.kind);
    IndexOfDistinct(Params(e.kind), i);
  }

  /** The node operands, in order. */
  function NodesOf(ops: seq<Operand>): (r: seq<Expr>)
    ensures |r| <= |ops|
    ensures forall d :: d in r <==> Node(d) in ops
  {
    if ops == [] then []
    else (if ops[0].Node? then [ops[0].e] else []) + NodesOf(ops[1..])
  }

  /** `dependencies()`: the operands that are themselves nodes, in order. */
  function Dependencies(e: Expr): seq<Expr> {
    NodesOf(e.operands)
  }

  /** Node extraction distributes over concatenation, so it keeps operand order. */
  lemma {:induction false} NodesOfAppend(a: seq<Operand>, b: seq<Operand>)
    ensures NodesOf(a + b) == NodesOf(a) + NodesOf(b)
  {
    if a == [] {
      assert a + b == b;
    } else {
      assert (a + b)[0] == a[0];
      assert (a + b)[1..] == a[1..] + b;
      NodesOfAppend(a[1..], b);
    }
  }

  /** The Nth dependency is the Nth node operand: the node at its slot, preceded by exactly N nodes. */
  lemma {:induction false} NodesOfIndex(ops: seq<Operand>, i: nat)
    requires i < |ops| && ops[i].Node?
    ensures NodesOf(ops[..i + 1]) == NodesOf(ops[..i]) + [ops[i].e]
  {
    assert ops[..i + 1] == ops[..i] + [ops[i]];
    NodesOfAppend(ops[..i], [ops[i]]);
    assert NodesOf([ops[i]]) == [ops[i].e] by {
      assert [ops[i]][1..] == [];
    }
  }

  // ---------------------------------------------------------------------
  // Python value helpers
  // ---------------------------------------------------------------------

  /** Python truthiness of a literal (arrays and frames count as non-empty containers). */
  predicate Truthy(v: Value) {
    match v
    case VNone => false
    case VBool(b) => b
    case VInt(i) => i != 0
    case VStr(s) => s != ""
    case VList(xs) => xs != []
    case VTuple(xs) => xs != []
    case VArray(xs) => xs != []
    case VDict(es) => es != []
    case VFrame(t) => t.index != []
    case VLayer(es) => es != []
    case VOpaque(_) => true
  }

  /** `ishashable`: lists, dicts, arrays and frames are not; a tuple is when its items are. */
  predicate Hashable(v: Value) {
    match v
    case VList(_) => false
    case VDict(_) => false
    case VArray(_) => false
    case VFrame(_) => false
    case VLayer(_) => false
    case VTuple(xs) => forall i :: 0 <= i < |xs| ==> Hashable(xs[i])
    case _ => true
  }

  /** `isinstance(v, (str, int))`; a bool is an int in Python. */
  predicate IsStrOrInt(v: Value) {
    v.VStr? || v.VInt? || v.VBool?
  }

  /** `numbers.Number` restricted to the integral numbers the model carries. */
  predicate IsNumber(v: Value) {
    v.VInt? || v.VBool?
  }

  function NumberOf(v: Value): int
    requires IsNumber(v)
  {
    if v.VInt? then v.i else if v.b then 1 else 0
  }

  /** `int` arithmetic on an operand: a bool is an int, anything else is a TypeError. */
  function IntOf(v: Value): (r: Result<int>)
    ensures r.Ok? <==> IsNumber(v)
    ensures r.Ok? ==> r.value == NumberOf(v)
  {
    if IsNumber(v) then Ok(NumberOf(v)) else Err(TypeError)
  }

  function Clamp(x: int, n: nat): (r: nat)
    ensures r <= n
    ensures 0 <= x <= n ==> r == x
  {
    if x < 0 then 0 else if x > n then n else x
  }

  /** Python's `s[i:j]`: a negative bound counts from the end, and both bounds are clamped to the sequence. */
  function Slice<T>(s: seq<T>, i: int, j: int): (r: seq<T>)
    ensures 0 <= i <= j <= |s| ==> r == s[i..j]
    ensures 0 <= i && |s| <= j ==> r == s[Clamp(i, |s|)..]
    ensures |r| <= |s|
  {
    var lo := Clamp(if i < 0 then i + |s| else i, |s|);
    var hi := Clamp(if j < 0 then j + |s| else j, |s|);
    if lo <= hi then s[lo..hi] else []
  }

  /** Iterating a literal: the items of a list, tuple or array, the characters of a string, the keys of a dict. */
  function PyIter(v: Value): (r: Result<seq<Value>>)
    ensures (v.VList? || v.VTuple? || v.VArray?) ==> r == Ok(v.items)
    ensures r.Err? <==> !(v.VList? || v.VTuple? || v.VArray? || v.VStr? || v.VDict?)
  {
    match v
    case VList(xs) => Ok(xs)
    case VTuple(xs) => Ok(xs)
    case VArray(xs) => Ok(xs)
    case VStr(s) => Ok(seq(|s|, i requires 0 <= i < |s| => VStr([s[i]])))
    case VDict(es) => Ok(seq(|es|, i requires 0 <= i < |es| => es[i].0))
    case _ => Err(TypeError)
  }

  /** `dict(entries)`: later entries win. */
  function DictOf(entries: seq<(Key, Task)>): (m: map<Key, Task>)
    ensures forall k :: k in m <==> exists i :: 0 <= i < |entries| && entries[i].0 == k
  {
    if entries == [] then map[]
    else DictOf(entries[..|entries| - 1])[entries[|entries| - 1].0 := entries[|entries| - 1].1]
  }

  /** Later entries win: a key maps to the task of its last entry. */
  lemma {:induction false} DictOfLaterWins(entries: seq<(Key, Task)>, i: nat)
    requires i < |entries|
    requires forall j :: i < j < |entries| ==> entries[j].0 != entries[i].0
    ensures entries[i].0 in DictOf(entries) && DictOf(entries)[entries[i].0] == entries[i].1
    decreases |entries|
  {
    var n := |entries| - 1;
    if i < n {
      DictOfLaterWins(entries[..n], i);
    }
  }

  // ---------------------------------------------------------------------
  // Names (expr.py:255-257, 372-373, 441-443, 963-965; FromGraph)
  // ---------------------------------------------------------------------

  function NameOf(e: Expr): Name
    decreases e
  {
    match e.kind
    case FromGraph =>
      if |e.operands| > 3 && e.operands[3].Lit? then Given(e.operands[3].v)
      else Content(FromGraph, TokensOf(e))
    case BlockwiseArg =>
      if |e.operands| > 1 && e.operands[1].Lit? && Truthy(e.operands[1].v) then Given(e.operands[1].v)
      else Content(BlockwiseArg, if |e.operands| > 0 then [TokenOf(e.operands[0])] else [])
    case Fused =>
      Content(Fused, if |e.operands| > 0 then [TokenOf(e.operands[0])] else [])
    case _ =>
      Content(e.kind, TokensOf(e))
  }

  function TokensOf(e: Expr): (ts: seq<Token>)
    decreases e, 0
    ensures |ts| == |e.operands|
  {
    seq(|e.operands|, i requires 0 <= i < |e.operands| => TokenOf(e.operands[i]))
  }

  /** A child node is tokenized by its name, a list of nodes by their names. */
  function TokenOf(op: Operand): Token
    decreases op
  {
    match op
    case Lit(v) => TValue(v)
    case Node(c) => TName(NameOf(c))
    case Group(es) => TNames(seq(|es|, j requires 0 <= j < |es| => NameOf(es[j])))
  }

  /** No node whose name is given verbatim or ignores some operands. */
  predicate Plain(e: Expr)
    decreases e
  {
    && e.kind !in {FromGraph, BlockwiseArg, Fused}
    && forall i :: 0 <= i < |e.operands| ==> PlainOperand(e.operands[i])
  }

  predicate PlainOperand(op: Operand)
    decreases op
  {
    match op
    case Lit(_) => true
    case Node(c) => Plain(c)
    case Group(es) => forall j :: 0 <= j < |es| ==> Plain(es[j])
  }

  /** Name determinism: plain nodes with equal names are equal, so changing any operand changes the name. */
  lemma {:induction false} NameInjective(a: Expr, b: Expr)
    requires Plain(a) && Plain(b) && NameOf(a) == NameOf(b)
    ensures a == b
    decreases a
  {
    var ta, tb := TokensOf(a), TokensOf(b);
    assert NameOf(a) == Content(a.kind, ta) && NameOf(b) == Content(b.kind, tb);
    forall i | 0 <= i < |a.operands|
      ensures a.operands[i] == b.operands[i]
    {
      assert ta[i] == TokenOf(a.operands[i]) && tb[i] == TokenOf(b.operands[i]);
      TokenInjective(a.operands[i], b.operands[i]);
    }
  }

  lemma {:induction false} TokenInjective(a: Operand, b: Operand)
    requires PlainOperand(a) && PlainOperand(b) && TokenOf(a) == TokenOf(b)
    ensures a == b
    decreases a
  {
    match a
    case Lit(_) =>
    case Node(c) =>
      NameInjective(c, b.e);
    case Group(es) =>
      var na, nb := TokenOf(a).ns, TokenOf(b).ns;
      assert |na| == |es| && |nb| == |b.es|;
      forall j | 0 <= j < |es|
        ensures es[j] == b.es[j]
      {
        assert na[j] == NameOf(es[j]) && nb[j] == NameOf(b.es[j]);
        NameInjective(es[j], b.es[j]);
      }
  }

  // ---------------------------------------------------------------------
  // Reachability and name uniqueness
  // ---------------------------------------------------------------------

  /** The nodes reachable from `e` through node operands (the nodes graph materialisation visits). */
  function Reach(e: Expr): set<Expr>
    decreases e
  {
    {e} + (set i, x | 0 <= i < |e.operands| && e.operands[i].Node? && x in Reach(e.operands[i].e) :: x)
  }

  lemma ReachOperand(e: Expr, i: nat)
    requires i < |e.operands| && e.operands[i].Node?
    ensures Reach(e.operands[i].e) <= Reach(e)
  {
  }

  /** Distinct reachable nodes have distinct names. */
  ghost predicate UniqueNames(root: Expr) {
    forall x, y :: x in Reach(root) && y in Reach(root) && NameOf(x) == NameOf(y) ==> x == y
  }

  lemma {:induction false} PlainReach(e: Expr, x: Expr)
    requires Plain(e) && x in Reach(e)
    ensures Plain(x)
    decreases e
  {
    if x != e {
      var i :| 0 <= i < |e.operands| && e.operands[i].Node? && x in Reach(e.operands[i].e);
      assert PlainOperand(e.operands[i]);
      PlainReach(e.operands[i].e, x);
    }
  }

  /** A plain tree never shares a name between two different reachable nodes. */
  lemma PlainUniqueNames(root: Expr)
    requires Plain(root)
    ensures UniqueNames(root)
  {
    forall x, y | x in Reach(root) && y in Reach(root) && NameOf(x) == NameOf(y)
      ensures x == y
    {
      PlainReach(root, x);
      PlainReach(root, y);
      NameInjective(x, y);
    }
  }

  // ---------------------------------------------------------------------
  // Construction helpers
  // ---------------------------------------------------------------------

  /** `expr[key]` (expr.py:145-149): a node key builds a Filter, anything else a Projection. */
  function GetItem(frame: Expr, key: Operand): (r: Expr)
    ensures r.operands == [Node(frame), key]
    ensures r.kind == (if key.Node? then Filter else Projection)
  {
    if key.Node? then Expr(Filter, [Node(frame), key]) else Expr(Projection, [Node(frame), key])
  }

  /** Replace the operands of the named parameters, keeping every other operand and the kind. */
  function SubstituteParameters(e: Expr, subs: map<string, Value>): (r: Expr)
    ensures r.kind == e.kind && |r.operands| == |e.operands|
    ensures forall i :: 0 <= i < |e.operands| && (i >= |Params(e.kind)| || Params(e.kind)[i] !in subs) ==>
              r.operands[i] == e.operands[i]
    ensures forall p :: p in subs && p in Params(e.kind) && OperandOf(e, p).Ok? ==> OperandOf(r, p) == Ok(Lit(subs[p]))
  {
    var ps := Params(e.kind);
    Expr(e.kind, seq(|e.operands|, i requires 0 <= i < |e.operands| =>
      if i < |ps| && ps[i] in subs then Lit(subs[ps[i]]) else e.operands[i]))
  }
}
