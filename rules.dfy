/**
  The four matchpy replacement rules of dask_match/expr.py as rewrites of
  one node, and an integer evaluator of expressions under which each rule
  is proved to keep the value of the node it rewrites.
 */
module Rules {
  import opened Wrappers
  import opened Ir

  /** What an expression evaluates to: a number, or a frame of integer cells keyed by column label. */
  datatype Val = Scalar(n: int) | Frame(columns: set<Value>, rows: seq<map<Value, int>>)

  /** The values of the nodes the rules do not look into, and true division (a float in Python). */
  datatype Env = Env(leaf: Expr -> Result<Val>, div: (int, int) -> int)

  /** One cell of a binary operator; a comparison gives 1 for true and 0 for false. */
  function Cell(k: Kind, a: int, b: int, env: Env): int
    requires IsBinop(k)
  {
    match k
    case Add => a + b
    case Sub => a - b
    case Mul => a * b
    case Div => env.div(a, b)
    case LT => if a < b then 1 else 0
    case LE => if a <= b then 1 else 0
    case GT => if a > b then 1 else 0
    case GE => if a >= b then 1 else 0
    case EQ => if a == b then 1 else 0
    case NE => if a != b then 1 else 0
  }

  /** A number against every cell of a frame's rows, the number on the left. */
  function ScalarLeft(k: Kind, n: int, rows: seq<map<Value, int>>, env: Env): (r: seq<map<Value, int>>)
    requires IsBinop(k)
    ensures |r| == |rows|
  {
    seq(|rows|, i requires 0 <= i < |rows| => map c | c in rows[i] :: Cell(k, n, rows[i][c], env))
  }

  /** Every cell of a frame's rows against a number, the number on the right. */
  function ScalarRight(k: Kind, rows: seq<map<Value, int>>, n: int, env: Env): (r: seq<map<Value, int>>)
    requires IsBinop(k)
    ensures |r| == |rows|
  {
    seq(|rows|, i requires 0 <= i < |rows| => map c | c in rows[i] :: Cell(k, rows[i][c], n, env))
  }

  /** Two frames row by row, on the labels both rows carry. */
  function Zip(k: Kind, xs: seq<map<Value, int>>, ys: seq<map<Value, int>>, env: Env): (r: seq<map<Value, int>>)
    requires IsBinop(k) && |xs| == |ys|
    ensures |r| == |xs|
  {
    seq(|xs|, i requires 0 <= i < |xs| => map c | c in xs[i] && c in ys[i] :: Cell(k, xs[i][c], ys[i][c], env))
  }

  /** A binary operator on two values; two frames must have the same number of rows. */
  function Combine(k: Kind, x: Val, y: Val, env: Env): (r: Result<Val>)
    requires IsBinop(k)
    ensures r.Err? <==> x.Frame? && y.Frame? && |x.rows| != |y.rows|
  {
    match (x, y)
    case (Scalar(a), Scalar(b)) => Ok(Scalar(Cell(k, a, b, env)))
    case (Scalar(a), Frame(cs, rows)) => Ok(Frame(cs, ScalarLeft(k, a, rows, env)))
    case (Frame(cs, rows), Scalar(b)) => Ok(Frame(cs, ScalarRight(k, rows, b, env)))
    case (Frame(cx, xs), Frame(cy, ys)) =>
      if |xs| != |ys| then Err(ValueError) else Ok(Frame(cx * cy, Zip(k, xs, ys, env)))
  }

  /** A row narrowed to the given labels. */
  function Restrict(row: map<Value, int>, cs: set<Value>): (r: map<Value, int>)
    ensures r.Keys == row.Keys * cs
  {
    map c | c in row && c in cs :: row[c]
  }

  /** Every row narrowed to the given labels. */
  function RestrictAll(rows: seq<map<Value, int>>, cs: set<Value>): (r: seq<map<Value, int>>)
    ensures |r| == |rows|
  {
    seq(|rows|, i requires 0 <= i < |rows| => Restrict(rows[i], cs))
  }

  /** The labels a column key selects: the items of a list, or the one label. */
  function Labels(key: Value): set<Value> {
    if key.VList? then set c | c in key.items else {key}
  }

  /** `frame[key]` for a literal key: every label must be a column. */
  function Select(v: Val, key: Operand): (r: Result<Val>)
    ensures r.Ok? ==> v.Frame? && key.Lit? && Labels(key.v) <= v.columns &&
                      r.value == Frame(Labels(key.v), RestrictAll(v.rows, Labels(key.v)))
    ensures v.Frame? && key.Lit? && !(Labels(key.v) <= v.columns) ==> r == Err(KeyError)
  {
    if !v.Frame? || !key.Lit? then Err(TypeError)
    else if Labels(key.v) <= v.columns then Ok(Frame(Labels(key.v), RestrictAll(v.rows, Labels(key.v))))
    else Err(KeyError)
  }

  /** A mask row keeps its row when every cell of it is non-zero. */
  predicate Keeps(m: map<Value, int>) {
    forall c :: c in m ==> m[c] != 0
  }

  /** The rows a mask keeps, in order. */
  function Kept(rows: seq<map<Value, int>>, mask: seq<map<Value, int>>): (r: seq<map<Value, int>>)
    requires |rows| == |mask|
    ensures |r| <= |rows|
  {
    if rows == [] then []
    else (if Keeps(mask[0]) then [rows[0]] else []) + Kept(rows[1..], mask[1..])
  }

  /** `frame[mask]`: a frame filtered by a mask frame with as many rows. */
  function Mask(v: Val, m: Val): (r: Result<Val>)
    ensures r.Ok? ==> v.Frame? && m.Frame? && |v.rows| == |m.rows| &&
                      r.value == Frame(v.columns, Kept(v.rows, m.rows))
  {
    if v.Frame? && m.Frame? && |v.rows| == |m.rows| then Ok(Frame(v.columns, Kept(v.rows, m.rows)))
    else Err(ValueError)
  }

  /** The value of an expression: arithmetic, comparisons, projections and filters; other nodes come from `env`. */
  function Eval(e: Expr, env: Env): Result<Val>
    decreases e, 1
  {
    if IsBinop(e.kind) then
      var x :- Arg(e, 0, env);
      var y :- Arg(e, 1, env);
      Combine(e.kind, x, y, env)
    else if e.kind == Projection then
      var x :- Arg(e, 0, env);
      var key :- Slot(e, 1);
      Select(x, key)
    else if e.kind == Filter then
      var x :- Arg(e, 0, env);
      var m :- Arg(e, 1, env);
      Mask(x, m)
    else env.leaf(e)
  }

  /** The value of operand `i`: a number literal, or the value of a child node. */
  function Arg(e: Expr, i: nat, env: Env): Result<Val>
    decreases e, 0
  {
    if i >= |e.operands| then Err(IndexError)
    else match e.operands[i]
      case Lit(v) => if IsNumber(v) then Ok(Scalar(NumberOf(v))) else Err(TypeError)
      case Node(x) => Eval(x, env)
      case Group(_) => Err(TypeError)
  }

  /** The value of a standalone operand, as `Arg` reads it. */
  function OperandVal(op: Operand, env: Env): Result<Val> {
    Arg(Expr(Literal, [op]), 0, env)
  }

  lemma ArgIs(e: Expr, i: nat, env: Env)
    requires i < |e.operands|
    ensures Arg(e, i, env) == OperandVal(e.operands[i], env)
  {
  }

  // ---------------------------------------------------------------------
  // Add(x, x) -> Mul(2, x)
  // ---------------------------------------------------------------------

  /** `Add(x, x)` becomes `Mul(2, x)`. */
  function AddSelf(e: Expr): (r: Option<Expr>)
    ensures r.Some? <==> e.kind == Add && |e.operands| == 2 && e.operands[0] == e.operands[1]
  {
    if e.kind == Add && |e.operands| == 2 && e.operands[0] == e.operands[1]
    then Some(Expr(Mul, [Lit(VInt(2)), e.operands[0]]))
    else None
  }

  /** Doubling a frame is adding it to itself. */
  lemma DoubleFrame(cs: set<Value>, rows: seq<map<Value, int>>, env: Env)
    ensures Combine(Add, Frame(cs, rows), Frame(cs, rows), env) == Combine(Mul, Scalar(2), Frame(cs, rows), env)
  {
    assert cs * cs == cs;
    forall i | 0 <= i < |rows|
      ensures Zip(Add, rows, rows, env)[i] == ScalarLeft(Mul, 2, rows, env)[i]
    {
      var r := rows[i];
      assert (map c | c in r && c in r :: r[c] + r[c]) == (map c | c in r :: 2 * r[c]);
    }
    assert Zip(Add, rows, rows, env) == ScalarLeft(Mul, 2, rows, env);
  }

  /** The rewrite keeps the value, errors included. */
  lemma AddSelfPreserves(e: Expr, env: Env)
    requires AddSelf(e).Some?
    ensures Eval(AddSelf(e).value, env) == Eval(e, env)
  {
    var x := e.operands[0];
    var out := AddSelf(e).value;
    ArgIs(e, 0, env);
    ArgIs(e, 1, env);
    ArgIs(out, 1, env);
    var v := OperandVal(x, env);
    if v.Ok? && v.value.Frame? {
      DoubleFrame(v.value.columns, v.value.rows, env);
    }
  }

  // ---------------------------------------------------------------------
  // Mul(a, Mul(b, c)) -> Mul(a * b, c) for numbers a and b
  // ---------------------------------------------------------------------

  /** `Mul(a, Mul(b, c))` with number literals `a` and `b` becomes `Mul(a * b, c)`. */
  function MulFold(e: Expr): (r: Option<Expr>)
    ensures r.Some? ==> e.kind == Mul && |e.operands| == 2 && e.operands[1].Node? &&
                        e.operands[1].e.kind == Mul && |e.operands[1].e.operands| == 2
  {
    if e.kind == Mul && |e.operands| == 2 && e.operands[1].Node? then
      var inner := e.operands[1].e;
      if inner.kind == Mul && |inner.operands| == 2 && e.operands[0].Lit? && inner.operands[0].Lit? &&
         IsNumber(e.operands[0].v) && IsNumber(inner.operands[0].v)
      then Some(Expr(Mul, [Lit(VInt(NumberOf(e.operands[0].v) * NumberOf(inner.operands[0].v))), inner.operands[1]]))
      else None
    else None
  }

  /** The fold is exactly the pattern with both factors numbers. */
  lemma MulFoldMatches(a: Value, b: Value, c: Operand)
    ensures MulFold(Expr(Mul, [Lit(a), Node(Expr(Mul, [Lit(b), c]))])).Some? <==> IsNumber(a) && IsNumber(b)
  {
  }

  lemma ScaleTwice(a: int, b: int, cs: set<Value>, rows: seq<map<Value, int>>, env: Env)
    ensures Combine(Mul, Scalar(a), Frame(cs, ScalarLeft(Mul, b, rows, env)), env)
            == Combine(Mul, Scalar(a * b), Frame(cs, rows), env)
  {
    forall i | 0 <= i < |rows|
      ensures ScalarLeft(Mul, a, ScalarLeft(Mul, b, rows, env), env)[i] == ScalarLeft(Mul, a * b, rows, env)[i]
    {
      var r := rows[i];
      var s := ScalarLeft(Mul, b, rows, env)[i];
      assert s.Keys == r.Keys;
      forall c | c in r ensures a * s[c] == (a * b) * r[c] {
        assert s[c] == b * r[c];
        assert a * (b * r[c]) == (a * b) * r[c];
      }
      assert (map c | c in s :: a * s[c]) == (map c | c in r :: (a * b) * r[c]);
    }
    assert ScalarLeft(Mul, a, ScalarLeft(Mul, b, rows, env), env) == ScalarLeft(Mul, a * b, rows, env);
  }

  /** The rewrite keeps the value, errors included. */
  lemma MulFoldPreserves(e: Expr, env: Env)
    requires MulFold(e).Some?
    ensures Eval(MulFold(e).value, env) == Eval(e, env)
  {
    var inner := e.operands[1].e;
    var out := MulFold(e).value;
    var a, b := NumberOf(e.operands[0].v), NumberOf(inner.operands[0].v);
    ArgIs(e, 0, env);
    ArgIs(e, 1, env);
    ArgIs(inner, 0, env);
    ArgIs(inner, 1, env);
    ArgIs(out, 0, env);
    ArgIs(out, 1, env);
    var v := OperandVal(inner.operands[1], env);
    if v.Ok? {
      match v.value
      case Scalar(n) =>
        assert a * (b * n) == (a * b) * n;
      case Frame(cs, rows) =>
        ScaleTwice(a, b, cs, rows, env);
    }
  }

  // ---------------------------------------------------------------------
  // (a op b)[c] -> a[c] op b[c]
  // ---------------------------------------------------------------------

  /** `x[columns]` for a node, any other operand as it is. */
  function ProjectOperand(op: Operand, columns: Operand): Operand {
    if op.Node? then Node(GetItem(op.e, columns)) else op
  }

  /** `Binop(left, right)[columns]` becomes `Binop(left[columns], right[columns])`, projecting only node sides. */
  function BinopProjection(e: Expr): (r: Option<Expr>)
    ensures r.Some? ==> e.kind == Projection && |e.operands| == 2 && e.operands[0].Node? && IsBinop(e.operands[0].e.kind) &&
                        r.value.kind == e.operands[0].e.kind
  {
    if e.kind == Projection && |e.operands| == 2 && e.operands[0].Node? &&
       IsBinop(e.operands[0].e.kind) && |e.operands[0].e.operands| == 2
    then
      var b := e.operands[0].e;
      Some(Expr(b.kind, [ProjectOperand(b.operands[0], e.operands[1]), ProjectOperand(b.operands[1], e.operands[1])]))
    else None
  }

  /** Narrowing commutes with an operator applied between two frames. */
  lemma RestrictZip(k: Kind, xs: seq<map<Value, int>>, ys: seq<map<Value, int>>, cs: set<Value>, env: Env)
    requires IsBinop(k) && |xs| == |ys|
    ensures RestrictAll(Zip(k, xs, ys, env), cs) == Zip(k, RestrictAll(xs, cs), RestrictAll(ys, cs), env)
  {
    forall i | 0 <= i < |xs|
      ensures RestrictAll(Zip(k, xs, ys, env), cs)[i] == Zip(k, RestrictAll(xs, cs), RestrictAll(ys, cs), env)[i]
    {
      var x, y := xs[i], ys[i];
      assert Restrict(map c | c in x && c in y :: Cell(k, x[c], y[c], env), cs)
          == map c | c in Restrict(x, cs) && c in Restrict(y, cs) :: Cell(k, Restrict(x, cs)[c], Restrict(y, cs)[c], env);
    }
  }

  /** Narrowing commutes with a number on the left of an operator. */
  lemma RestrictLeft(k: Kind, n: int, rows: seq<map<Value, int>>, cs: set<Value>, env: Env)
    requires IsBinop(k)
    ensures RestrictAll(ScalarLeft(k, n, rows, env), cs) == ScalarLeft(k, n, RestrictAll(rows, cs), env)
  {
    forall i | 0 <= i < |rows|
      ensures RestrictAll(ScalarLeft(k, n, rows, env), cs)[i] == ScalarLeft(k, n, RestrictAll(rows, cs), env)[i]
    {
      var x := rows[i];
      assert Restrict(map c | c in x :: Cell(k, n, x[c], env), cs)
          == map c | c in Restrict(x, cs) :: Cell(k, n, Restrict(x, cs)[c], env);
    }
  }

  /** Narrowing commutes with a number on the right of an operator. */
  lemma RestrictRight(k: Kind, n: int, rows: seq<map<Value, int>>, cs: set<Value>, env: Env)
    requires IsBinop(k)
    ensures RestrictAll(ScalarRight(k, rows, n, env), cs) == ScalarRight(k, RestrictAll(rows, cs), n, env)
  {
    forall i | 0 <= i < |rows|
      ensures RestrictAll(ScalarRight(k, rows, n, env), cs)[i] == ScalarRight(k, RestrictAll(rows, cs), n, env)[i]
    {
      var x := rows[i];
      assert Restrict(map c | c in x :: Cell(k, x[c], n, env), cs)
          == map c | c in Restrict(x, cs) :: Cell(k, Restrict(x, cs)[c], n, env);
    }
  }

  /** Selecting columns of `x op y` is `x[cols] op y[cols]`, whenever the left side has a value. */
  lemma SelectCombine(k: Kind, x: Val, y: Val, key: Value, env: Env)
    requires IsBinop(k) && !(x.Scalar? && y.Scalar?)
    requires Combine(k, x, y, env).Ok? && Select(Combine(k, x, y, env).value, Lit(key)).Ok?
    ensures var sx := if x.Frame? then Select(x, Lit(key)) else Ok(x);
            var sy := if y.Frame? then Select(y, Lit(key)) else Ok(y);
            sx.Ok? && sy.Ok? &&
            Combine(k, sx.value, sy.value, env) == Select(Combine(k, x, y, env).value, Lit(key))
  {
    var cs := Labels(key);
    match (x, y)
    case (Scalar(a), Frame(_, rows)) => RestrictLeft(k, a, rows, cs, env);
    case (Frame(_, rows), Scalar(b)) => RestrictRight(k, b, rows, cs, env);
    case (Frame(_, xs), Frame(_, ys)) =>
      assert cs * cs == cs;
      RestrictZip(k, xs, ys, cs, env);
  }

  /** Every node operand of `b` with a value is a frame. */
  predicate FrameSides(b: Expr, env: Env) {
    forall i :: 0 <= i < |b.operands| && b.operands[i].Node? && Arg(b, i, env).Ok? ==> Arg(b, i, env).value.Frame?
  }

  /** The rewrite keeps the value of every projection that has one, when the node sides are frames. */
  lemma BinopProjectionPreserves(e: Expr, env: Env)
    requires BinopProjection(e).Some? && Eval(e, env).Ok?
    requires FrameSides(e.operands[0].e, env)
    ensures Eval(BinopProjection(e).value, env) == Eval(e, env)
  {
    var b := e.operands[0].e;
    var key := e.operands[1];
    var out := BinopProjection(e).value;
    assert Arg(e, 0, env) == Eval(b, env);
    assert Arg(b, 0, env).Ok? && Arg(b, 1, env).Ok?;
    var x := Arg(b, 0, env).value;
    var y := Arg(b, 1, env).value;
    assert Eval(e, env) == Select(Eval(b, env).value, key);
    assert Eval(b, env) == Combine(b.kind, x, y, env);
    assert key.Lit?;
    if x.Scalar? && y.Scalar? {
      assert false;
    }
    SelectCombine(b.kind, x, y, key.v, env);
    ProjectedArg(b, 0, key, env);
    ProjectedArg(b, 1, key, env);
    ArgIs(out, 0, env);
    ArgIs(out, 1, env);
  }

  /** One side of the rewrite: a node side is projected, a literal side keeps its number. */
  lemma ProjectedArg(b: Expr, i: nat, key: Operand, env: Env)
    requires i < |b.operands| && Arg(b, i, env).Ok? && key.Lit?
    ensures var x := Arg(b, i, env).value;
            OperandVal(ProjectOperand(b.operands[i], key), env) ==
              (if b.operands[i].Node? then Select(x, key) else Ok(x))
    ensures !b.operands[i].Node? ==> Arg(b, i, env).value.Scalar?
  {
    if b.operands[i].Node? {
      var g := GetItem(b.operands[i].e, key);
      assert Eval(g, env) == Select(Eval(b.operands[i].e, env).value, key);
    }
  }

  // ---------------------------------------------------------------------
  // Filter(df, condition)[columns] -> df[columns][condition]
  // ---------------------------------------------------------------------

  /** `Filter(df, condition)[columns]` becomes `df[columns][condition]`, for a node `df`. */
  function FilterProjection(e: Expr): (r: Option<Expr>)
    ensures r.Some? ==> e.kind == Projection && |e.operands| == 2 && e.operands[0].Node? &&
                        e.operands[0].e.kind == Filter && |e.operands[0].e.operands| == 2 &&
                        e.operands[0].e.operands[0].Node? &&
                        r.value == GetItem(GetItem(e.operands[0].e.operands[0].e, e.operands[1]), e.operands[0].e.operands[1])
  {
    if e.kind == Projection && |e.operands| == 2 && e.operands[0].Node? &&
       e.operands[0].e.kind == Filter && |e.operands[0].e.operands| == 2 && e.operands[0].e.operands[0].Node?
    then
      var f := e.operands[0].e;
      Some(GetItem(GetItem(f.operands[0].e, e.operands[1]), f.operands[1]))
    else None
  }

  /** Narrowing commutes with keeping the rows a mask selects. */
  lemma {:induction false} RestrictKept(rows: seq<map<Value, int>>, mask: seq<map<Value, int>>, cs: set<Value>)
    requires |rows| == |mask|
    ensures RestrictAll(Kept(rows, mask), cs) == Kept(RestrictAll(rows, cs), mask)
  {
    if rows != [] {
      RestrictKept(rows[1..], mask[1..], cs);
      assert RestrictAll(rows, cs)[1..] == RestrictAll(rows[1..], cs);
      var head := if Keeps(mask[0]) then [rows[0]] else [];
      assert RestrictAll(head + Kept(rows[1..], mask[1..]), cs)
          == RestrictAll(head, cs) + RestrictAll(Kept(rows[1..], mask[1..]), cs);
    }
  }

  /** The rewrite keeps the value of every projection that has one. */
  lemma FilterProjectionPreserves(e: Expr, env: Env)
    requires FilterProjection(e).Some? && Eval(e, env).Ok?
    ensures Eval(FilterProjection(e).value, env) == Eval(e, env)
  {
    var f := e.operands[0].e;
    var df := f.operands[0].e;
    var key := e.operands[1];
    assert Arg(e, 0, env) == Eval(f, env);
    assert Arg(f, 0, env) == Eval(df, env);
    assert Eval(df, env).Ok? && Arg(f, 1, env).Ok?;
    var x := Eval(df, env).value;
    var m := Arg(f, 1, env).value;
    assert Eval(f, env) == Mask(x, m);
    assert Eval(e, env) == Select(Eval(f, env).value, key);
    assert key.Lit?;
    var narrowed := GetItem(df, key);
    assert Eval(narrowed, env) == Select(x, key);
    var cond := f.operands[1];
    assert cond.Node?;
    RestrictKept(x.rows, m.rows, Labels(key.v));
  }
}
