/**
  Node construction with keyword arguments and defaults (`_ExprMeta.__call__`).

  Positional arguments fill the first parameter slots; every later parameter
  is taken from the keywords or from the kind's defaults, and any keyword
  left over is an assertion failure. Extra positional arguments are kept
  (Fused relies on this for its dependencies).
 */
module Meta {
  import opened Wrappers
  import opened Ir

  /** Every parameter after the first `n` has a default. */
  predicate AllDefaulted(ps: seq<string>, ds: map<string, Value>, n: nat) {
    forall i :: n <= i < |ps| ==> ps[i] in ds
  }

  /** Every parameter after the first `n` is given by keyword or has a default. */
  predicate AllSupplied(ps: seq<string>, ds: map<string, Value>, n: nat, kwargs: map<string, Operand>) {
    forall i :: n <= i < |ps| ==> ps[i] in kwargs || ps[i] in ds
  }

  /** The parameter names still open after `n` positional arguments. */
  function Remaining(ps: seq<string>, n: nat): seq<string> {
    if n <= |ps| then ps[n..] else []
  }

  /** Every keyword names a parameter not already filled positionally. */
  predicate KwargsFit(ps: seq<string>, n: nat, kwargs: map<string, Operand>) {
    forall p :: p in kwargs ==> p in Remaining(ps, n)
  }

  /** The operand that fills an open parameter: its keyword if given, else its default. */
  function Filled(ds: map<string, Value>, kwargs: map<string, Operand>, p: string): Operand
    requires p in kwargs || p in ds
  {
    if p in kwargs then kwargs[p] else Lit(ds[p])
  }

  /** `args` followed by the open parameters filled from keywords and defaults. */
  predicate FilledFrom(ps: seq<string>, ds: map<string, Value>, args: seq<Operand>, kwargs: map<string, Operand>, ops: seq<Operand>)
    requires AllSupplied(ps, ds, |args|, kwargs)
  {
    && |ops| == (if |args| < |ps| then |ps| else |args|)
    && ops[..|args|] == args
    && forall i :: |args| <= i < |ps| ==> ops[i] == Filled(ds, kwargs, ps[i])
  }

  /**
    Operand filling as evidently intended: a parameter passed by keyword needs
    no default; a parameter with neither is a KeyError, a stray keyword an
    AssertionError.
   */
  function FillIntended(ps: seq<string>, ds: map<string, Value>, args: seq<Operand>, kwargs: map<string, Operand>): (r: Result<seq<Operand>>)
    ensures r.Ok? <==> AllSupplied(ps, ds, |args|, kwargs) && KwargsFit(ps, |args|, kwargs)
    ensures !AllSupplied(ps, ds, |args|, kwargs) ==> r == Err(KeyError)
    ensures AllSupplied(ps, ds, |args|, kwargs) && !KwargsFit(ps, |args|, kwargs) ==> r == Err(AssertionError)
    ensures r.Ok? ==> FilledFrom(ps, ds, args, kwargs, r.value)
  {
    if !AllSupplied(ps, ds, |args|, kwargs) then Err(KeyError)
    else if !KwargsFit(ps, |args|, kwargs) then Err(AssertionError)
    else if |args| >= |ps| then Ok(args)
    else Ok(args + seq(|ps| - |args|, j requires 0 <= j < |ps| - |args| => Filled(ds, kwargs, ps[|args| + j])))
  }

  /** A filled operand list is determined by its characterisation. */
  lemma FilledUnique(ps: seq<string>, ds: map<string, Value>, args: seq<Operand>, kwargs: map<string, Operand>, a: seq<Operand>, b: seq<Operand>)
    requires AllSupplied(ps, ds, |args|, kwargs)
    requires FilledFrom(ps, ds, args, kwargs, a) && FilledFrom(ps, ds, args, kwargs, b)
    ensures a == b
  {
    forall j | 0 <= j < |a|
      ensures a[j] == b[j]
    {
      if j < |args| {
        assert a[j] == a[..|args|][j] && b[j] == b[..|args|][j];
      }
    }
  }

  /**
    The operand filling of `_ExprMeta.__call__` as written: the default of each
    open parameter is looked up before the keyword is consulted, so an open
    parameter without a default raises KeyError even when it was passed by
    keyword.
   */
  method Fill(ps: seq<string>, ds: map<string, Value>, args: seq<Operand>, kwargs: map<string, Operand>) returns (r: Result<seq<Operand>>)
    requires Distinct(ps)
    ensures r.Ok? <==> AllDefaulted(ps, ds, |args|) && KwargsFit(ps, |args|, kwargs)
    ensures !AllDefaulted(ps, ds, |args|) ==> r == Err(KeyError)
    ensures AllDefaulted(ps, ds, |args|) ==> r == FillIntended(ps, ds, args, kwargs)
  {
    var ops := args;
    var rest := kwargs;
    var i := |args|;
    while i < |ps|
      invariant |args| <= i && (i <= |ps| || i == |args|)
      invariant |ops| == i && ops[..|args|] == args
      invariant forall j :: |args| <= j < i ==> ps[j] in ds && ops[j] == Filled(ds, kwargs, ps[j])
      invariant forall p :: p in rest <==> p in kwargs && (i <= |ps| ==> p !in ps[|args|..i])
      invariant forall p :: p in rest ==> rest[p] == kwargs[p]
    {
      if ps[i] !in ds {
        assert !AllDefaulted(ps, ds, |args|);
        return Err(KeyError);
      }
      var v := if ps[i] in rest then rest[ps[i]] else Lit(ds[ps[i]]);
      assert ps[i] in rest <==> ps[i] in kwargs;
      ops := ops + [v];
      rest := rest - {ps[i]};
      assert ps[|args|..i + 1] == ps[|args|..i] + [ps[i]];
      i := i + 1;
    }
    assert AllDefaulted(ps, ds, |args|) && AllSupplied(ps, ds, |args|, kwargs);
    assert |args| <= |ps| ==> ps[|args|..i] == Remaining(ps, |args|);
    if rest != map[] {
      var p :| p in rest;
      assert p !in Remaining(ps, |args|);
      return Err(AssertionError);
    }
    assert KwargsFit(ps, |args|, kwargs);
    r := Ok(ops);
    assert ops[..|args|] == args;
    FilledUnique(ps, ds, args, kwargs, ops, FillIntended(ps, ds, args, kwargs).value);
  }

  /** `dict(zip(ps, ops))`: each parameter paired with its operand, as far as both go. */
  function KeywordsOf(ps: seq<string>, ops: seq<Operand>): (m: map<string, Operand>)
    requires Distinct(ps)
    ensures forall i :: 0 <= i < |ps| && i < |ops| ==> ps[i] in m && m[ps[i]] == ops[i]
    ensures forall p :: p in m ==> exists i :: 0 <= i < |ps| && i < |ops| && ps[i] == p
  {
    map i | 0 <= i < |ps| && i < |ops| :: ps[i] := ops[i]
  }

  /** Passing every operand by keyword rebuilds exactly those operands. */
  lemma FillByKeyword(ps: seq<string>, ds: map<string, Value>, ops: seq<Operand>)
    requires Distinct(ps) && |ops| == |ps|
    ensures FillIntended(ps, ds, [], KeywordsOf(ps, ops)) == Ok(ops)
  {
    var kwargs := KeywordsOf(ps, ops);
    assert AllSupplied(ps, ds, 0, kwargs) by {
      forall i | 0 <= i < |ps|
        ensures ps[i] in kwargs
      {
      }
    }
    assert KwargsFit(ps, 0, kwargs) by {
      assert Remaining(ps, 0) == ps;
      forall p | p in kwargs
        ensures p in ps
      {
        var i :| 0 <= i < |ps| && i < |ops| && ps[i] == p;
      }
    }
    assert FilledFrom(ps, ds, [], kwargs, ops) by {
      forall i | 0 <= i < |ps|
        ensures ops[i] == Filled(ds, kwargs, ps[i])
      {
        assert kwargs[ps[i]] == ops[i];
      }
    }
    FilledUnique(ps, ds, [], kwargs, FillIntended(ps, ds, [], kwargs).value, ops);
  }

  /** Overriding one keyword is replacing that operand. */
  lemma KeywordsUpdate(ps: seq<string>, ops: seq<Operand>, i: nat, op: Operand)
    requires Distinct(ps) && |ops| == |ps| && i < |ps|
    ensures KeywordsOf(ps, ops)[ps[i] := op] == KeywordsOf(ps, ops[i := op])
  {
  }

  /** Construction as evidently intended, for a kind's declared parameters and defaults. */
  function ConstructIntended(k: Kind, args: seq<Operand>, kwargs: map<string, Operand>): (r: Result<Expr>)
    ensures r.Ok? <==> FillIntended(Params(k), Defaults(k), args, kwargs).Ok?
    ensures r.Ok? ==> r.value == Expr(k, FillIntended(Params(k), Defaults(k), args, kwargs).value)
  {
    var ops :- FillIntended(Params(k), Defaults(k), args, kwargs);
    Ok(Expr(k, ops))
  }

  /**
    With positional arguments only, the construction as written and the
    intended one agree: both raise KeyError exactly when a parameter past
    the arguments has no default.
   */
  lemma PositionalAgrees(k: Kind, args: seq<Operand>)
    ensures ConstructIntended(k, args, map[]).Ok? <==> AllDefaulted(Params(k), Defaults(k), |args|)
    ensures !AllDefaulted(Params(k), Defaults(k), |args|) ==> ConstructIntended(k, args, map[]) == Err(KeyError)
  {
    assert KwargsFit(Params(k), |args|, map[]);
    assert AllSupplied(Params(k), Defaults(k), |args|, map[]) <==> AllDefaulted(Params(k), Defaults(k), |args|);
  }

  /** `_ExprMeta.__call__`: fill the operands as written, then build the node. */
  method Construct(k: Kind, args: seq<Operand>, kwargs: map<string, Operand>) returns (r: Result<Expr>)
    ensures r.Ok? <==> AllDefaulted(Params(k), Defaults(k), |args|) && KwargsFit(Params(k), |args|, kwargs)
    ensures !AllDefaulted(Params(k), Defaults(k), |args|) ==> r == Err(KeyError)
    ensures AllDefaulted(Params(k), Defaults(k), |args|) ==> r == ConstructIntended(k, args, kwargs)
  {
    ParamsDistinct(k);
    var ops :- Fill(Params(k), Defaults(k), args, kwargs);
    r := Ok(Expr(k, ops));
  }

  /**
    `Head(frame=df)`: `frame` has no default, so construction raises KeyError,
    while the intended construction fills `frame` from the keyword and `n`
    from its default.
   */
  method HeadByKeyword(df: Expr) returns (asWritten: Result<Expr>, intended: Result<Expr>)
    ensures asWritten == Err(KeyError)
    ensures intended == Ok(Expr(Head, [Node(df), Lit(VInt(5))]))
  {
    assert Params(Head)[0] == "frame" && "frame" !in Defaults(Head);
    assert !AllDefaulted(Params(Head), Defaults(Head), 0);
    asWritten := Construct(Head, [], map["frame" := Node(df)]);
    intended := ConstructIntended(Head, [], map["frame" := Node(df)]);
    assert Filled(Defaults(Head), map["frame" := Node(df)], "n") == Lit(VInt(5));
    assert intended.value.operands == [Node(df), Lit(VInt(5))];
  }
}
