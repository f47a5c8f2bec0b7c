/** smt_switch/src/smt.py: the module-level facade.  It keeps one current
    solver and a per-name cache of solver instances, wraps every table entry
    in an `operator` (a partial application of a generated function), checks
    arities when such an operator is called, coerces literal arguments, and
    forwards Bool constraints to the current solver.

    `operator` is imported from a helper module that does not define it; it
    is modelled as a partial application: a function together with the
    arguments bound so far, and calling it calls the function with the bound
    arguments followed by the new ones. */
module SmtModule {
  import opened Wrappers
  import opened Sorts
  import opened Values
  import Operators

  /** One backend solver instance (`CVC4Solver()`, `Z3Solver()`,
      `BoolectorSolver()`): only its kind and the constraints it was given
      are observed here. */
  class Backend {
    const kind: SolverKind
    var asserted: seq<Native>

    constructor (k: SolverKind)
      ensures kind == k && asserted == []
    {
      kind := k;
      asserted := [];
    }
  }

  /** `__solver_map`: the backend each solver name constructs. */
  function KindOf(name: string): Option<SolverKind> {
    if name == "CVC4" then Some(CVC4)
    else if name == "Z3" then Some(Z3)
    else if name == "Boolector" then Some(Boolector)
    else None
  }

  /** The module's globals: the current solver `_solver` and the cache
      `__solver_cache`. */
  class ModuleState {
    var solver: Backend?
    var cache: map<string, Backend?>

    /** The cache has exactly the three solver names, each filled slot holds
        a backend of that name's kind, and the current solver is a cached one. */
    predicate Valid()
      reads this
    {
      && cache.Keys == {"CVC4", "Z3", "Boolector"}
      && (forall n :: n in cache && cache[n] != null ==> KindOf(n) == Some(cache[n].kind))
      && (solver != null ==> exists n :: n in cache && cache[n] == solver)
    }

    /** The state at import time: no solver chosen, every cache slot empty. */
    constructor ()
      ensures Valid()
      ensures solver == null
      ensures cache == map["CVC4" := null, "Z3" := null, "Boolector" := null]
    {
      solver := null;
      cache := map["CVC4" := null, "Z3" := null, "Boolector" := null];
    }

    /** `set_solver(name)`: an unknown name raises KeyError; otherwise the
        cached instance is reused, or a fresh one is built and cached the
        first time.  `failing` maps each backend kind whose constructor
        raises to the error it raises; the exception leaves both globals
        as they were. */
    method SetSolver(name: string, failing: map<SolverKind, PyError>) returns (r: Result<()>)
      requires Valid()
      modifies this
      ensures Valid()
      ensures name !in old(cache) ==> r == Err(KeyError) && solver == old(solver) && cache == old(cache)
      ensures name in old(cache) && old(cache[name]) == null && KindOf(name).value in failing ==>
        r == Err(failing[KindOf(name).value]) && solver == old(solver) && cache == old(cache)
      ensures name in old(cache) && (old(cache[name]) != null || KindOf(name).value !in failing) ==>
        r.Ok? && solver != null && cache == old(cache)[name := solver]
      ensures name in old(cache) && old(cache[name]) != null ==> solver == old(cache[name])
      ensures name in old(cache) && old(cache[name]) == null && KindOf(name).value !in failing ==>
        fresh(solver) && solver.asserted == []
    {
      if name !in cache {
        return Err(KeyError);
      }
      if cache[name] == null {
        var k := KindOf(name).value;
        if k in failing {
          return Err(failing[k]);
        }
        var b := new Backend(k);
        cache := cache[name := b];
      }
      solver := cache[name];
      assert cache[name] == solver;
      r := Ok(());
    }

    /** `Assert(constraints)`: the first element, if it is a sequence, is
        the list of constraints.  Each constraint must be a Python bool or a
        term of sort Bool; accepted ones are forwarded in order, and a
        rejected one stops the loop with the earlier ones already forwarded. */
    method Assert(constraints: seq<PyVal>) returns (r: Result<()>)
      requires Valid()
      modifies solver
      ensures Valid()
      ensures |constraints| == 0 ==> r == Err(IndexError)
      ensures |constraints| == 0 && solver != null ==> solver.asserted == old(solver.asserted)
      ensures |constraints| > 0 && solver != null ==>
        var cs := AssertArgs(constraints);
        solver.asserted == old(solver.asserted) + Lowered(cs[..Accepted(cs)])
      ensures |constraints| > 0 ==>
        var cs := AssertArgs(constraints);
        (r.Ok? <==> Accepted(cs) == |cs| && (solver != null || cs == []))
      ensures |constraints| > 0 && solver != null && r.Err? ==> r.error == ValueError
      ensures |constraints| > 0 && solver == null && r.Err? ==>
        r.error == if Assertable(AssertArgs(constraints)[0]) then AttributeError else ValueError
    {
      if |constraints| == 0 {
        return Err(IndexError);
      }
      var cs := AssertArgs(constraints);
      var i := 0;
      while i < |cs|
        invariant 0 <= i <= |cs|
        invariant i <= Accepted(cs)
        invariant solver != null ==> solver.asserted == old(solver.asserted) + Lowered(cs[..i])
        invariant solver == null ==> i == 0
      {
        if !Assertable(cs[i]) {
          return Err(ValueError);
        }
        if solver == null {
          return Err(AttributeError);
        }
        AcceptedStep(cs, i);
        assert cs[..i + 1] == cs[..i] + [cs[i]];
        solver.asserted := solver.asserted + [Lower(cs[i])];
        i := i + 1;
      }
      r := Ok(());
    }
  }

  /** The constraints `Assert` iterates over. */
  function AssertArgs(constraints: seq<PyVal>): seq<PyVal>
    requires |constraints| > 0
  {
    if IsSequence(constraints[0]) then Elements(constraints[0]) else constraints
  }

  /** `sort != bool and sort != sorts.Bool()` is false: a Python bool, or a
      term whose sort compares equal to Bool. */
  predicate Assertable(v: PyVal) {
    v.PBool? || (v.PTerm? && !Ne(v.t.SortOf(), Bool))
  }

  /** Only Python bools and Bool terms pass; a BitVec(1) term does not. */
  lemma AssertableIsBool(v: PyVal)
    ensures Assertable(v) <==> v.PBool? || (v.PTerm? && v.t.SortOf() == Bool)
  {
    if v.PTerm? && !v.t.SortOf().FP? {
      EqIsStructural(v.t.SortOf(), Bool);
    }
  }

  /** The number of leading constraints that pass the check. */
  function Accepted(cs: seq<PyVal>): (k: nat)
    ensures k <= |cs|
    ensures forall i :: 0 <= i < k ==> Assertable(cs[i])
    ensures k < |cs| ==> !Assertable(cs[k])
  {
    if cs == [] || !Assertable(cs[0]) then 0 else 1 + Accepted(cs[1..])
  }

  lemma AcceptedStep(cs: seq<PyVal>, i: nat)
    requires i <= Accepted(cs) && i < |cs| && Assertable(cs[i])
    ensures i + 1 <= Accepted(cs)
  {
  }

  /** The solver term of an accepted constraint: the term's own, or a Bool
      constant built from the Python bool. */
  function Lower(v: PyVal): Native {
    if v.PTerm? then v.t.handle else NConst(Bool, v)
  }

  function Lowered(cs: seq<PyVal>): (r: seq<Native>)
    ensures |r| == |cs| && forall i :: 0 <= i < |cs| ==> r[i] == Lower(cs[i])
  {
    seq(|cs|, i requires 0 <= i < |cs| => Lower(cs[i]))
  }

  lemma OneBoolAccepted(c: Term)
    requires c.SortOf() == Bool
    ensures var cs := AssertArgs([PTerm(c)]);
      Accepted(cs) == |cs| == 1 && Lowered(cs[..1]) == [c.handle]
  {
    assert AssertArgs([PTerm(c)]) == [PTerm(c)];
    AssertableIsBool(PTerm(c));
  }

  /** What each backend constructor raises when `set_solver` calls it
      with no argument: `CVC4Solver.__init__` reads `functions.Extract` and
      `BoolectorSolver.__init__` reads `functions.Equals`, neither of which
      the operator-table module defines, and `Z3Solver.__init__` takes a
      `strict` argument that is not passed. */
  function ConstructorErrors(): (failing: map<SolverKind, PyError>)
    ensures failing.Keys == {CVC4, Z3, Boolector}
  {
    map[CVC4 := AttributeError, Z3 := TypeError, Boolector := AttributeError]
  }

  /** With the constructors as written, no solver can be chosen: every
      name either is unknown or raises, and no solver becomes current. */
  method NothingConstructs(name: string) returns (r: Result<()>)
    ensures r.Err?
    ensures name == "Z3" ==> r == Err(TypeError)
    ensures name == "CVC4" || name == "Boolector" ==> r == Err(AttributeError)
    ensures KindOf(name).None? ==> r == Err(KeyError)
  {
    var m := new ModuleState();
    r := m.SetSolver(name, ConstructorErrors());
    assert m.solver == null;
  }

  /** A client of the module: switching to another solver and back keeps
      the first instance and the constraints already given to it, provided
      both constructors succeed. */
  method SwitchBack(m: ModuleState, c: Term, failing: map<SolverKind, PyError>)
    requires m.Valid() && c.SortOf() == Bool
    requires Z3 !in failing && CVC4 !in failing
    modifies m, m.cache.Values
    ensures m.Valid() && m.solver != null && m.solver.kind == Z3
    ensures |m.solver.asserted| > 0 && m.solver.asserted[|m.solver.asserted| - 1] == c.handle
  {
    assert KindOf("Z3") == Some(Z3) && KindOf("CVC4") == Some(CVC4);
    var _ := m.SetSolver("Z3", failing);
    var z3 := m.solver;
    assert z3 != null && m.cache["Z3"] == z3 && z3.kind == Z3;
    OneBoolAccepted(c);
    var r := m.Assert([PTerm(c)]);
    assert z3.asserted[|z3.asserted| - 1] == c.handle;
    var _ := m.SetSolver("CVC4", failing);
    assert m.cache["Z3"] == z3;
    var _ := m.SetSolver("Z3", failing);
    assert m.solver == z3;
  }

  // ---------------------------------------------------------------------
  // Operators

  /** The callables an `operator` can wrap: a function generated for a
      table entry (closing over its name and fdata), or `_And` / `_Or`. */
  datatype Callable = Gen(name: string, fd: FData) | AndFn | OrFn

  /** `operator(func, *args)`: a callable with the arguments bound so far. */
  datatype Partial = Partial(func: Callable, args: seq<PyVal>)

  /** The first argument of `__gen_operator`: a generated function, or an
      operator already. */
  datatype Callee = Plain(f: Callable) | Bound(p: Partial)

  /** What `__gen_operator` returns: a new operator, the result of
      `apply_fun(fun, *operands)`, a plain value, or an exception. */
  datatype GenOutcome =
    | GOp(p: Partial)
    | GApply(fun: Partial, operands: seq<PyVal>)
    | GValue(v: PyVal)
    | GRaise(error: PyError)

  /** `if args and isinstance(args[0], list): args = args[0]`: a tuple
      or a string is not a list and stays one argument. */
  function ListUnpack(args: seq<PyVal>): (r: seq<PyVal>)
    ensures |args| == 0 || !args[0].PList? ==> r == args
    ensures |args| > 0 && args[0].PList? ==> r == args[0].items
  {
    if |args| > 0 && args[0].PList? then args[0].items else args
  }

  /** `__gen_operator(fun, fdata, *args)` as written: the strict-mode check
      compares the number of ALL arguments, indices included, with the
      maximum number of operands. */
  function GenOperatorAsWritten(fun: Callee, fd: FData, args0: seq<PyVal>, strict: bool): (r: GenOutcome)
    ensures r.GApply? && strict ==> |ListUnpack(args0)| <= fd.maxArity
  {
    var args := ListUnpack(args0);
    var n := |args|;
    var k := fd.numIndices;
    match fun
    case Bound(p) =>
      if |p.args| != k then GRaise(AssertionError)
      else if n > fd.minArity then
        if strict && n > fd.maxArity then GRaise(ValueError) else GApply(p, args)
      else GOp(Partial(p.func, args))
    case Plain(f) =>
      if n == k || n == 0 then GOp(Partial(f, args))
      else if n >= k + fd.minArity then
        if strict && n > fd.maxArity then GRaise(ValueError)
        else GApply(Partial(f, args[..k]), args[k..])
      else GRaise(ValueError)
  }

  /** `__gen_operator` with the strict check on the operands alone, as
      the operator class in functions.py does it. */
  function GenOperator(fun: Callee, fd: FData, args0: seq<PyVal>, strict: bool): (r: GenOutcome)
    // a generated function: no argument or exactly the indices give an operator
    ensures fun.Plain? ==> (r.GOp? <==> |ListUnpack(args0)| in {0, fd.numIndices})
    ensures fun.Plain? && r.GOp? ==> r.p == Partial(fun.f, ListUnpack(args0))
    // otherwise the indices are bound and the rest applied, losing nothing
    ensures fun.Plain? && r.GApply? ==>
      |r.fun.args| == fd.numIndices && r.fun.func == fun.f && r.fun.args + r.operands == ListUnpack(args0)
    ensures fun.Plain? && r.GApply? ==> fd.minArity <= |r.operands|
    ensures fun.Plain? ==>
      (r.GRaise? <==>
        && |ListUnpack(args0)| !in {0, fd.numIndices}
        && (|ListUnpack(args0)| < fd.numIndices + fd.minArity
            || (strict && |ListUnpack(args0)| - fd.numIndices > fd.maxArity)))
    ensures r.GRaise? && fun.Plain? ==> r.error == ValueError
    // strict mode never applies more operands than the maximum arity
    ensures r.GApply? && strict ==> |r.operands| <= fd.maxArity
    ensures !r.GValue?
  {
    var args := ListUnpack(args0);
    var n := |args|;
    var k := fd.numIndices;
    match fun
    case Bound(p) =>
      if |p.args| != k then GRaise(AssertionError)
      else if n > fd.minArity then
        if strict && n > fd.maxArity then GRaise(ValueError) else GApply(p, args)
      else GOp(Partial(p.func, args))
    case Plain(f) =>
      if n == k || n == 0 then GOp(Partial(f, args))
      else if n >= k + fd.minArity then
        if strict && n - k > fd.maxArity then GRaise(ValueError)
        else
          assert args[..k] + args[k..] == args;
          GApply(Partial(f, args[..k]), args[k..])
      else GRaise(ValueError)
  }

  /** The two agree on every operator without indices and in permissive
      mode; they differ only where the written check refuses a strict call
      that has at most the maximum number of operands. */
  lemma GenOperatorAsWrittenDiffers(fun: Callee, fd: FData, args: seq<PyVal>, strict: bool)
    ensures fd.numIndices == 0 || !strict || fun.Bound? ==>
      GenOperatorAsWritten(fun, fd, args, strict) == GenOperator(fun, fd, args, strict)
    ensures GenOperatorAsWritten(fun, fd, args, strict) != GenOperator(fun, fd, args, strict) ==>
      GenOperatorAsWritten(fun, fd, args, strict) == GRaise(ValueError) && GenOperator(fun, fd, args, strict).GApply?
  {
  }

  /** `Extract(7, 0, x)` in strict mode: one operand, as Extract takes, but
      three arguments, more than its maximum arity of one. */
  lemma StrictExtractRefused(x: Term)
    ensures GenOperatorAsWritten(Plain(Gen("Extract", FData(2, 1, 1, NoCustom))), FData(2, 1, 1, NoCustom),
      [PInt(7), PInt(0), PTerm(x)], true) == GRaise(ValueError)
    ensures GenOperator(Plain(Gen("Extract", FData(2, 1, 1, NoCustom))), FData(2, 1, 1, NoCustom),
      [PInt(7), PInt(0), PTerm(x)], true)
      == GApply(Partial(Gen("Extract", FData(2, 1, 1, NoCustom)), [PInt(7), PInt(0)]), [PTerm(x)])
  {
    var args := [PInt(7), PInt(0), PTerm(x)];
    assert args[..2] == [PInt(7), PInt(0)] && args[2..] == [PTerm(x)];
  }

  /** An operator already holding its indices, called with exactly the
      minimum number of operands, is not applied: the operands become the
      bound arguments of a new operator and the indices are dropped. */
  lemma BoundOperatorAtMinimumRebinds(p: Partial, fd: FData, operands: seq<PyVal>, strict: bool)
    requires |p.args| == fd.numIndices && |operands| == fd.minArity
    requires |operands| == 0 || !operands[0].PList?
    ensures GenOperator(Bound(p), fd, operands, strict) == GOp(Partial(p.func, operands))
  {
  }

  /** The fdata `_And`/`_Or` pass in strict and in permissive mode. */
  const StrictAndOr: FData := FData(0, 2, Operators.MaxSize, NoCustom)
  const PermissiveAndOr: FData := FData(0, 1, Operators.MaxSize, NoCustom)

  /** `_And(*args)` / `_Or(*args)`: in permissive mode an empty list gives
      the identity and a single argument is returned unchanged. */
  function AndOr(f: Callable, args0: seq<PyVal>, strict: bool): (r: GenOutcome)
    requires f == AndFn || f == OrFn
    // strict mode checks arity (0, 2, maxsize)
    ensures strict ==> r == GenOperator(Plain(f), StrictAndOr, args0, true)
    ensures !strict && |args0| > 0 && args0[0] == PList([]) ==> r == GValue(PBool(f == AndFn))
    ensures !strict && |ListUnpack(args0)| == 1 && args0 != [PList([])] ==> r == GValue(ListUnpack(args0)[0])
    ensures !strict && |ListUnpack(args0)| >= 2 && !ListUnpack(args0)[0].PList? ==>
      r.GApply? && r.fun == Partial(f, []) && r.operands == ListUnpack(args0)
  {
    if strict then GenOperator(Plain(f), StrictAndOr, args0, true)
    else if |args0| > 0 && args0[0] == PList([]) then GValue(PBool(f == AndFn))
    else
      var args := ListUnpack(args0);
      if |args| == 1 then GValue(args[0])
      else GenOperator(Plain(f), PermissiveAndOr, args, false)
  }

  /** `And()` with no argument at all is not True: it returns the And
      operator itself; only `And([])` gives True.  Strict mode refuses a
      single argument. */
  lemma AndEdgeCases(x: PyVal)
    requires !x.PList?
    ensures AndOr(AndFn, [], false) == GOp(Partial(AndFn, []))
    ensures AndOr(AndFn, [PList([])], false) == GValue(PBool(true))
    ensures AndOr(OrFn, [PList([])], false) == GValue(PBool(false))
    ensures AndOr(AndFn, [x], false) == GValue(x)
    ensures AndOr(AndFn, [x], true) == GRaise(ValueError)
  {
  }

  /** A tuple is not a list: `And((a, b))` and `Or(())` return the tuple
      itself in permissive mode, and an operator with one index called
      with `(a, b)` binds the whole tuple as that index. */
  lemma TupleIsOneArgument(a: PyVal, b: PyVal, name: string, fd: FData, strict: bool)
    requires fd.numIndices == 1
    ensures AndOr(AndFn, [PTuple([a, b])], false) == GValue(PTuple([a, b]))
    ensures AndOr(OrFn, [PTuple([])], false) == GValue(PTuple([]))
    ensures GenOperator(Plain(Gen(name, fd)), fd, [PTuple([a, b])], strict) == GOp(Partial(Gen(name, fd), [PTuple([a, b])]))
  {
  }

  /** Calling an operator: its callable receives the bound arguments
      followed by the new ones. */
  function CallPartial(p: Partial, args: seq<PyVal>, strict: bool): GenOutcome {
    match p.func
    case Gen(_, fd) => GenOperator(Plain(p.func), fd, p.args + args, strict)
    case AndFn => AndOr(AndFn, p.args + args, strict)
    case OrFn => AndOr(OrFn, p.args + args, strict)
  }

  /** The exported name of a table entry: `__gen_function` calls the
      generated function with no argument. */
  function Exported(name: string, fd: FData): (p: Partial)
    ensures GenOperator(Plain(Gen(name, fd)), fd, [], false) == GOp(p)
  {
    Partial(Gen(name, fd), [])
  }

  /** With the corrected strict check, `Extract(7, 0)(x)` is
      `Extract(7, 0, x)`: binding the indices first and the operand
      afterwards applies the same thing.  As written, strict mode counts
      the indices against the maximum arity and refuses the direct call. */
  lemma IndicesThenOperand(fd: FData, i: PyVal, j: PyVal, x: PyVal, strict: bool)
    requires fd == FData(2, 1, 1, NoCustom)
    requires !i.PList? && !x.PList?
    ensures CallPartial(Exported("Extract", fd), [i, j], strict) == GOp(Partial(Gen("Extract", fd), [i, j]))
    ensures CallPartial(Partial(Gen("Extract", fd), [i, j]), [x], strict)
      == CallPartial(Exported("Extract", fd), [i, j, x], strict)
    ensures CallPartial(Exported("Extract", fd), [i, j, x], strict).GApply?
    ensures strict ==> GenOperatorAsWritten(Plain(Gen("Extract", fd)), fd, [i, j, x], true) == GRaise(ValueError)
  {
    assert [i, j, x][..2] == [i, j] && [i, j, x][2..] == [x];
  }

  // ---------------------------------------------------------------------
  // apply_fun and fun2sort

  /** `apply_fun(fun, *args)`: the solver arguments handed to the current
      solver together with `fun`, or the exception raised first. */
  function ApplyFunArgs(args0: seq<PyVal>, strict: bool): (r: Result<seq<Native>>)
    // an empty argument list fails on `args[0]` or on `[...][-1]`
    ensures |args0| == 0 ==> r == Err(IndexError)
    ensures r.Ok? ==> |r.value| == |FlatArgs(args0)| > 0
    // terms contribute their own solver terms
    ensures r.Ok? ==> forall i :: 0 <= i < |r.value| ==>
      (FlatArgs(args0)[i].PTerm? ==> r.value[i] == FlatArgs(args0)[i].t.handle)
    // other values become constants of the last argument's sort
    ensures r.Ok? ==> forall i :: 0 <= i < |r.value| ==>
      (!FlatArgs(args0)[i].PTerm? ==>
        !strict && Last(FlatArgs(args0)).PTerm? && r.value[i] == NConst(Last(FlatArgs(args0)).t.SortOf(), FlatArgs(args0)[i]))
    // strict mode takes only terms
    ensures strict && |args0| > 0 ==> (r.Ok? <==> |FlatArgs(args0)| > 0 && AllTerms(FlatArgs(args0)))
    // permissive mode also takes literals when the last argument is a term
    ensures !strict && |args0| > 0 ==>
      (r.Ok? <==> |FlatArgs(args0)| > 0 && (AllTerms(FlatArgs(args0)) || Last(FlatArgs(args0)).PTerm?))
    // an empty leading sequence fails on `[...][-1]`; any other failure reads a missing attribute
    ensures |args0| > 0 && |FlatArgs(args0)| == 0 ==> r == Err(IndexError)
    ensures |args0| > 0 && |FlatArgs(args0)| > 0 && r.Err? ==> r.error == AttributeError
  {
    if |args0| == 0 then Err(IndexError)
    else
      var args := FlatArgs(args0);
      if |args| == 0 then Err(IndexError)
      else if AllTerms(args) then Ok(seq(|args|, i requires 0 <= i < |args| => args[i].t.handle))
      else if strict || !Last(args).PTerm? then Err(AttributeError)
      else
        var s := Last(args).t.SortOf();
        Ok(seq(|args|, i requires 0 <= i < |args| => if args[i].PTerm? then args[i].t.handle else NConst(s, args[i])))
  }

  /** `if isinstance(args[0], Sequence): args = tuple(args[0])`. */
  function FlatArgs(args: seq<PyVal>): seq<PyVal>
    requires |args| > 0
  {
    if IsSequence(args[0]) then Elements(args[0]) else args
  }

  function Last(s: seq<PyVal>): PyVal
    requires |s| > 0
  {
    s[|s| - 1]
  }

  predicate AllTerms(s: seq<PyVal>) {
    forall i :: 0 <= i < |s| ==> s[i].PTerm?
  }

  /** In permissive mode a literal takes the sort of the LAST argument,
      which must therefore be a term: `apply_fun(BVAdd, 1, x)` passes a
      constant 1 of x's sort and `x`, but `apply_fun(BVAdd, x, 1)` fails
      on `(1).sort`.  Strict mode refuses any literal. */
  lemma LiteralTakesLastSort(x: Term)
    ensures ApplyFunArgs([PInt(1), PTerm(x)], false) == Ok([NConst(x.SortOf(), PInt(1)), x.handle])
    ensures ApplyFunArgs([PTerm(x), PInt(1)], false) == Err(AttributeError)
    ensures ApplyFunArgs([PInt(1), PTerm(x)], true) == Err(AttributeError)
    ensures ApplyFunArgs([PList([])], false) == Err(IndexError)
  {
    var a, b := [PInt(1), PTerm(x)], [PTerm(x), PInt(1)];
    assert !a[0].PTerm? && !b[1].PTerm?;
    assert FlatArgs(a) == a && FlatArgs(b) == b;
    assert Last(a).PTerm? && !Last(b).PTerm? && !AllTerms(a);
    var ra := ApplyFunArgs(a, false).value;
    assert ra[0] == NConst(x.SortOf(), PInt(1)) && ra[1] == x.handle;
    assert ra == [NConst(x.SortOf(), PInt(1)), x.handle];
  }

  /** The names `fun2sort` knows and how it computes each result sort.
      `sorts.get_sort`, which it refers to, is not part of this model; it
      is taken to be the sort of the first argument. */
  function Fun2Sort(name: string, args: seq<PyVal>): (r: Result<Sort>)
    ensures name in BoolFuns ==> r == Ok(Bool)
    ensures name == "Extract" && |args| == 3 && IndexValue(args[0]).Some? && IndexValue(args[1]).Some? ==>
      r == Ok(BitVec(IndexValue(args[0]).value - IndexValue(args[1]).value + 1))
    ensures name == "Concat" && |args| == 2 && BvTerm(args[0]) && BvTerm(args[1]) ==>
      r == Ok(BitVec(args[0].t.SortOf().width + args[1].t.SortOf().width))
    ensures name == "Zero_extend" && |args| == 2 && BvTerm(args[0]) && IndexValue(args[1]).Some? ==>
      r == Ok(BitVec(args[0].t.SortOf().width + IndexValue(args[1]).value))
    ensures name == "Ite" && |args| >= 2 && args[1].PTerm? ==> r == Ok(args[1].t.SortOf())
    ensures name !in BoolFuns && name !in SortOfFirstFuns && name !in {"Ite", "Extract", "Concat", "Zero_extend"} ==>
      r == Err(KeyError)
  {
    if name in BoolFuns then Ok(Bool)
    else if name in SortOfFirstFuns then GetSort(args)
    else if name == "Ite" then (if |args| == 0 then GetSort([]) else GetSort(args[1..]))
    else if name == "Extract" then
      if |args| != 3 then Err(TypeError)
      else if IndexValue(args[0]).None? || IndexValue(args[1]).None? then Err(TypeError)
      else Ok(BitVec(IndexValue(args[0]).value - IndexValue(args[1]).value + 1))
    else if name == "Concat" then
      if |args| != 2 then Err(TypeError)
      else if !BvTerm(args[0]) || !BvTerm(args[1]) then Err(AttributeError)
      else Ok(BitVec(args[0].t.SortOf().width + args[1].t.SortOf().width))
    else if name == "Zero_extend" then
      if |args| != 2 then Err(TypeError)
      else if !BvTerm(args[0]) then Err(AttributeError)
      else if IndexValue(args[1]).None? then Err(TypeError)
      else Ok(BitVec(args[0].t.SortOf().width + IndexValue(args[1]).value))
    else Err(KeyError)
  }

  /** A value used as a width in integer arithmetic: an int, or a bool,
      which Python counts as 0 or 1. */
  function IndexValue(v: PyVal): (r: Option<int>)
    ensures r.Some? <==> v.PInt? || v.PBool?
    ensures v.PInt? ==> r == Some(v.i)
    ensures v.PBool? ==> r == Some(if v.b then 1 else 0)
  {
    match v
    case PInt(i) => Some(i)
    case PBool(b) => Some(if b then 1 else 0)
    case _ => None
  }

  const BoolFuns: set<string> := {"And", "Or", "Equals", "Not", "LT", "GT", "LEQ", "GEQ",
    "BVUlt", "BVUle", "BVUgt", "BVUge", "BVSlt", "BVSle", "BVSgt", "BVSge"}

  const SortOfFirstFuns: set<string> := {"No_op", "BVNot", "BVNeg", "Sub", "Add", "BVAnd", "BVOr",
    "BVXor", "BVAdd", "BVSub", "BVMul", "BVUdiv", "BVUrem", "BVShl", "BVAshr", "BVLshr"}

  predicate BvTerm(v: PyVal) {
    v.PTerm? && v.t.SortOf().BitVec?
  }

  function GetSort(args: seq<PyVal>): Result<Sort> {
    if |args| > 0 && args[0].PTerm? then Ok(args[0].t.SortOf()) else Err(AttributeError)
  }

  /** The table calls zero extension "ZeroExt" and fun2sort "Zero_extend",
      so the table's name is not found; Select, Store, Distinct and
      _ApplyUF have no entry either. */
  lemma Fun2SortMissesTableNames(args: seq<PyVal>)
    ensures Fun2Sort("ZeroExt", args) == Err(KeyError)
    ensures Fun2Sort("Select", args) == Err(KeyError)
    ensures Fun2Sort("Store", args) == Err(KeyError)
    ensures Fun2Sort("Distinct", args) == Err(KeyError)
  {
    NotKnown("ZeroExt");
    NotKnown("Select");
    NotKnown("Store");
    NotKnown("Distinct");
  }

  lemma NotKnown(name: string)
    requires name in {"ZeroExt", "Select", "Store", "Distinct"}
    ensures name !in BoolFuns && name !in SortOfFirstFuns && name !in {"Ite", "Extract", "Concat", "Zero_extend"}
  {
  }
}
