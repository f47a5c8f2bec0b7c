/** smt_switch/src/api.py: the `smt` class, one solver instance behind a
    facade.  It builds an operator object per table entry, refuses terms of
    other instances and other solvers, infers the sort that literals are
    coerced to, and keeps its own log of the constraints it asserted. */
module Api {
  import opened Wrappers
  import opened Sorts
  import opened Values
  import Operators
  import SmtModule

  /** What an `smt` object's pure operations depend on: its identity, the
      solver it wraps and its `strict` flag. */
  datatype Instance = Instance(id: nat, kind: SolverKind, strict: bool)

  /** A request to the native solver: `ApplyFun(f_id, indices, *args)` for a
      builtin, `ApplyCustomFun(f_id, *args)` for a declared or defined one. */
  datatype SolverCall =
    | BuiltinCall(id: nat, indices: seq<PyVal>, args: seq<Native>)
    | CustomCall(fun: Native, args: seq<Native>)

  /** An object carrying `_smt` that is not this instance. */
  predicate Foreign(inst: Instance, v: PyVal) {
    (v.PTerm? && v.t.smt != inst.id) || (v.POp? && v.op.smt != inst.id)
  }

  /** The `check_instance` decorator: a first argument that is a sequence
      stands for the arguments; any object from another instance among
      them is refused.  It returns what the decorated method receives. */
  function CheckInstance(inst: Instance, terms0: seq<PyVal>): (r: Result<seq<PyVal>>)
    ensures |terms0| == 0 ==> r == Err(IndexError)
    ensures |terms0| > 0 ==> (r.Ok? <==> forall v :: v in SmtModule.FlatArgs(terms0) ==> !Foreign(inst, v))
    ensures r.Ok? ==> r.value == SmtModule.FlatArgs(terms0)
    ensures r.Err? && |terms0| > 0 ==> r.error == ValueError
  {
    if |terms0| == 0 then Err(IndexError)
    else
      var terms := SmtModule.FlatArgs(terms0);
      if exists v :: v in terms && Foreign(inst, v) then Err(ValueError) else Ok(terms)
  }

  /** `__infer_sort[type(args[-1])]`, with every failure (no argument, or a
      type that is not bool, int or float) turned into RuntimeError. */
  function InferSort(args: seq<PyVal>): (r: Result<Sort>)
    ensures r.Ok? <==> |args| > 0 && (args[|args| - 1].PBool? || args[|args| - 1].PInt? || args[|args| - 1].PFloat?)
    ensures r.Err? ==> r.error.RuntimeError?
  {
    if |args| == 0 then Err(RuntimeError("No smt term arguments and unable to infer argument(s) sort."))
    else
      match args[|args| - 1]
      case PBool(_) => Ok(Bool)
      case PInt(_) => Ok(Int)
      case PFloat(_) => Ok(Real)
      case _ => Err(RuntimeError("No smt term arguments and unable to infer argument(s) sort."))
  }

  /** The position of the last term among the arguments, if any. */
  function LastTerm(args: seq<PyVal>): (r: Option<nat>)
    ensures r.None? <==> forall i :: 0 <= i < |args| ==> !args[i].PTerm?
    ensures r.Some? ==> r.value < |args| && args[r.value].PTerm?
    ensures r.Some? ==> forall i :: r.value < i < |args| ==> !args[i].PTerm?
  {
    if |args| == 0 then None
    else if args[|args| - 1].PTerm? then Some(|args| - 1)
    else LastTerm(args[..|args| - 1])
  }

  /** The sort literals are coerced to: that of the last term argument, or
      failing that the one inferred from the last argument's Python type. */
  function CoercionSort(args: seq<PyVal>): (r: Result<Sort>)
    ensures LastTerm(args).Some? ==> r == Ok(args[LastTerm(args).value].t.SortOf())
    ensures LastTerm(args).None? ==> r == InferSort(args)
  {
    match LastTerm(args)
    case Some(k) => Ok(args[k].t.SortOf())
    case None => InferSort(args)
  }

  /** A term of another solver's Term class. */
  predicate OtherSolver(inst: Instance, v: PyVal) {
    v.PTerm? && v.t.kind != inst.kind
  }

  /** No argument is a term of another solver. */
  predicate SameSolver(inst: Instance, args: seq<PyVal>) {
    forall v :: v in args ==> !OtherSolver(inst, v)
  }

  /** The body of `ApplyFun(fun, *args)`, after the instance check. */
  function ApplyFunBody(inst: Instance, fun: Operator, args0: seq<PyVal>): (r: Result<SolverCall>)
    ensures |args0| == 0 ==> r == Err(IndexError)
    // the call goes through exactly when no check below fails
    ensures |args0| > 0 ==>
      (r.Ok? <==>
        && SameSolver(inst, SmtModule.FlatArgs(args0))
        && CoercionSort(SmtModule.FlatArgs(args0)).Ok?
        && (!inst.strict || SmtModule.AllTerms(SmtModule.FlatArgs(args0)))
        && fun.Kind().Ok?
        && (fun.Kind() == Ok(Builtin) || fun.args == []))
    // and the first check that fails names the error
    ensures |args0| > 0 && !SameSolver(inst, SmtModule.FlatArgs(args0)) ==> r == Err(ValueError)
    ensures |args0| > 0 && SameSolver(inst, SmtModule.FlatArgs(args0)) && CoercionSort(SmtModule.FlatArgs(args0)).Err? ==>
      r == Err(CoercionSort(SmtModule.FlatArgs(args0)).error) && r.error.RuntimeError?
    ensures
      && |args0| > 0 && SameSolver(inst, SmtModule.FlatArgs(args0)) && CoercionSort(SmtModule.FlatArgs(args0)).Ok?
      && inst.strict && !SmtModule.AllTerms(SmtModule.FlatArgs(args0))
      ==> r == Err(AttributeError)
    ensures
      && |args0| > 0 && SameSolver(inst, SmtModule.FlatArgs(args0)) && CoercionSort(SmtModule.FlatArgs(args0)).Ok?
      && (!inst.strict || SmtModule.AllTerms(SmtModule.FlatArgs(args0))) && fun.info.NoInfo?
      ==> r == Err(AttributeError)
    ensures r == Err(AssertionError) ==> fun.Kind().Ok? && fun.Kind() != Ok(Builtin) && fun.args != []
    // no term of another solver gets through
    ensures r.Ok? ==> SameSolver(inst, SmtModule.FlatArgs(args0))
    // one solver argument per argument: terms as they are, literals as constants of the coercion sort
    ensures r.Ok? ==> |CallArgs(r.value)| == |SmtModule.FlatArgs(args0)|
    ensures r.Ok? ==> forall i :: 0 <= i < |CallArgs(r.value)| ==>
      (SmtModule.FlatArgs(args0)[i].PTerm? ==> CallArgs(r.value)[i] == SmtModule.FlatArgs(args0)[i].t.handle)
    ensures r.Ok? ==> forall i :: 0 <= i < |CallArgs(r.value)| ==>
      (!SmtModule.FlatArgs(args0)[i].PTerm? ==>
         && !inst.strict
         && CoercionSort(SmtModule.FlatArgs(args0)).Ok?
         && CallArgs(r.value)[i] == NConst(CoercionSort(SmtModule.FlatArgs(args0)).value, SmtModule.FlatArgs(args0)[i]))
    // builtins go with their indices; declared and defined functions must have none
    ensures r.Ok? ==> (r.value.BuiltinCall? <==> fun.Kind() == Ok(Builtin))
    ensures r.Ok? && r.value.BuiltinCall? ==> r.value.indices == fun.args && r.value.id == fun.info.id
    ensures r.Ok? && r.value.CustomCall? ==> fun.args == [] && Operators.FId(fun) == Ok(r.value.fun)
  {
    if |args0| == 0 then Err(IndexError)
    else
      var args := SmtModule.FlatArgs(args0);
      if !SameSolver(inst, args) then Err(ValueError)
      else
        var sort :- CoercionSort(args);
        var natives :- SolverArgs(inst.strict, sort, args);
        var ft :- fun.Kind();
        if ft == Builtin then Ok(BuiltinCall(fun.info.id, fun.args, natives))
        else if |fun.args| != 0 then Err(AssertionError)
        else Ok(CustomCall(Operators.FId(fun).value, natives))
  }

  function CallArgs(c: SolverCall): seq<Native> {
    c.args
  }

  /** `solver_args`: strict mode reads `solver_term` of every argument;
      permissive mode builds `TheoryConst(sort, arg)` for the others. */
  function SolverArgs(strict: bool, sort: Sort, args: seq<PyVal>): (r: Result<seq<Native>>)
    ensures r.Ok? <==> !strict || SmtModule.AllTerms(args)
    ensures r.Err? ==> r.error == AttributeError
    ensures r.Ok? ==> |r.value| == |args|
    ensures r.Ok? ==> forall i :: 0 <= i < |args| ==>
      r.value[i] == if args[i].PTerm? then args[i].t.handle else NConst(sort, args[i])
  {
    if strict && !SmtModule.AllTerms(args) then Err(AttributeError)
    else Ok(seq(|args|, i requires 0 <= i < |args| => if args[i].PTerm? then args[i].t.handle else NConst(sort, args[i])))
  }

  /** `ApplyFun` as decorated in the source: `check_instance` sees the
      operator first, so a list of arguments is never looked into. */
  function ApplyFunAsWritten(inst: Instance, fun: Operator, args: seq<PyVal>): (r: Result<SolverCall>)
    ensures Foreign(inst, POp(fun)) ==> r == Err(ValueError)
  {
    var checked :- CheckInstance(inst, [POp(fun)] + args);
    ApplyFunBody(inst, checked[0].op, checked[1..])
  }

  /** `ApplyFun` with the operator and each (unpacked) argument checked. */
  function ApplyFun(inst: Instance, fun: Operator, args: seq<PyVal>): (r: Result<SolverCall>)
    // nothing from another instance reaches the solver, inside a list or not
    ensures r.Ok? ==> |args| > 0 && !Foreign(inst, POp(fun)) && forall v :: v in SmtModule.FlatArgs(args) ==> !Foreign(inst, v)
    ensures r.Ok? ==> |args| > 0 && SameSolver(inst, SmtModule.FlatArgs(args))
    // past the instance checks, the call succeeds or fails as the body does
    ensures |args| > 0 && !Foreign(inst, POp(fun)) && (forall v :: v in SmtModule.FlatArgs(args) ==> !Foreign(inst, v)) ==>
      r == ApplyFunBody(inst, fun, args)
    ensures Foreign(inst, POp(fun)) ==> r == Err(ValueError)
    ensures |args| > 0 && (exists v :: v in SmtModule.FlatArgs(args) && Foreign(inst, v)) ==> r == Err(ValueError)
    ensures |args| == 0 && !Foreign(inst, POp(fun)) ==> r == Err(IndexError)
  {
    if Foreign(inst, POp(fun)) then Err(ValueError)
    else if |args| == 0 then Err(IndexError)
    else if exists v :: v in SmtModule.FlatArgs(args) && Foreign(inst, v) then Err(ValueError)
    else ApplyFunBody(inst, fun, args)
  }

  /** Without a list the decorated version checks the same objects. */
  lemma ApplyFunAgreesWithoutList(inst: Instance, fun: Operator, args: seq<PyVal>)
    requires |args| > 0 && !IsSequence(args[0])
    ensures ApplyFunAsWritten(inst, fun, args) == ApplyFun(inst, fun, args)
  {
    var all := [POp(fun)] + args;
    assert SmtModule.FlatArgs(all) == all;
    assert all[0] == POp(fun) && all[1..] == args;
    assert SmtModule.FlatArgs(args) == args;
    if !Foreign(inst, POp(fun)) && (forall v :: v in args ==> !Foreign(inst, v)) {
      forall v | v in all ensures !Foreign(inst, v) {
        if v != POp(fun) {
          assert v in args;
        }
      }
    }
  }

  /** A term of another instance of the same solver, passed inside a list,
      gets through the decorated version. */
  lemma ForeignTermInListAccepted(inst: Instance, fun: Operator, x: Term, y: Term)
    requires fun.smt == inst.id && fun.info.EnumInfo? && fun.args == []
    requires x.smt != inst.id && x.kind == inst.kind
    requires y.smt == inst.id && y.kind == inst.kind
    ensures ApplyFunAsWritten(inst, fun, [PList([PTerm(x), PTerm(y)])]).Ok?
    ensures ApplyFun(inst, fun, [PList([PTerm(x), PTerm(y)])]) == Err(ValueError)
  {
    var l := PList([PTerm(x), PTerm(y)]);
    var all := [POp(fun), l];
    assert SmtModule.FlatArgs(all) == all;
    assert forall v :: v in all ==> !Foreign(inst, v);
    assert all[1..] == [l];
    var args := SmtModule.FlatArgs([l]);
    assert args == [PTerm(x), PTerm(y)];
    assert PTerm(x) in args;
    assert forall v :: v in args ==> !OtherSolver(inst, v);
    assert LastTerm(args) == Some(1);
    assert SmtModule.AllTerms(args);
  }

  /** What calling an operator object with `smt` bound ends in. */
  datatype Invoked = NewOp(op: Operator) | Value(v: PyVal) | Solver(call: SolverCall)

  /** `op(*args, **kwargs)`: the operator's own dispatch, then `ApplyFun`
      as decorated (so a list argument is not looked into), which accepts
      no keyword arguments. */
  function Invoke(inst: Instance, op: Operator, args: seq<PyVal>, kwargs: map<string, PyVal>): (r: Result<Invoked>)
    ensures r.Ok? && r.value.Solver? ==> kwargs == map[]
    ensures Operators.Call(op, args, kwargs, inst.strict).Raised? ==>
      r == Err(Operators.Call(op, args, kwargs, inst.strict).error)
  {
    match Operators.Call(op, args, kwargs, inst.strict)
    case Rebound(o) => Ok(NewOp(o))
    case CustomValue(v) => Ok(Value(v))
    case Raised(e) => Err(e)
    case Apply(f, operands, kw) =>
      if kw != map[] then Err(TypeError)
      else
        var c :- ApplyFunAsWritten(inst, f, operands);
        Ok(Solver(c))
  }

  /** `smt.Not([[x, y]])` with `x` a term of another instance of the same
      solver reaches the solver: the operator call goes through the
      decorated `ApplyFun`, whose check stops at the outer list. */
  lemma InvokeForeignInListAccepted(inst: Instance, x: Term, y: Term)
    requires x.smt != inst.id && x.kind == inst.kind
    requires y.smt == inst.id && y.kind == inst.kind
    ensures Invoke(inst, Operators.BuiltinOp(inst.id, 3), [PList([PList([PTerm(x), PTerm(y)])])], map[]).Ok?
  {
    var op := Operators.BuiltinOp(inst.id, 3);
    var inner := PList([PTerm(x), PTerm(y)]);
    assert Unpack([PList([inner])]) == [inner];
    assert Operators.Call(op, [PList([inner])], map[], inst.strict) == Operators.Apply(op, [inner], map[]);
    ForeignTermInListAccepted(inst, op, x, y);
  }

  /** `DeclareFun(name, inputsorts, outputsort)`: no input sorts declares a
      constant; otherwise a "uf" operator taking exactly that many operands. */
  function DeclareFun(inst: Instance, name: string, inputsorts: PyVal, outputsort: Sort): (r: Result<PyVal>)
    ensures !IsSequence(inputsorts) ==> r == Err(AssertionError)
    ensures IsSequence(inputsorts) && Elements(inputsorts) == [] ==>
      r == Ok(PTerm(Term(inst.id, inst.kind, NSym(name, outputsort), None)))
    ensures r.Ok? && r.value.POp? ==>
      && |Elements(inputsorts)| > 0
      && r.value.op.smt == inst.id
      && r.value.op.Kind() == Ok(UF) && r.value.op.FName() == Ok(name) && r.value.op.args == []
      && r.value.op.fdata == FData(0, |Elements(inputsorts)|, |Elements(inputsorts)|, NoCustom)
    // a non-empty sequence of sorts always declares a "uf" operator over those sorts
    ensures IsSequence(inputsorts) && |Elements(inputsorts)| > 0 && (forall v :: v in Elements(inputsorts) ==> v.PSort?) ==>
      && r.Ok? && r.value.POp?
      && r.value.op.info.UfInfo?
      && r.value.op.info.fun.NFun? && |r.value.op.info.fun.inputs| == |Elements(inputsorts)|
      && (forall i :: 0 <= i < |Elements(inputsorts)| ==> r.value.op.info.fun.inputs[i] == Elements(inputsorts)[i].sort)
      && r.value.op.info.fun.sort == outputsort
    // any other non-empty sequence is refused by the solver
    ensures IsSequence(inputsorts) && (exists v :: v in Elements(inputsorts) && !v.PSort?) ==> r == Err(TypeError)
  {
    if !IsSequence(inputsorts) then Err(AssertionError)
    else
      var ins := Elements(inputsorts);
      if ins == [] then Ok(PTerm(Term(inst.id, inst.kind, NSym(name, outputsort), None)))
      else if exists v :: v in ins && !v.PSort? then Err(TypeError)
      else
        var f := NFun(name, seq(|ins|, i requires 0 <= i < |ins| => ins[i].sort), outputsort);
        var n := |ins|;
        Ok(POp(Operator(inst.id, UfInfo(name, f), FData(0, n, n, NoCustom), [], map[])))
  }

  /** A declared function applies to exactly as many operands as it has
      input sorts: one fewer is refused, and in strict mode one more too. */
  lemma DeclaredFunctionArity(inst: Instance, name: string, ins: seq<Sort>, out: Sort, operands: seq<PyVal>)
    requires |ins| > 0 && (|operands| == 0 || !IsSequence(operands[0]))
    requires DeclareFun(inst, name, PList(seq(|ins|, i requires 0 <= i < |ins| => PSort(ins[i]))), out).Ok?
    ensures var op := DeclareFun(inst, name, PList(seq(|ins|, i requires 0 <= i < |ins| => PSort(ins[i]))), out).value.op;
      && (|operands| == |ins| ==> Operators.Call(op, operands, map[], inst.strict).Apply?)
      && (0 < |operands| < |ins| ==> Operators.Call(op, operands, map[], inst.strict) == Operators.Raised(ValueError))
      && (|operands| > |ins| && inst.strict ==> Operators.Call(op, operands, map[], inst.strict) == Operators.Raised(ValueError))
  {
  }

  /** `DefineFun(name, paramlist, fundef)`: a "macro" operator taking as
      many operands as there are parameters, which must all be terms. */
  function DefineFun(inst: Instance, name: string, params: seq<PyVal>, fundef: PyVal): (r: Result<Operator>)
    ensures r.Ok? <==> SmtModule.AllTerms(params) && fundef.PTerm?
    ensures r.Err? ==> r.error == AttributeError
    ensures r.Ok? ==> r.value.Kind() == Ok(Macro) && r.value.FName() == Ok(name) && r.value.args == []
    ensures r.Ok? ==> r.value.fdata == FData(0, |params|, |params|, NoCustom) && r.value.smt == inst.id
    ensures r.Ok? ==> r.value.info.impl == fundef.t
  {
    if !SmtModule.AllTerms(params) || !fundef.PTerm? then Err(AttributeError)
    else
      var handles := seq(|params|, i requires 0 <= i < |params| => params[i].t.handle);
      var f := NMacro(name, handles, fundef.t.handle, fundef.t.SortOf());
      var n := |params|;
      Ok(Operator(inst.id, MacroInfo(name, f, fundef.t), FData(0, n, n, NoCustom), [], map[]))
  }

  /** `GetValue(var)`: the same term with the solver's value recorded. */
  function GetValue(v: PyVal, value: Native): (r: Result<Term>)
    ensures r.Ok? <==> v.PTerm?
    ensures r.Err? ==> r.error == AttributeError
    ensures r.Ok? ==> r.value.value == Some(value)
    ensures r.Ok? ==> r.value.handle == v.t.handle && r.value.smt == v.t.smt && r.value.kind == v.t.kind
  {
    if v.PTerm? then Ok(v.t.(value := Some(value))) else Err(AttributeError)
  }

  /** How `Assert` judges one constraint: `sort not in {bool, Bool(),
      BitVec(1)}` hashes the sort first, and FP sorts are unhashable. */
  function Verdict(v: PyVal): (r: Result<bool>)
    ensures r.Err? <==> v.PTerm? && v.t.SortOf().FP?
    ensures r.Err? ==> r.error == TypeError
    ensures r == Ok(true) <==> v.PBool? || (v.PTerm? && v.t.SortOf() in {Bool, BitVec(1)})
  {
    if v.PBool? then Ok(true)
    else if v.PTerm? then
      var _ :- Hash(v.t.SortOf());
      Ok(v.t.SortOf() == Bool || v.t.SortOf() == BitVec(1))
    else Ok(false)
  }

  /** The number of leading constraints `Assert` accepts. */
  function Accepted(cs: seq<PyVal>): (k: nat)
    ensures k <= |cs|
    ensures forall i :: 0 <= i < k ==> Verdict(cs[i]) == Ok(true)
    ensures k < |cs| ==> Verdict(cs[k]) != Ok(true)
  {
    if cs == [] || Verdict(cs[0]) != Ok(true) then 0 else 1 + Accepted(cs[1..])
  }

  /** The constraints the loop of `Assert(*constraints)` runs over, after
      the decorator and the method have each unpacked a leading sequence. */
  function AssertList(inst: Instance, constraints: seq<PyVal>): (r: Result<seq<PyVal>>)
    ensures |constraints| == 0 ==> r == Err(IndexError)
  {
    var ts :- CheckInstance(inst, constraints);
    if |ts| == 0 then Err(IndexError) else Ok(SmtModule.AssertArgs(ts))
  }

  /** `m` holds the builtin operator of each of the first `n` table entries
      under the entry's name. */
  ghost predicate HasOps(m: map<string, Operator>, id: nat, n: nat)
    requires n <= |Operators.Table()|
  {
    forall j :: 0 <= j < n ==> Operators.Table()[j].0 in m && m[Operators.Table()[j].0] == Operators.BuiltinOp(id, j)
  }

  /** `setattr(self, name, operator(self, f))` for table entry `i`: the
      names are distinct, so the earlier entries stay. */
  function AddOp(m: map<string, Operator>, id: nat, i: nat): (m': map<string, Operator>)
    requires i < |Operators.Table()| && HasOps(m, id, i)
    ensures HasOps(m', id, i + 1)
  {
    Operators.FuncEnumValues();
    forall j | 0 <= j < i ensures Operators.Table()[j].0 != Operators.Table()[i].0 {
      assert Operators.Names(Operators.Table())[j] != Operators.Names(Operators.Table())[i];
    }
    m[Operators.Table()[i].0 := Operators.BuiltinOp(id, i)]
  }

  /** An `smt` object. */
  class Smt {
    const inst: Instance
    const solver: SmtModule.Backend
    /** The operator attributes set by `__init__`, by name. */
    const ops: map<string, Operator>
    var constraints: seq<PyVal>

    /** `smt(solver_val, strict)`: a fresh solver, an empty log, and one
        builtin operator per table entry, bound to this instance. */
    constructor (id: nat, kind: SolverKind, strict: bool)
      ensures inst == Instance(id, kind, strict)
      ensures fresh(solver) && solver.kind == kind && solver.asserted == []
      ensures constraints == []
      ensures forall i :: 0 <= i < |Operators.Table()| ==>
        Operators.Table()[i].0 in ops && ops[Operators.Table()[i].0] == Operators.BuiltinOp(id, i)
    {
      inst := Instance(id, kind, strict);
      solver := new SmtModule.Backend(kind);
      constraints := [];
      var m: map<string, Operator> := map[];
      var i := 0;
      while i < |Operators.Table()|
        invariant 0 <= i <= |Operators.Table()|
        invariant HasOps(m, id, i)
      {
        m := AddOp(m, id, i);
        i := i + 1;
      }
      ops := m;
    }

    /** `Assert(*constraints)`: each constraint of sort bool, Bool or
        BitVec(1) is forwarded to the solver and then appended to the log;
        the first other one stops the loop with the earlier ones kept. */
    method Assert(cs0: seq<PyVal>) returns (r: Result<()>)
      modifies this, solver
      ensures AssertList(inst, cs0).Err? ==>
        r == Err(AssertList(inst, cs0).error) && constraints == old(constraints) && solver.asserted == old(solver.asserted)
      ensures AssertList(inst, cs0).Ok? ==>
        var cs := AssertList(inst, cs0).value;
        && constraints == old(constraints) + cs[..Accepted(cs)]
        && solver.asserted == old(solver.asserted) + SmtModule.Lowered(cs[..Accepted(cs)])
        && (r.Ok? <==> Accepted(cs) == |cs|)
        && (r.Err? ==> r.error == if Verdict(cs[Accepted(cs)]).Err? then TypeError else ValueError)
    {
      var list := AssertList(inst, cs0);
      if list.Err? {
        return Err(list.error);
      }
      var cs := list.value;
      var i := 0;
      while i < |cs|
        invariant 0 <= i <= |cs| && i <= Accepted(cs)
        invariant constraints == old(constraints) + cs[..i]
        invariant solver.asserted == old(solver.asserted) + SmtModule.Lowered(cs[..i])
      {
        var v := Verdict(cs[i]);
        if v.Err? {
          return Err(TypeError);
        }
        if !v.value {
          return Err(ValueError);
        }
        assert cs[..i + 1] == cs[..i] + [cs[i]];
        assert SmtModule.Lowered(cs[..i + 1]) == SmtModule.Lowered(cs[..i]) + [SmtModule.Lower(cs[i])];
        solver.asserted := solver.asserted + [SmtModule.Lower(cs[i])];
        constraints := constraints + [cs[i]];
        i := i + 1;
      }
      r := Ok(());
    }
  }

  /** The log grows by exactly what reached the solver: a BitVec(1) term is
      accepted here, unlike in the module-level facade. */
  lemma BitVecOneAccepted(t: Term)
    requires t.SortOf() == BitVec(1)
    ensures Verdict(PTerm(t)) == Ok(true)
    ensures !SmtModule.Assertable(PTerm(t))
  {
    SmtModule.AssertableIsBool(PTerm(t));
  }
}
