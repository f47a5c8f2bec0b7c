/** The Python values that flow through the facade: literals, lists, wrapped
    solver terms and operator objects.  Native solver objects (CVC4, Z3,
    Boolector handles) are modelled as a free term algebra: two natives are
    the same object exactly when they were built the same way. */
module Values {
  import opened Wrappers
  import opened Sorts

  /** The backends an `smt` instance can wrap (`SOLVERS`). */
  datatype SolverKind = CVC4 | Z3 | Boolector

  /** Opaque solver objects.  The sort of an application is whatever the
      native solver reports, so it is recorded when the node is built. */
  datatype Native =
    | NSym(name: string, sort: Sort)
    | NConst(sort: Sort, value: PyVal)
    | NApp(fid: nat, indices: seq<PyVal>, args: seq<Native>, sort: Sort)
    | NCustomApp(fun: Native, args: seq<Native>, sort: Sort)
    | NFun(name: string, inputs: seq<Sort>, sort: Sort)
    | NMacro(name: string, params: seq<Native>, body: Native, sort: Sort)

  /** A wrapped term (`solver_val.Term(smt, solver_term)`): the `smt` instance
      it belongs to (by identity), its Term class and its native handle. */
  datatype Term = Term(smt: nat, kind: SolverKind, handle: Native, value: Option<Native>)
  {
    /** `term.sort`: queried from the native handle. */
    function SortOf(): Sort { handle.sort }
  }

  /** The `custom` slot of `fdata`: the permissive-mode shortcut of And/Or. */
  datatype Custom = NoCustom | CustomAnd | CustomOr

  /** `fdata(num_indices, min_arity, max_arity, custom)`. */
  datatype FData = FData(numIndices: nat, minArity: nat, maxArity: nat, custom: Custom)

  datatype FType = Builtin | UF | Macro

  /** What an `operator` was built from: a member of `func_enum`, a
      `(name, solver function)` pair, a `(name, solver function, definition)`
      triple, or (after re-binding a declared function) the solver function
      alone, which `__init__` does not record: `_fname`, `_f_id` and
      `_f_type` are never set. */
  datatype FuncInfo =
    | EnumInfo(id: nat, name: string)
    | UfInfo(name: string, fun: Native)
    | MacroInfo(name: string, fun: Native, impl: Term)
    | NoInfo

  /** `functions.operator`: immutable once built. */
  datatype Operator = Operator(smt: nat, info: FuncInfo, fdata: FData, args: seq<PyVal>, keywords: map<string, PyVal>)
  {
    /** `op.fname`; an operator without a name raises AttributeError. */
    function FName(): Result<string> {
      match info
      case EnumInfo(_, n) => Ok(n)
      case UfInfo(n, _) => Ok(n)
      case MacroInfo(n, _, _) => Ok(n)
      case NoInfo => Err(AttributeError)
    }

    function Kind(): Result<FType> {
      match info
      case EnumInfo(_, _) => Ok(Builtin)
      case UfInfo(_, _) => Ok(UF)
      case MacroInfo(_, _, _) => Ok(Macro)
      case NoInfo => Err(AttributeError)
    }
  }

  /** Python values passed to the facade.  Lists and tuples are both
      sequences, but only a list passes `isinstance(v, list)`. */
  datatype PyVal =
    | PBool(b: bool)
    | PInt(i: int)
    | PFloat(r: real)
    | PStr(s: string)
    | PNone
    | PList(items: seq<PyVal>)
    | PTuple(items: seq<PyVal>)
    | PTerm(t: Term)
    | POp(op: Operator)
    | PSort(sort: Sort)

  /** `isinstance(v, collections.Sequence)`: true for lists, tuples and str. */
  predicate IsSequence(v: PyVal) {
    v.PList? || v.PTuple? || v.PStr?
  }

  /** The elements a Sequence yields when iterated (a str yields its characters). */
  function Elements(v: PyVal): (r: seq<PyVal>)
    requires IsSequence(v)
    ensures v.PList? || v.PTuple? ==> r == v.items
    ensures v.PStr? ==> |r| == |v.s| && forall i :: 0 <= i < |r| ==> r[i] == PStr([v.s[i]])
  {
    if v.PList? || v.PTuple? then v.items else seq(|v.s|, i requires 0 <= i < |v.s| => PStr([v.s[i]]))
  }

  /** `if args and isinstance(args[0], Sequence): args = args[0]`. */
  function Unpack(args: seq<PyVal>): (r: seq<PyVal>)
    ensures |args| == 0 ==> r == []
    ensures |args| > 0 && !IsSequence(args[0]) ==> r == args
    ensures |args| > 0 && IsSequence(args[0]) ==> r == Elements(args[0])
  {
    if |args| > 0 && IsSequence(args[0]) then Elements(args[0]) else args
  }

  /** `bool(v)`: Python truthiness.  Terms, operators and sorts define
      neither `__bool__` nor `__len__`, so every one of them is true. */
  predicate Truthy(v: PyVal) {
    match v
    case PBool(b) => b
    case PInt(i) => i != 0
    case PFloat(r) => r != 0.0
    case PStr(s) => s != []
    case PNone => false
    case PList(items) => items != []
    case PTuple(items) => items != []
    case _ => true
  }

  /** `hasattr(v, 'solver_term')`: only wrapped terms carry one. */
  predicate IsTerm(v: PyVal) {
    v.PTerm?
  }
}
