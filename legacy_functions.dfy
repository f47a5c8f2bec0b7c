/** functions.py (the older, class-per-operator interface): each function
    class declares an arity, an output-sort rule `osort`, the parameters
    that identify it, and a permissive-mode `__call__` that forwards to the
    solver of one of its arguments. */
module LegacyFunctions {
  import opened Wrappers
  import opened Sorts

  datatype BvBinOp = BvAnd | BvOr | BvAdd | BvMul | BvUdiv | BvUrem | BvShl | BvLshr
  datatype BvUnOp = BvNot | BvNeg

  /** One constructor per concrete function class; `Extract` carries the
      bounds given to `extract(ub, lb)`. */
  datatype Fun =
    | NoOp | Equals | Not | And | Or | Ite | Sub | Plus
    | LT | LEQ | GT | GEQ
    | Extract(ub: int, lb: int)
    | BvBin(bin: BvBinOp)
    | BvUn(un: BvUnOp)

  /** An arity bound; `Inf` is `math.inf`. */
  datatype Bound = Finite(n: nat) | Inf

  datatype Arity = Arity(min: nat, max: Bound)

  /** The class attribute `arity` of each function class. */
  function ArityOf(f: Fun): (a: Arity)
    // every bound admits some number of operands
    ensures a.max.Finite? ==> a.min <= a.max.n
    // only the n-ary classes are unbounded, and they need two operands
    ensures a.max.Inf? <==> f.And? || f.Or? || f.Plus?
    ensures a.max.Inf? ==> a.min == 2
    // only No_op takes no operand
    ensures a.min == 0 <==> f.NoOp?
  {
    match f
    case NoOp => Arity(0, Finite(0))
    case Not | Extract(_, _) | BvUn(_) => Arity(1, Finite(1))
    case Ite => Arity(3, Finite(3))
    case And | Or | Plus => Arity(2, Inf)
    case Equals | Sub | LT | LEQ | GT | GEQ | BvBin(_) => Arity(2, Finite(2))
  }

  /** `params`: the empty tuple, except `(ub, lb)` for `extract`. */
  function Params(f: Fun): (p: seq<int>)
    ensures f.Extract? <==> |p| == 2
    ensures !f.Extract? <==> p == []
  {
    if f.Extract? then [f.ub, f.lb] else []
  }

  /** `self.__class__ == other.__class__`. */
  predicate SameClass(a: Fun, b: Fun) {
    if a.Extract? then b.Extract?
    else a == b
  }

  /** `FunctionBase.__eq__`: same class and same params. */
  predicate FunEq(a: Fun, b: Fun) {
    SameClass(a, b) && Params(a) == Params(b)
  }

  /** Functions are identified by class and params alone, which is exactly
      structural equality of the model. */
  lemma FunEqIsIdentity(a: Fun, b: Fun)
    ensures FunEq(a, b) <==> a == b
  {
    if a.Extract? && b.Extract? && FunEq(a, b) {
      assert Params(a)[0] == Params(b)[0] && Params(a)[1] == Params(b)[1];
    }
  }

  /** `extract(7, 0) != extract(6, 0)`, `extract(31, 31) == extract(31, 31)`. */
  lemma ExtractEquality()
    ensures !FunEq(Extract(7, 0), Extract(6, 0))
    ensures FunEq(Extract(31, 31), Extract(31, 31))
    ensures !FunEq(Extract(0, 0), Not)
  {
    assert Params(Extract(7, 0))[0] != Params(Extract(6, 0))[0];
  }

  /** `extract.width`: no check that `ub >= lb`. */
  function Width(f: Fun): int
    requires f.Extract?
  {
    f.ub - f.lb + 1
  }

  /** What `osort` sees of one argument: a term with its sort, or a
      literal, whose sort `sorts_list` may or may not know. */
  datatype OArg = OTerm(sort: Sort) | OLit(known: Option<Sort>)

  /** `sorts_list(args)`. */
  function SortsList(args: seq<OArg>): (r: seq<Option<Sort>>)
    ensures |r| == |args|
    ensures forall i :: 0 <= i < |args| ==> (args[i].OTerm? ==> r[i] == Some(args[i].sort))
    ensures forall i :: 0 <= i < |args| ==> (args[i].OLit? ==> r[i] == args[i].known)
  {
    seq(|args|, i requires 0 <= i < |args| => if args[i].OTerm? then Some(args[i].sort) else args[i].known)
  }

  /** `arg.sort`: a literal has no such attribute. */
  function AttrSort(a: OArg): (r: Result<Sort>)
    ensures r.Ok? <==> a.OTerm?
    ensures r.Err? ==> r.error == AttributeError
  {
    if a.OTerm? then Ok(a.sort) else Err(AttributeError)
  }

  predicate AllKnown(s: seq<Option<Sort>>) {
    forall i :: 0 <= i < |s| ==> s[i].Some?
  }

  predicate BoolValued(f: Fun) {
    f.Equals? || f.Not? || f.And? || f.Or? || f.LT? || f.LEQ? || f.GT? || f.GEQ?
  }

  /** Classes whose output sort is their first argument's sort. */
  predicate FirstArgSorted(f: Fun) {
    f.NoOp? || f.Sub? || f.Plus? || f.BvUn?
  }

  /** `osort(*args)` as the source is written.  The error messages of Ite,
      Sub and Plus refer to `self.__class__name`, which does not exist, so
      building the message raises AttributeError instead of the intended
      ValueError; Ite's consistency message also reads `args[1].sort` and
      `args[2].sort`, which a literal does not have. */
  function OsortAsWritten(f: Fun, args: seq<OArg>): (r: Result<Sort>)
    ensures r.Err? ==> r.error in {ValueError, TypeError, AttributeError}
  {
    match f
    case NoOp =>
      if |args| == 0 then Err(ValueError) else AttrSort(args[0])
    case Equals | Not | And | Or | LT | LEQ | GT | GEQ => Ok(Bool)
    case Ite =>
      if |args| != 3 then Err(AttributeError)
      else
        var sl := SortsList(args);
        if sl[1].None? || sl[2].None? then
          var _ :- AttrSort(args[1]);
          var _ :- AttrSort(args[2]);
          Err(ValueError)
        else Ok(sl[1].value)
    case Sub | Plus =>
      if |args| == 0 then Err(AttributeError) else AttrSort(args[0])
    case Extract(_, _) => Ok(BitVec(Width(f)))
    case BvBin(_) =>
      var sl := SortsList(args);
      if |sl| == 0 then Err(TypeError)
      else if !AllKnown(sl) then Err(ValueError)
      else Ok(sl[0].value)
    case BvUn(_) =>
      if |args| != 1 then Err(ValueError) else AttrSort(args[0])
  }

  /** `osort(*args)` with the error messages built as intended: every
      wrong argument count and every unknown Ite branch sort raises
      ValueError. */
  function Osort(f: Fun, args: seq<OArg>): (r: Result<Sort>)
    // predicates and connectives are Bool whatever their arguments
    ensures BoolValued(f) ==> r == Ok(Bool)
    ensures f.Extract? ==> r == Ok(BitVec(f.ub - f.lb + 1))
    // first-argument classes: the sort of the first argument, which must be a term
    ensures FirstArgSorted(f) ==> (r.Ok? <==> |args| > 0 && (f.BvUn? ==> |args| == 1) && args[0].OTerm?)
    ensures FirstArgSorted(f) && r.Ok? ==> r.value == args[0].sort
    ensures FirstArgSorted(f) && (|args| == 0 || (f.BvUn? && |args| != 1)) ==> r == Err(ValueError)
    // Ite: three arguments whose branch sorts are known; the branch sorts are never compared
    ensures f.Ite? ==> (r.Ok? <==> |args| == 3 && SortsList(args)[1].Some? && SortsList(args)[2].Some?)
    ensures f.Ite? && r.Ok? ==> r.value == SortsList(args)[1].value
    ensures f.Ite? && r.Err? ==> r.error == ValueError
    // binary bit-vector operations: some argument, every sort known, the first one wins
    ensures f.BvBin? ==> (r == Err(TypeError) <==> |args| == 0)
    ensures f.BvBin? ==> (r.Ok? <==> |args| > 0 && AllKnown(SortsList(args)))
    ensures f.BvBin? && r.Ok? ==> r.value == SortsList(args)[0].value
  {
    match f
    case NoOp =>
      if |args| == 0 then Err(ValueError) else AttrSort(args[0])
    case Equals | Not | And | Or | LT | LEQ | GT | GEQ => Ok(Bool)
    case Ite =>
      if |args| != 3 then Err(ValueError)
      else
        var sl := SortsList(args);
        if sl[1].None? || sl[2].None? then Err(ValueError)
        else Ok(sl[1].value)
    case Sub | Plus =>
      if |args| == 0 then Err(ValueError) else AttrSort(args[0])
    case Extract(_, _) => Ok(BitVec(Width(f)))
    case BvBin(_) =>
      var sl := SortsList(args);
      if |sl| == 0 then Err(TypeError)
      else if !AllKnown(sl) then Err(ValueError)
      else Ok(sl[0].value)
    case BvUn(_) =>
      if |args| != 1 then Err(ValueError) else AttrSort(args[0])
  }

  /** The two differ only in the kind of error raised: where the source
      raises AttributeError, the intended ValueError is raised instead. */
  lemma OsortAsWrittenOnlyMisreports(f: Fun, args: seq<OArg>)
    ensures OsortAsWritten(f, args) == Osort(f, args)
      || (OsortAsWritten(f, args) == Err(AttributeError) && Osort(f, args) == Err(ValueError))
  {
  }

  /** Inputs on which the source raises the wrong exception. */
  lemma OsortMisreportWitnesses(t: Sort)
    ensures OsortAsWritten(Sub, []) == Err(AttributeError) && Osort(Sub, []) == Err(ValueError)
    ensures OsortAsWritten(Plus, []) == Err(AttributeError) && Osort(Plus, []) == Err(ValueError)
    ensures OsortAsWritten(Ite, [OTerm(Bool)]) == Err(AttributeError) && Osort(Ite, [OTerm(Bool)]) == Err(ValueError)
    ensures OsortAsWritten(Ite, [OTerm(Bool), OTerm(t), OLit(None)]) == Err(AttributeError)
    ensures Osort(Ite, [OTerm(Bool), OTerm(t), OLit(None)]) == Err(ValueError)
  {
    var a := [OTerm(Bool), OTerm(t), OLit(None)];
    assert SortsList(a)[2] == None;
  }

  /** `Ite.osort` takes the second argument's sort without comparing it to
      the third, and `_bvbinops.osort` takes the first without comparing. */
  lemma MismatchedSortsAccepted()
    ensures Osort(Ite, [OTerm(Bool), OTerm(BitVec(8)), OTerm(Int)]) == Ok(BitVec(8))
    ensures Osort(BvBin(BvAdd), [OTerm(BitVec(8)), OTerm(BitVec(4))]) == Ok(BitVec(8))
  {
    assert SortsList([OTerm(Bool), OTerm(BitVec(8)), OTerm(Int)])[1] == Some(BitVec(8));
    assert SortsList([OTerm(BitVec(8)), OTerm(BitVec(4))])[0] == Some(BitVec(8));
  }

  /** An argument of `__call__`: a term of some solver, a Python literal,
      or a Python list of arguments. */
  datatype LArg = LTerm(solver: nat, sort: Sort) | LLit(known: Option<Sort>) | LList(items: seq<LArg>)

  /** What `__call__` does: hand the arguments to a solver's `apply_fun`,
      return a value, or raise. */
  datatype LOutcome =
    | LApply(solver: nat, fun: Fun, args: seq<LArg>)
    | LReturn(v: LArg)
    | LBool(b: bool)
    | LRaise(error: PyError)

  /** `if args and isinstance(args[0], list): args = args[0]`. */
  function LUnpack(args: seq<LArg>): (r: seq<LArg>)
    ensures |args| > 0 && !args[0].LList? ==> r == args
    ensures |args| == 0 ==> r == []
    ensures |args| > 0 && args[0].LList? ==> r == args[0].items
  {
    if |args| > 0 && args[0].LList? then args[0].items else args
  }

  /** The position of the first term among the arguments, if any. */
  function FirstTerm(args: seq<LArg>): (r: Option<nat>)
    ensures r.None? <==> forall i :: 0 <= i < |args| ==> !args[i].LTerm?
    ensures r.Some? ==> r.value < |args| && args[r.value].LTerm?
    ensures r.Some? ==> forall i :: 0 <= i < r.value ==> !args[i].LTerm?
  {
    if |args| == 0 then None
    else if args[0].LTerm? then Some(0)
    else
      match FirstTerm(args[1..])
      case None => None
      case Some(k) => Some(k + 1)
  }

  /** `__call__(*args)` under the process-wide `strict` flag: the generic
      version of FunctionBase, and the And/Or overrides. */
  function Call(f: Fun, args0: seq<LArg>, strict: bool): (r: LOutcome)
    // no function object can be called in strict mode
    ensures strict ==> r == LRaise(ValueError)
    // whatever is applied gets the (unpacked) arguments unchanged, and no arity check happens here
    ensures r.LApply? ==> r.fun == f && r.args == LUnpack(args0)
    // generic functions: the solver of the first term argument, if there is one
    ensures !f.And? && !f.Or? && !strict ==>
      (r.LApply? <==> FirstTerm(LUnpack(args0)).Some?)
    ensures !f.And? && !f.Or? && r.LApply? ==>
      r.solver == LUnpack(args0)[FirstTerm(LUnpack(args0)).value].solver
    ensures !f.And? && !f.Or? ==> r.LApply? || r == LRaise(ValueError)
    // And/Or: two or more arguments apply, one is returned, none is the identity
    ensures (f.And? || f.Or?) && !strict ==>
      (|LUnpack(args0)| == 0 <==> r == LBool(f.And?))
    ensures (f.And? || f.Or?) && !strict && |LUnpack(args0)| == 1 ==> r == LReturn(LUnpack(args0)[0])
    ensures (f.And? || f.Or?) && r.LApply? ==> |r.args| > 1 && r.args[0].LTerm? && r.solver == r.args[0].solver
  {
    if strict then LRaise(ValueError)
    else
      var args := LUnpack(args0);
      if f.And? || f.Or? then
        if |args| > 1 then
          if args[0].LTerm? then LApply(args[0].solver, f, args) else LRaise(AttributeError)
        else if |args| == 1 then LReturn(args[0])
        else LBool(f.And?)
      else if |args| > 0 then
        match FirstTerm(args)
        case None => LRaise(ValueError)
        case Some(k) => LApply(args[k].solver, f, args)
      else LRaise(ValueError)
  }

  /** A list argument is the same as passing its elements, for every
      function: `And([a, b])` is `And(a, b)`. */
  lemma ListArgumentUnpacked(f: Fun, items: seq<LArg>, strict: bool)
    requires |items| > 0 && !items[0].LList?
    ensures Call(f, [LList(items)], strict) == Call(f, items, strict)
  {
  }
}
