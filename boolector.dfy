/** smt_switch/src/solvers/BoolectorSolver.py: the Boolector adapter.  It
    translates the class-per-operator functions of functions.py into native
    Boolector calls, folds n-ary And/Or into binary native nodes, encodes
    shift amounts the way Boolector wants them, filters logics and options,
    and keeps the list of asserted formulas and the last satisfiability
    verdict.  The native library is a free term algebra of nodes. */
module Boolector {
  import opened Wrappers
  import opened Sorts
  import Values
  import LegacyFunctions
  import Terms

  /** The native functions the adapter's table and folds reach. */
  datatype NativeOp = Eq | Cond | BNot | Slice | BAnd | BOr | Add | Mul | Udiv | Urem | Sll | Srl | Neg

  /** Native Boolector nodes: `Var(sort, name)`, `Const(value, width)`,
      `Const` handed a node instead of a value (`Recast`), and every other
      native function applied to its operands. */
  datatype Node =
    | Var(name: string, width: int)
    | Const(value: int, width: int)
    | Recast(src: Node, width: int)
    | App(op: NativeOp, args: seq<Operand>)

  /** What a native function receives: a node, or a Python int that
      Boolector turns into a constant itself. */
  datatype Operand = N(node: Node) | Lit(v: int)

  /** A positional argument: one value, or a Python list of values. */
  datatype Arg<T> = One(x: T) | Many(xs: seq<T>)

  /** An argument of `apply_fun` or `Assert`: a wrapped term (its native
      node and its sort), or a Python int literal, whose sort `sorts_list`
      may or may not know. */
  datatype Item = Wrapped(node: Node, sort: Sort) | Literal(v: int, known: Option<Sort>)

  /** The term `apply_fun` builds: the native expression and the sort that
      `fun.osort` gives it. */
  datatype Applied = Applied(expr: Operand, sort: Sort)

  /** `BoolectorBitVecResult(solver_term)`, used for BitVec and Bool alike. */
  datatype Value = BitVecResult(node: Node)

  /** `if isinstance(args[0], list): args = args[0]`. */
  function Unpack<T>(args: seq<Arg<T>>): (r: seq<Arg<T>>)
    requires |args| > 0
    ensures args[0].One? ==> r == args
    ensures args[0].Many? ==> |r| == |args[0].xs| && forall i :: 0 <= i < |r| ==> r[i] == One(args[0].xs[i])
  {
    if args[0].Many? then seq(|args[0].xs|, i requires 0 <= i < |args[0].xs| => One(args[0].xs[i])) else args
  }

  /** Every element given on its own. */
  function Ones<T>(xs: seq<T>): (r: seq<Arg<T>>)
    ensures |r| == |xs| && forall i :: 0 <= i < |r| ==> r[i] == One(xs[i])
  {
    seq(|xs|, i requires 0 <= i < |xs| => One(xs[i]))
  }

  // ---------------------------------------------------------------------
  // And / Or: reductions of the binary native And / Or
  // ---------------------------------------------------------------------

  /** `reduce(lambda x, y: op(x, y), rest, acc)`; a list reaching the
      native function is refused with TypeError. */
  function Reduce(op: NativeOp, acc: Operand, rest: seq<Arg<Operand>>): Result<Operand>
    decreases |rest|
  {
    if rest == [] then Ok(acc)
    else if rest[0].Many? then Err(TypeError)
    else Reduce(op, N(App(op, [acc, rest[0].x])), rest[1..])
  }

  /** `self.And(*args)` (op = BAnd) and `self.Or(*args)` (op = BOr): no
      argument at all is an IndexError on `args[0]`, an empty list is the
      TypeError of `reduce` on an empty sequence, and a single argument is
      returned without any native call. */
  function Fold(op: NativeOp, args: seq<Arg<Operand>>): (r: Result<Operand>)
    ensures |args| == 0 ==> r == Err(IndexError)
    ensures |args| > 0 && args[0] == Many([]) ==> r == Err(TypeError)
    ensures |args| == 1 && args[0].One? ==> r == Ok(args[0].x)
    ensures |args| == 1 && args[0].Many? && |args[0].xs| == 1 ==> r == Ok(args[0].xs[0])
  {
    if |args| == 0 then Err(IndexError)
    else
      var xs := Unpack(args);
      if xs == [] then Err(TypeError)
      else
        match xs[0]
        case Many(_) => Err(TypeError)
        case One(x) => Reduce(op, x, xs[1..])
  }

  /** The left fold written out: `op(op(op(x0, x1), x2), ...)`. */
  function LeftFold(op: NativeOp, xs: seq<Operand>): Operand
    requires |xs| > 0
  {
    if |xs| == 1 then xs[0]
    else N(App(op, [LeftFold(op, xs[..|xs| - 1]), xs[|xs| - 1]]))
  }

  /** Combining the first two operands first does not change a left fold. */
  lemma {:induction false} LeftFoldHead(op: NativeOp, a: Operand, b: Operand, s: seq<Operand>)
    ensures LeftFold(op, [N(App(op, [a, b]))] + s) == LeftFold(op, [a, b] + s)
    decreases |s|
  {
    if s != [] {
      var s' := s[..|s| - 1];
      var z := s[|s| - 1];
      assert s == s' + [z];
      calc {
        LeftFold(op, [N(App(op, [a, b]))] + s);
        { assert ([N(App(op, [a, b]))] + s)[..|s|] == [N(App(op, [a, b]))] + s'; }
        N(App(op, [LeftFold(op, [N(App(op, [a, b]))] + s'), z]));
        { LeftFoldHead(op, a, b, s'); }
        N(App(op, [LeftFold(op, [a, b] + s'), z]));
        { assert ([a, b] + s)[..|s| + 1] == [a, b] + s'; }
        LeftFold(op, [a, b] + s);
      }
    } else {
      assert [a, b][..1] == [a];
    }
  }

  /** `reduce` from an accumulator is the left fold of the accumulator
      followed by the rest. */
  lemma {:induction false} ReduceIsLeftFold(op: NativeOp, acc: Operand, rest: seq<Operand>)
    ensures Reduce(op, acc, Ones(rest)) == Ok(LeftFold(op, [acc] + rest))
    decreases |rest|
  {
    if rest != [] {
      assert Ones(rest)[1..] == Ones(rest[1..]);
      ReduceIsLeftFold(op, N(App(op, [acc, rest[0]])), rest[1..]);
      LeftFoldHead(op, acc, rest[0], rest[1..]);
      assert [acc, rest[0]] + rest[1..] == [acc] + rest;
    }
  }

  /** `And(x0, ..., xn)` and `And([x0, ..., xn])` are both the left fold of
      the binary native And, and so for Or. */
  lemma FoldIsLeftFold(op: NativeOp, xs: seq<Operand>)
    requires |xs| > 0
    ensures Fold(op, Ones(xs)) == Ok(LeftFold(op, xs))
    ensures Fold(op, [Many(xs)]) == Ok(LeftFold(op, xs))
  {
    FoldOnes(op, xs);
    ReduceIsLeftFold(op, xs[0], xs[1..]);
    assert [xs[0]] + xs[1..] == xs;
  }

  lemma FoldOnes(op: NativeOp, xs: seq<Operand>)
    requires |xs| > 0
    ensures Fold(op, Ones(xs)) == Reduce(op, xs[0], Ones(xs[1..]))
    ensures Fold(op, [Many(xs)]) == Reduce(op, xs[0], Ones(xs[1..]))
  {
    assert Ones(xs)[1..] == Ones(xs[1..]);
    assert Unpack([Many(xs)]) == Ones(xs);
  }

  /** `And(a, b, c) == And(And(a, b), c)`. */
  lemma FoldThree(op: NativeOp, a: Operand, b: Operand, c: Operand)
    ensures Fold(op, [One(a), One(b), One(c)]) == Ok(N(App(op, [N(App(op, [a, b])), c])))
  {
    var ab := N(App(op, [a, b]));
    assert [One(b), One(c)][1..] == [One(c)];
    assert Reduce(op, ab, [One(c)]) == Ok(N(App(op, [ab, c])));
    assert Reduce(op, a, [One(b), One(c)]) == Reduce(op, ab, [One(c)]);
    assert [One(a), One(b), One(c)][1..] == [One(b), One(c)];
  }

  // ---------------------------------------------------------------------
  // shift amounts
  // ---------------------------------------------------------------------

  /** `ceil(log2(w))`: the least `k` with `w <= 2^k`. */
  function CeilLog2(w: int): (k: nat)
    requires w >= 1
    ensures w <= Terms.Pow2(k)
    ensures k == 0 || Terms.Pow2(k - 1) < w
    decreases w
  {
    if w == 1 then 0 else 1 + CeilLog2((w + 1) / 2)
  }

  lemma {:induction false} Pow2Grows(i: nat, j: nat)
    ensures i < j ==> Terms.Pow2(i) < Terms.Pow2(j)
    decreases j
  {
    if i + 1 < j {
      Pow2Grows(i, j - 1);
    }
  }

  /** No smaller width holds `w` values: `CeilLog2` is the least such. */
  lemma CeilLog2Least(w: int, j: nat)
    requires w >= 1 && w <= Terms.Pow2(j)
    ensures CeilLog2(w) <= j
  {
    var k := CeilLog2(w);
    if k > 0 {
      Pow2Grows(j, k - 1);
    }
  }

  /** For a power of two the width is exact: `ceil(log2(2^k)) == k`. */
  lemma CeilLog2OfPow2(k: nat)
    ensures CeilLog2(Terms.Pow2(k)) == k
  {
    var c := CeilLog2(Terms.Pow2(k));
    CeilLog2Least(Terms.Pow2(k), k);
    Pow2Grows(c, k);
  }

  /** `bv.width` of a native bit-vector node, read off its wrapped sort:
      Boolector realises Bool as a one-bit vector. */
  function WidthOf(a: Arg<Item>): (r: Result<int>)
    ensures r.Ok? <==> a.One? && a.x.Wrapped? && (a.x.sort.BitVec? || a.x.sort == Bool)
    ensures r.Ok? && a.x.sort == Bool ==> r.value == 1
    ensures r.Err? ==> r.error == AttributeError
  {
    match a
    case One(Wrapped(_, BitVec(w))) => Ok(w)
    case One(Wrapped(_, Bool)) => Ok(1)
    case _ => Err(AttributeError)
  }

  /** The second operand of Sll/Srl: a native constant is passed as the
      integer its bit string spells, anything else becomes a constant of
      width `ceil(log2(bv.width))`, which Boolector requires of a shift
      amount.  `log2` of a width below 1 is a math domain error. */
  function ShiftAmount(bv: Arg<Item>, s: Arg<Item>): (r: Result<Operand>)
    ensures s.One? && s.x.Wrapped? && s.x.node.Const? && s.x.node.width >= 1 ==>
      r == Ok(Lit(s.x.node.value % Terms.Pow2(s.x.node.width)))
    ensures !(s.One? && s.x.Wrapped? && s.x.node.Const?) && WidthOf(bv).Ok? && WidthOf(bv).value >= 1 ==>
      var k := CeilLog2(WidthOf(bv).value);
      && (s.One? && s.x.Literal? ==> r == Ok(N(Const(s.x.v, k))))
      && (s.One? && s.x.Wrapped? ==> r == Ok(N(Recast(s.x.node, k))))
      && (s.Many? ==> r == Err(TypeError))
    ensures !(s.One? && s.x.Wrapped? && s.x.node.Const?) && WidthOf(bv).Err? ==> r == Err(AttributeError)
  {
    if s.One? && s.x.Wrapped? && s.x.node.Const? then
      var c := s.x.node;
      if c.width < 1 then Err(ValueError) else Ok(Lit(c.value % Terms.Pow2(c.width)))
    else
      var w :- WidthOf(bv);
      if w < 1 then Err(ValueError)
      else
        var k := CeilLog2(w);
        match s
        case Many(_) => Err(TypeError)
        case One(Literal(v, _)) => Ok(N(Const(v, k)))
        case One(Wrapped(n, _)) => Ok(N(Recast(n, k)))
  }

  /** A symbolic shift of a 32-bit vector gets a 5-bit amount, and one of
      a 33-bit vector a 6-bit amount. */
  lemma ShiftAmountWidths(x: Node, s: Node)
    requires !s.Const?
    ensures ShiftAmount(One(Wrapped(x, BitVec(32))), One(Wrapped(s, BitVec(32)))) == Ok(N(Recast(s, 5)))
    ensures ShiftAmount(One(Wrapped(x, BitVec(33))), One(Literal(3, None))) == Ok(N(Const(3, 6)))
  {
    CeilLog2OfPow2(5);
    assert Terms.Pow2(5) == 32;
    CeilLog2Least(33, 6);
    assert Terms.Pow2(6) == 64;
  }

  // ---------------------------------------------------------------------
  // apply_fun
  // ---------------------------------------------------------------------

  /** `config.strict and len(args) < min or len(args) > max`: by Python's
      precedence the upper bound is checked in every mode. */
  predicate Refused(a: LegacyFunctions.Arity, n: nat, strict: bool) {
    (strict && n < a.min) || (a.max.Finite? && n > a.max.n)
  }

  /** `getattr(arg, 'solver_term', arg)`. */
  function SolverArg(a: Arg<Item>): Arg<Operand> {
    match a
    case One(Wrapped(n, _)) => One(N(n))
    case One(Literal(v, _)) => One(Lit(v))
    case Many(xs) => Many(seq(|xs|, i requires 0 <= i < |xs| => if xs[i].Wrapped? then N(xs[i].node) else Lit(xs[i].v)))
  }

  function SolverArgs(items: seq<Arg<Item>>): (r: seq<Arg<Operand>>)
    ensures |r| == |items| && forall i :: 0 <= i < |r| ==> r[i] == SolverArg(items[i])
  {
    seq(|items|, i requires 0 <= i < |items| => SolverArg(items[i]))
  }

  /** What `osort` sees of each argument. */
  function OArgs(items: seq<Arg<Item>>): (r: seq<LegacyFunctions.OArg>)
    ensures |r| == |items|
  {
    seq(|items|, i requires 0 <= i < |items| =>
      match items[i]
      case One(Wrapped(_, s)) => LegacyFunctions.OTerm(s)
      case One(Literal(_, k)) => LegacyFunctions.OLit(k)
      case Many(_) => LegacyFunctions.OLit(None))
  }

  /** A native function of fixed positional arity: a wrong count or a list
      operand is a TypeError. */
  function Call(op: NativeOp, ops: seq<Arg<Operand>>, n: nat): (r: Result<Operand>)
    ensures r.Ok? <==> |ops| == n && forall i :: 0 <= i < |ops| ==> ops[i].One?
    ensures r.Err? ==> r.error == TypeError
    ensures r.Ok? ==> r.value.N? && r.value.node.App? && r.value.node.op == op
    ensures r.Ok? ==> |r.value.node.args| == n && forall i :: 0 <= i < n ==> r.value.node.args[i] == ops[i].x
  {
    if |ops| != n || exists i :: 0 <= i < |ops| && ops[i].Many? then Err(TypeError)
    else Ok(N(App(op, seq(n, i requires 0 <= i < n => ops[i].x))))
  }

  /** The classes functions.py defines that `_BoolectorFuns` has no entry for. */
  predicate Unsupported(f: LegacyFunctions.Fun) {
    f.NoOp? || f.Sub? || f.Plus? || f.LT? || f.LEQ? || f.GT? || f.GEQ?
  }

  function BinaryNative(b: LegacyFunctions.BvBinOp): NativeOp {
    match b
    case BvAnd => BAnd
    case BvOr => BOr
    case BvAdd => Add
    case BvMul => Mul
    case BvUdiv => Udiv
    case BvUrem => Urem
    case BvShl => Sll
    case BvLshr => Srl
  }

  /** `self._BoolectorFuns[fun.__class__](*(solver_args + fun.params))`. */
  function NativeCall(f: LegacyFunctions.Fun, items: seq<Arg<Item>>): (r: Result<Operand>)
    ensures Unsupported(f) ==> r == Err(KeyError)
  {
    var ops := SolverArgs(items);
    match f
    case NoOp | Sub | Plus | LT | LEQ | GT | GEQ => Err(KeyError)
    case And => Fold(BAnd, ops)
    case Or => Fold(BOr, ops)
    case Equals => Call(Eq, ops, 2)
    case Ite => Call(Cond, ops, 3)
    case Not => Call(BNot, ops, 1)
    case Extract(ub, lb) => Call(Slice, ops + [One(Lit(ub)), One(Lit(lb))], 3)
    case BvUn(u) => Call(if u.BvNot? then BNot else Neg, ops, 1)
    case BvBin(b) =>
      if b.BvShl? || b.BvLshr? then
        if |items| != 2 then Err(TypeError)
        else
          var amount :- ShiftAmount(items[0], items[1]);
          Call(BinaryNative(b), [ops[0], One(amount)], 2)
      else Call(BinaryNative(b), ops, 2)
  }

  /** `apply_fun(fun, *args)`: the arity guard, then the list unpacking
      (`args[0]` of no arguments is an IndexError), the native call, and
      the output sort from `fun.osort`. */
  function ApplyFun(f: LegacyFunctions.Fun, args: seq<Arg<Item>>, strict: bool): (r: Result<Applied>)
    // the guard counts the arguments before a list is unpacked
    ensures Refused(LegacyFunctions.ArityOf(f), |args|, strict) ==> r == Err(ValueError)
    ensures !Refused(LegacyFunctions.ArityOf(f), |args|, strict) && |args| == 0 ==> r == Err(IndexError)
    ensures !Refused(LegacyFunctions.ArityOf(f), |args|, strict) && |args| > 0 && Unsupported(f) ==> r == Err(KeyError)
    // a built term has the native expression and the sort osort gives
    ensures r.Ok? ==> |args| > 0 && !Refused(LegacyFunctions.ArityOf(f), |args|, strict)
    ensures r.Ok? ==> NativeCall(f, Unpack(args)) == Ok(r.value.expr)
    ensures r.Ok? ==> LegacyFunctions.Osort(f, OArgs(Unpack(args))) == Ok(r.value.sort)
  {
    if Refused(LegacyFunctions.ArityOf(f), |args|, strict) then Err(ValueError)
    else if |args| == 0 then Err(IndexError)
    else
      var items := Unpack(args);
      var e :- NativeCall(f, items);
      var s :- LegacyFunctions.Osort(f, OArgs(items));
      Ok(Applied(e, s))
  }

  /** Too many arguments are refused even in permissive mode, too few only
      in strict mode: `Not(x, y)` is a ValueError either way, `Equals(x)`
      reaches the native function in permissive mode. */
  lemma ArityGuard(x: Node, y: Node)
    ensures ApplyFun(LegacyFunctions.Not, [One(Wrapped(x, Bool)), One(Wrapped(y, Bool))], false) == Err(ValueError)
    ensures ApplyFun(LegacyFunctions.Equals, [One(Wrapped(x, Bool))], true) == Err(ValueError)
    ensures ApplyFun(LegacyFunctions.Equals, [One(Wrapped(x, Bool))], false) == Err(TypeError)
  {
  }

  /** `And` over terms builds the left fold of the binary native And, and
      its sort is Bool. */
  lemma ApplyAndFolds(xs: seq<Node>, strict: bool)
    requires |xs| >= 2
    ensures var items := seq(|xs|, i requires 0 <= i < |xs| => One(Wrapped(xs[i], Bool)));
      ApplyFun(LegacyFunctions.And, items, strict)
        == Ok(Applied(LeftFold(BAnd, seq(|xs|, i requires 0 <= i < |xs| => N(xs[i]))), Bool))
  {
    var items := seq(|xs|, i requires 0 <= i < |xs| => One(Wrapped(xs[i], Bool)));
    var ops := seq(|xs|, i requires 0 <= i < |xs| => N(xs[i]));
    assert SolverArgs(items) == Ones(ops);
    FoldIsLeftFold(BAnd, ops);
  }

  /** `extract(ub, lb)` becomes `Slice(x, ub, lb)` of sort BitVec(ub - lb + 1). */
  lemma ApplyExtractSlices(x: Node, w: int, ub: int, lb: int, strict: bool)
    ensures ApplyFun(LegacyFunctions.Extract(ub, lb), [One(Wrapped(x, BitVec(w)))], strict)
      == Ok(Applied(N(App(Slice, [N(x), Lit(ub), Lit(lb)])), BitVec(ub - lb + 1)))
  {
    var r := ApplyFun(LegacyFunctions.Extract(ub, lb), [One(Wrapped(x, BitVec(w)))], strict);
    assert r.Ok?;
    assert r.value.expr.node.args == [N(x), Lit(ub), Lit(lb)];
  }

  /** A shift of a vector node calls the native shift on the node and the
      amount `ShiftAmount` makes of the second operand. */
  lemma ShiftCall(b: LegacyFunctions.BvBinOp, x: Node, w: int, s: Item, amount: Operand)
    requires b.BvShl? || b.BvLshr?
    requires ShiftAmount(One(Wrapped(x, BitVec(w))), One(s)) == Ok(amount)
    ensures NativeCall(LegacyFunctions.BvBin(b), [One(Wrapped(x, BitVec(w))), One(s)])
      == Ok(N(App(BinaryNative(b), [N(x), amount])))
  {
    var items := [One(Wrapped(x, BitVec(w))), One(s)];
    assert SolverArgs(items)[0] == One(N(x));
    var e := NativeCall(LegacyFunctions.BvBin(b), items);
    assert e.Ok? && e.value.node.args == [N(x), amount];
  }

  /** A shift by a native constant passes the constant's value. */
  lemma ApplyShiftByConstant(x: Node, c: int, strict: bool)
    ensures ApplyFun(LegacyFunctions.BvBin(LegacyFunctions.BvShl),
      [One(Wrapped(x, BitVec(8))), One(Wrapped(Const(c, 8), BitVec(8)))], strict)
      == Ok(Applied(N(App(Sll, [N(x), Lit(c % 256)])), BitVec(8)))
  {
    assert Terms.Pow2(8) == 256;
    var items := [One(Wrapped(x, BitVec(8))), One(Wrapped(Const(c, 8), BitVec(8)))];
    ShiftCall(LegacyFunctions.BvShl, x, 8, Wrapped(Const(c, 8), BitVec(8)), Lit(c % 256));
    assert Unpack(items) == items;
    assert LegacyFunctions.Osort(LegacyFunctions.BvBin(LegacyFunctions.BvShl), OArgs(items)) == Ok(BitVec(8));
  }

  /** A shift by anything else passes a constant of the width Boolector
      requires: 3 bits for an 8-bit vector. */
  lemma ApplyShiftBySymbol(x: Node, s: Node, strict: bool)
    requires !s.Const?
    ensures ApplyFun(LegacyFunctions.BvBin(LegacyFunctions.BvLshr),
      [One(Wrapped(x, BitVec(8))), One(Wrapped(s, BitVec(8)))], strict)
      == Ok(Applied(N(App(Srl, [N(x), N(Recast(s, 3))])), BitVec(8)))
  {
    CeilLog2OfPow2(3);
    assert Terms.Pow2(3) == 8;
    var items := [One(Wrapped(x, BitVec(8))), One(Wrapped(s, BitVec(8)))];
    ShiftCall(LegacyFunctions.BvLshr, x, 8, Wrapped(s, BitVec(8)), N(Recast(s, 3)));
    assert Unpack(items) == items;
    assert LegacyFunctions.Osort(LegacyFunctions.BvBin(LegacyFunctions.BvLshr), OArgs(items)) == Ok(BitVec(8));
  }

  // ---------------------------------------------------------------------
  // sorts, constants, logics
  // ---------------------------------------------------------------------

  /** `_BoolectorSorts[sort.__class__](*sort.params)`: the width of the
      native sort; Bool is `BitVecSort(1)` and other sorts have no entry. */
  function NativeWidth(s: Sort): (r: Result<int>)
    ensures r.Ok? <==> s.BitVec? || s == Bool
    ensures s.BitVec? ==> r == Ok(s.width)
    ensures s == Bool ==> r == Ok(1)
    ensures r.Err? ==> r.error == KeyError
  {
    match s
    case BitVec(w) => Ok(w)
    case Bool => Ok(1)
    case _ => Err(KeyError)
  }

  /** `declare_const(name, sort)`: a native variable wrapped with `sort`. */
  function DeclareConst(name: string, s: Sort): (r: Result<Item>)
    ensures r.Ok? <==> s.BitVec? || s == Bool
    ensures r.Ok? ==> r.value == Wrapped(Var(name, NativeWidth(s).value), s)
  {
    var w :- NativeWidth(s);
    Ok(Wrapped(Var(name, w), s))
  }

  /** `theory_const(sort, value)`: `Const(value, *sort.params)`; for Bool
      there are no params and the native width defaults to 1. */
  function TheoryConst(s: Sort, value: int): (r: Result<Item>)
    ensures r.Ok? <==> s.BitVec? || s == Bool
    ensures r.Ok? ==> r.value == Wrapped(Const(value, NativeWidth(s).value), s)
  {
    var w :- NativeWidth(s);
    Ok(Wrapped(Const(value, w), s))
  }

  /** Boolector does not tell Bool from BitVec(1): both give the same
      native node and only the recorded sort differs. */
  lemma BoolIsOneBit(name: string, v: int)
    ensures DeclareConst(name, Bool).Ok? && DeclareConst(name, BitVec(1)).Ok?
    ensures DeclareConst(name, Bool).value.node == DeclareConst(name, BitVec(1)).value.node
    ensures TheoryConst(Bool, v).value.node == TheoryConst(BitVec(1), v).value.node
  {
  }

  /** `_BoolectorLogics`. */
  const Logics: seq<string> := ["QF_BV", "QF_ABV"]

  /** `set_logic(logicstr)`: a logic outside the list raises ValueError;
      an accepted one changes nothing. */
  function SetLogic(logic: string): (r: Option<PyError>)
    ensures r.None? <==> logic == "QF_BV" || logic == "QF_ABV"
    ensures r.Some? ==> r.value == ValueError
  {
    if logic in Logics then None else Some(ValueError)
  }

  // ---------------------------------------------------------------------
  // assertions
  // ---------------------------------------------------------------------

  /** What `Assert` makes of one constraint: `constraint.sort` of a literal
      is an AttributeError, a sort other than Bool a ValueError. */
  function Admit(c: Item): (r: Option<PyError>)
    ensures r.None? <==> c.Wrapped? && c.sort == Bool
    ensures c.Literal? ==> r == Some(AttributeError)
    ensures c.Wrapped? && c.sort != Bool ==> r == Some(ValueError)
  {
    if c.Literal? then Some(AttributeError)
    else if Ne(c.sort, Bool) then Some(ValueError)
    else None
  }

  /** The number of leading constraints `Assert` accepts. */
  function Accepted(cs: seq<Item>): (k: nat)
    ensures k <= |cs|
    ensures forall i :: 0 <= i < k ==> Admit(cs[i]).None?
    ensures k < |cs| ==> Admit(cs[k]).Some?
  {
    if cs == [] || Admit(cs[0]).Some? then 0 else 1 + Accepted(cs[1..])
  }

  /** The solver terms of accepted constraints. */
  function Nodes(cs: seq<Item>): (r: seq<Node>)
    requires forall i :: 0 <= i < |cs| ==> cs[i].Wrapped?
    ensures |r| == |cs| && forall i :: 0 <= i < |cs| ==> r[i] == cs[i].node
  {
    seq(|cs|, i requires 0 <= i < |cs| => cs[i].node)
  }

  /** The constraints `Assert` runs over: the elements of a list, or the
      single constraint (the two branches of the source do the same). */
  function Constraints(a: Arg<Item>): (cs: seq<Item>)
    ensures a.Many? ==> cs == a.xs
    ensures a.One? ==> cs == [a.x]
  {
    if a.Many? then a.xs else [a.x]
  }

  /** The `sat` attribute: never set (`Unset`, reading it is an
      AttributeError), None, or the verdict of the last `check_sat`. */
  datatype SatState = Unset | NotRun | Known(sat: bool)

  const UnsatMessage: string := "Problem is unsat"
  const NotRunMessage: string := "Solver has not been run"

  /** A `BoolectorSolver`.  The native instance is represented by what
      was sent to it: the asserted formulas (which `_assertions` mirrors)
      and the values given to its model-generation option. */
  class Solver {
    var assertions: seq<Node>
    var modelGen: seq<bool>
    var sat: SatState

    /** `BoolectorSolver()` with `sat` set to None, as `get_value` and
        `get_model` expect. */
    constructor ()
      ensures assertions == [] && modelGen == [] && sat == NotRun
    {
      assertions := [];
      modelGen := [];
      sat := NotRun;
    }

    /** `BoolectorSolver()` as written: `__init__` never sets `sat`. */
    constructor AsWritten()
      ensures assertions == [] && modelGen == [] && sat == Unset
    {
      assertions := [];
      modelGen := [];
      sat := Unset;
    }

    /** `reset()` re-running an `__init__` that sets `sat` to None. */
    method Reset()
      modifies this
      ensures assertions == [] && modelGen == [] && sat == NotRun
    {
      assertions := [];
      modelGen := [];
      sat := NotRun;
    }

    /** `reset()` as written: a fresh native instance and an empty
        assertion list, but the verdict of an earlier `check_sat` stays. */
    method ResetAsWritten()
      modifies this
      ensures assertions == [] && modelGen == [] && sat == old(sat)
    {
      assertions := [];
      modelGen := [];
    }

    /** `check_sat()`: the native `Sat()` result, given as `isSat`, is
        recorded and returned. */
    method CheckSat(isSat: bool) returns (r: bool)
      modifies this
      ensures r == isSat && sat == Known(isSat)
      ensures assertions == old(assertions) && modelGen == old(modelGen)
    {
      sat := Known(isSat);
      r := isSat;
    }

    /** `set_option(optionstr, value)`: only 'produce-models' reaches the
        native instance, with `bool(value)`; any other option is ignored. */
    method SetOption(option: string, value: Values.PyVal)
      modifies this
      ensures option == "produce-models" ==> modelGen == old(modelGen) + [Values.Truthy(value)]
      ensures option != "produce-models" ==> modelGen == old(modelGen)
      ensures assertions == old(assertions) && sat == old(sat)
    {
      if option == "produce-models" {
        modelGen := modelGen + [Values.Truthy(value)];
      }
    }

    /** `Assert(constraints)`: each constraint of sort Bool is sent to the
        native instance and appended to `_assertions`; the first other one
        raises, with the earlier ones kept. */
    method Assert(constraints: Arg<Item>) returns (r: Option<PyError>)
      modifies this
      ensures var cs := Constraints(constraints);
        && assertions == old(assertions) + Nodes(cs[..Accepted(cs)])
        && (r.None? <==> Accepted(cs) == |cs|)
        && (r.Some? ==> r == Admit(cs[Accepted(cs)]))
      ensures modelGen == old(modelGen) && sat == old(sat)
    {
      var cs := Constraints(constraints);
      var i := 0;
      while i < |cs|
        invariant 0 <= i <= |cs| && i <= Accepted(cs)
        invariant forall j :: 0 <= j < i ==> cs[j].Wrapped?
        invariant assertions == old(assertions) + Nodes(cs[..i])
        invariant modelGen == old(modelGen) && sat == old(sat)
      {
        var e := Admit(cs[i]);
        if e.Some? {
          return e;
        }
        assert Nodes(cs[..i + 1]) == Nodes(cs[..i]) + [cs[i].node];
        assertions := assertions + [cs[i].node];
        i := i + 1;
      }
      r := None;
    }

    /** `get_value(var)`: only after a satisfiable `check_sat`, and only
        for BitVec and Bool terms, which Boolector represents alike. */
    function GetValue(v: Item): (r: Result<Value>)
      reads this
      ensures r.Ok? <==> sat == Known(true) && v.Wrapped? && (v.sort.BitVec? || v.sort == Bool)
      ensures r.Ok? ==> r.value == BitVecResult(v.node)
      ensures sat == Known(false) ==> r == Err(RuntimeError(UnsatMessage))
      ensures sat == NotRun ==> r == Err(RuntimeError(NotRunMessage))
      ensures sat == Unset ==> r == Err(AttributeError)
      ensures sat == Known(true) && v.Wrapped? && !(v.sort.BitVec? || v.sort == Bool) ==> r == Err(KeyError)
    {
      match sat
      case Unset => Err(AttributeError)
      case NotRun => Err(RuntimeError(NotRunMessage))
      case Known(b) =>
        if !b then Err(RuntimeError(UnsatMessage))
        else if v.Literal? then Err(AttributeError)
        else if v.sort.BitVec? || v.sort == Bool then Ok(BitVecResult(v.node))
        else Err(KeyError)
    }

    /** `get_model()`: the native model is printed after a satisfiable
        `check_sat`; the printing itself is not modelled. */
    function GetModel(): (r: Option<PyError>)
      reads this
      ensures r.None? <==> sat == Known(true)
      ensures sat == Known(false) ==> r == Some(RuntimeError(UnsatMessage))
      ensures sat == NotRun ==> r == Some(RuntimeError(NotRunMessage))
      ensures sat == Unset ==> r == Some(AttributeError)
    {
      match sat
      case Unset => Some(AttributeError)
      case NotRun => Some(RuntimeError(NotRunMessage))
      case Known(b) => if b then None else Some(RuntimeError(UnsatMessage))
    }
  }

  /** A value requested before any `check_sat`: the source raises
      AttributeError where the message it prepared says the solver has not
      been run. */
  method ValueBeforeCheckSat(x: Node) returns (asWritten: Result<Value>, corrected: Result<Value>)
    ensures asWritten == Err(AttributeError)
    ensures corrected == Err(RuntimeError(NotRunMessage))
  {
    var s := new Solver.AsWritten();
    asWritten := s.GetValue(Wrapped(x, BitVec(8)));
    var t := new Solver();
    corrected := t.GetValue(Wrapped(x, BitVec(8)));
  }

  /** A value requested after `reset`: as written the verdict about the
      discarded assertions is still used and a value is returned. */
  method ValueAfterReset(x: Node) returns (asWritten: Result<Value>, corrected: Result<Value>)
    ensures asWritten == Ok(BitVecResult(x))
    ensures corrected == Err(RuntimeError(NotRunMessage))
  {
    var s := new Solver.AsWritten();
    var _ := s.CheckSat(true);
    s.ResetAsWritten();
    asWritten := s.GetValue(Wrapped(x, BitVec(8)));
    var t := new Solver();
    var _ := t.CheckSat(true);
    t.Reset();
    corrected := t.GetValue(Wrapped(x, BitVec(8)));
  }
}
