/** smt_switch/src/functions.py: the operator table, the numbering of its
    entries, and the `operator` class whose call either binds indices,
    applies, or falls back to the permissive And/Or shortcut. */
module Operators {
  import opened Wrappers
  import opened Values

  /** `sys.maxsize` on a 64-bit build. */
  const MaxSize: nat := 0x7fff_ffff_ffff_ffff

  /** Entry `i` of `func_symbols`, in its declared order. */
  function Entry(i: nat): (string, FData)
  {
    if i == 0 then ("And", FData(0, 2, MaxSize, CustomAnd))
    else if i == 1 then ("Or", FData(0, 2, MaxSize, CustomOr))
    else if i == 2 then ("Equals", FData(0, 2, 2, NoCustom))
    else if i == 3 then ("Not", FData(0, 1, 1, NoCustom))
    else if i == 4 then ("Ite", FData(0, 3, 3, NoCustom))
    else if i == 5 then ("Sub", FData(0, 2, 2, NoCustom))
    else if i == 6 then ("Add", FData(0, 2, MaxSize, NoCustom))
    else if i == 7 then ("LT", FData(0, 2, 2, NoCustom))
    else if i == 8 then ("GT", FData(0, 2, 2, NoCustom))
    else if i == 9 then ("LEQ", FData(0, 2, 2, NoCustom))
    else if i == 10 then ("GEQ", FData(0, 2, 2, NoCustom))
    else if i == 11 then ("Extract", FData(2, 1, 1, NoCustom))
    else if i == 12 then ("Concat", FData(0, 2, 2, NoCustom))
    else if i == 13 then ("ZeroExt", FData(0, 2, 2, NoCustom))
    else if i == 14 then ("BVAnd", FData(0, 2, 2, NoCustom))
    else if i == 15 then ("BVOr", FData(0, 2, 2, NoCustom))
    else if i == 16 then ("BVXor", FData(0, 2, 2, NoCustom))
    else if i == 17 then ("BVAdd", FData(0, 2, 2, NoCustom))
    else if i == 18 then ("BVSub", FData(0, 2, 2, NoCustom))
    else if i == 19 then ("BVMul", FData(0, 2, 2, NoCustom))
    else if i == 20 then ("BVUdiv", FData(0, 2, 2, NoCustom))
    else if i == 21 then ("BVUrem", FData(0, 2, 2, NoCustom))
    else if i == 22 then ("BVShl", FData(0, 2, 2, NoCustom))
    else if i == 23 then ("BVAshr", FData(0, 2, 2, NoCustom))
    else if i == 24 then ("BVLshr", FData(0, 2, 2, NoCustom))
    else if i == 25 then ("BVUlt", FData(0, 2, 2, NoCustom))
    else if i == 26 then ("BVUle", FData(0, 2, 2, NoCustom))
    else if i == 27 then ("BVUgt", FData(0, 2, 2, NoCustom))
    else if i == 28 then ("BVUge", FData(0, 2, 2, NoCustom))
    else if i == 29 then ("BVSlt", FData(0, 2, 2, NoCustom))
    else if i == 30 then ("BVSle", FData(0, 2, 2, NoCustom))
    else if i == 31 then ("BVSgt", FData(0, 2, 2, NoCustom))
    else if i == 32 then ("BVSge", FData(0, 2, 2, NoCustom))
    else if i == 33 then ("BVNot", FData(0, 1, 1, NoCustom))
    else if i == 34 then ("BVNeg", FData(0, 1, 1, NoCustom))
    else if i == 35 then ("Select", FData(0, 2, 2, NoCustom))
    else if i == 36 then ("Store", FData(0, 3, 3, NoCustom))
    else if i == 37 then ("No_op", FData(0, 0, 0, NoCustom))
    else if i == 38 then ("_ApplyUF", FData(0, 1, MaxSize, NoCustom))
    else ("Distinct", FData(0, 2, MaxSize, NoCustom))
  }

  /** `func_symbols`. */
  function Table(): seq<(string, FData)> {
    seq(40, (i: nat) => Entry(i))
  }

  function Names(t: seq<(string, FData)>): (r: seq<string>)
    ensures |r| == |t| && forall i :: 0 <= i < |t| ==> r[i] == t[i].0
  {
    seq(|t|, i requires 0 <= i < |t| => t[i].0)
  }

  /** Every entry is well formed and Extract is the only indexed one, with
      two indices and exactly one operand. */
  lemma TableWellFormed()
    ensures |Table()| == 40
    ensures forall i :: 0 <= i < |Table()| ==> Table()[i].1.minArity <= Table()[i].1.maxArity
    ensures forall i :: 0 <= i < |Table()| ==> (Table()[i].1.numIndices != 0 <==> Table()[i].0 == "Extract")
    ensures Table()[11] == ("Extract", FData(2, 1, 1, NoCustom))
    ensures forall i :: 0 <= i < |Table()| ==> (Table()[i].1.custom != NoCustom <==> i < 2)
  {
  }

  /** `func_d` as the loop leaves it: each name maps to the position of its
      last occurrence. */
  function FuncD(names: seq<string>): (d: map<string, nat>)
    ensures d.Keys == set i | 0 <= i < |names| :: names[i]
  {
    if names == [] then map[]
    else FuncD(names[..|names| - 1])[names[|names| - 1] := |names| - 1]
  }

  /** The loop at the top of the module that numbers the table. */
  method BuildFuncD(names: seq<string>) returns (d: map<string, nat>)
    ensures d == FuncD(names)
  {
    d := map[];
    var i := 0;
    while i < |names|
      invariant 0 <= i <= |names|
      invariant d == FuncD(names[..i])
    {
      assert names[..i + 1][..i] == names[..i];
      d := d[names[i] := i];
      i := i + 1;
    }
    assert names[..|names|] == names;
  }

  predicate Distinct(names: seq<string>) {
    forall i, j :: 0 <= i < j < |names| ==> names[i] != names[j]
  }

  /** With distinct names the numbering is 0..n-1 in table order. */
  lemma {:induction false} FuncDNumbersInOrder(names: seq<string>)
    requires Distinct(names)
    ensures forall i :: 0 <= i < |names| ==> FuncD(names)[names[i]] == i
  {
    if names != [] {
      var p := names[..|names| - 1];
      assert Distinct(p);
      FuncDNumbersInOrder(p);
      forall i | 0 <= i < |names|
        ensures FuncD(names)[names[i]] == i
      {
        if i < |names| - 1 {
          assert names[i] == p[i] && names[i] != names[|names| - 1];
        }
      }
    }
  }

  /** `func_enum`: the table names are distinct, so each one is numbered by
      its position. */
  lemma FuncEnumValues()
    ensures Distinct(Names(Table()))
    ensures forall i :: 0 <= i < |Table()| ==> FuncD(Names(Table()))[Table()[i].0] == i
  {
    assert Distinct(Names(Table())) by {
      forall i, j | 0 <= i < j < |Table()| ensures Table()[i].0 != Table()[j].0 {
        NamesDifferFrom(i);
      }
    }
    FuncDNumbersInOrder(Names(Table()));
  }

  /** No later entry repeats the name of entry `i`. */
  lemma NamesDifferFrom(i: nat)
    requires i < |Table()|
    ensures forall j :: i < j < |Table()| ==> Table()[i].0 != Table()[j].0
  {
    if i < 8 {
      NamesDifferFrom0(i);
    }
    else if i < 16 {
      NamesDifferFrom8(i);
    }
    else if i < 24 {
      NamesDifferFrom16(i);
    }
    else if i < 32 {
      NamesDifferFrom24(i);
    }
    else if i < 39 {
      NamesDifferFrom32(i);
    }
  }

  lemma NamesDifferFrom0(i: nat)
    requires 0 <= i < 8
    ensures forall j :: i < j < |Table()| ==> Table()[i].0 != Table()[j].0
  {
    if i == 0 {
    }
    else if i == 1 {
    }
    else if i == 2 {
    }
    else if i == 3 {
    }
    else if i == 4 {
    }
    else if i == 5 {
    }
    else if i == 6 {
    }
    else {
      assert i == 7;
    }
  }

  lemma NamesDifferFrom8(i: nat)
    requires 8 <= i < 16
    ensures forall j :: i < j < |Table()| ==> Table()[i].0 != Table()[j].0
  {
    if i == 8 {
    }
    else if i == 9 {
    }
    else if i == 10 {
    }
    else if i == 11 {
    }
    else if i == 12 {
    }
    else if i == 13 {
    }
    else if i == 14 {
    }
    else {
      assert i == 15;
    }
  }

  lemma NamesDifferFrom16(i: nat)
    requires 16 <= i < 24
    ensures forall j :: i < j < |Table()| ==> Table()[i].0 != Table()[j].0
  {
    if i == 16 {
    }
    else if i == 17 {
    }
    else if i == 18 {
    }
    else if i == 19 {
    }
    else if i == 20 {
    }
    else if i == 21 {
    }
    else if i == 22 {
    }
    else {
      assert i == 23;
    }
  }

  lemma NamesDifferFrom24(i: nat)
    requires 24 <= i < 32
    ensures forall j :: i < j < |Table()| ==> Table()[i].0 != Table()[j].0
  {
    if i == 24 {
    }
    else if i == 25 {
    }
    else if i == 26 {
    }
    else if i == 27 {
    }
    else if i == 28 {
    }
    else if i == 29 {
    }
    else if i == 30 {
    }
    else {
      assert i == 31;
    }
  }

  lemma NamesDifferFrom32(i: nat)
    requires 32 <= i < 39
    ensures forall j :: i < j < |Table()| ==> Table()[i].0 != Table()[j].0
  {
    if i == 32 {
    }
    else if i == 33 {
    }
    else if i == 34 {
    }
    else if i == 35 {
    }
    else if i == 36 {
    }
    else if i == 37 {
    }
    else {
      assert i == 38;
    }
  }

  /** The builtin operator the `smt` instance exposes for table entry `id`. */
  function BuiltinOp(smt: nat, id: nat): (op: Operator)
    requires id < |Table()|
    ensures op.FName() == Ok(Table()[id].0) && op.Kind() == Ok(Builtin)
    ensures op.args == [] && op.fdata == Table()[id].1
  {
    Operator(smt, EnumInfo(id, Table()[id].0), Table()[id].1, [], map[])
  }

  /** What `func_info` was: an enum member, or a tuple of a name, a solver
      function and possibly a definition (any other length is refused). */
  datatype InitInfo = FromEnum(id: nat) | FromTuple(name: string, fun: Native, rest: seq<Term>)

  /** `operator.__init__`: a tuple of length 2 gives a "uf", of length 3 a
      "macro"; other lengths fail the assertion. */
  function Init(smt: nat, info: InitInfo, fd: FData, args: seq<PyVal>, kwargs: map<string, PyVal>): (r: Result<Operator>)
    requires info.FromEnum? ==> info.id < |Table()|
    ensures info.FromEnum? ==> r.Ok? && r.value.Kind() == Ok(Builtin) && r.value.FName() == Ok(Table()[info.id].0)
    ensures info.FromTuple? ==> (r.Ok? <==> |info.rest| <= 1)
    ensures info.FromTuple? && |info.rest| == 0 ==> r.Ok? && r.value.Kind() == Ok(UF)
    ensures info.FromTuple? && |info.rest| == 1 ==> r.Ok? && r.value.Kind() == Ok(Macro)
    ensures r.Ok? ==> r.value.FName().Ok? && r.value.args == args && r.value.keywords == kwargs && r.value.fdata == fd
  {
    match info
    case FromEnum(id) => Ok(Operator(smt, EnumInfo(id, Table()[id].0), fd, args, kwargs))
    case FromTuple(name, fun, rest) =>
      if |rest| == 0 then Ok(Operator(smt, UfInfo(name, fun), fd, args, kwargs))
      else if |rest| == 1 then Ok(Operator(smt, MacroInfo(name, fun, rest[0]), fd, args, kwargs))
      else Err(AssertionError)
  }

  /** The solver-level identity `_f_id`: the enum member or the solver
      function; an operator built by re-binding has none. */
  function FId(op: Operator): (r: Result<Native>)
    ensures r.Ok? <==> !op.info.NoInfo?
  {
    match op.info
    case EnumInfo(id, _) => Ok(NConst(Sorts.Int, PInt(id)))
    case UfInfo(_, f) => Ok(f)
    case MacroInfo(_, f, _) => Ok(f)
    case NoInfo => Err(AttributeError)
  }

  /** `operator(self._smt, self._f_id, ...)`: re-binding passes only `_f_id`,
      which names a builtin but not a declared function; an operator that
      was itself re-bound has no `_f_id`, and reading it raises
      AttributeError. */
  function Rebind(op: Operator, args: seq<PyVal>, kwargs: map<string, PyVal>): (r: Result<Operator>)
    ensures r.Ok? <==> !op.info.NoInfo?
    ensures r.Err? ==> r.error == AttributeError
    ensures r.Ok? ==> r.value.args == args && r.value.keywords == kwargs && r.value.fdata == op.fdata && r.value.smt == op.smt
    ensures op.info.EnumInfo? ==> r.Ok? && r.value.info == op.info
    ensures r.Ok? && !op.info.EnumInfo? ==> r.value.FName() == Err(AttributeError) && r.value.info.NoInfo?
  {
    var f :- FId(op);
    var info := if op.info.EnumInfo? then op.info else NoInfo;
    Ok(Operator(op.smt, info, op.fdata, args, kwargs))
  }

  /** `op1 == op2`: same name, same bound arguments, same keywords. */
  function Eq(a: Operator, b: Operator): (r: Result<bool>)
    ensures r.Ok? <==> a.FName().Ok? && b.FName().Ok?
    ensures r.Ok? ==> (r.value <==> a.FName() == b.FName() && a.args == b.args && a.keywords == b.keywords)
  {
    var na :- a.FName();
    var nb :- b.FName();
    Ok(na == nb && a.args == b.args && a.keywords == b.keywords)
  }

  /** `op1 != op2`, written out separately in the source. */
  function Ne(a: Operator, b: Operator): (r: Result<bool>)
    ensures r.Ok? <==> Eq(a, b).Ok?
    ensures r.Ok? ==> r.value == !Eq(a, b).value
  {
    var na :- a.FName();
    var nb :- b.FName();
    Ok(na != nb || a.args != b.args || a.keywords != b.keywords)
  }

  /** `hash(op)`: the hash of `(fname, args)`. */
  function HashKey(op: Operator): Result<(string, seq<PyVal>)> {
    var n :- op.FName();
    Ok((n, op.args))
  }

  /** Equal operators hash equally (keywords take no part in the hash). */
  lemma EqualOperatorsHashEqually(a: Operator, b: Operator)
    requires Eq(a, b) == Ok(true)
    ensures HashKey(a).Ok? && HashKey(a) == HashKey(b)
  {
  }

  /** `_And` / `_Or`: the identity of the connective for no arguments, the
      argument itself for one, and an error for more. */
  function RunCustom(c: Custom, args: seq<PyVal>): (r: Result<PyVal>)
    requires c != NoCustom
    ensures |args| == 0 ==> r == Ok(PBool(c == CustomAnd))
    ensures |args| == 1 ==> r == Ok(args[0])
    ensures |args| >= 2 ==> r == Err(ValueError)
  {
    if |args| == 0 then Ok(PBool(c == CustomAnd))
    else if |args| == 1 then Ok(args[0])
    else Err(ValueError)
  }

  /** An operator carries either no bound arguments or all of its indices;
      operators built by the table and by calls are always like this. */
  predicate WellBound(op: Operator) {
    |op.args| == 0 || |op.args| == op.fdata.numIndices
  }

  /** The result of calling an operator object. */
  datatype CallOutcome =
    | Rebound(op: Operator)
    | Apply(fun: Operator, operands: seq<PyVal>, kwargs: map<string, PyVal>)
    | CustomValue(v: PyVal)
    | Raised(error: PyError)

  function FromCustom(r: Result<PyVal>): CallOutcome {
    match r
    case Ok(v) => CustomValue(v)
    case Err(e) => Raised(e)
  }

  function RebindOutcome(r: Result<Operator>): CallOutcome {
    match r
    case Ok(o) => Rebound(o)
    case Err(e) => Raised(e)
  }

  /** `operator.__call__(*args, **kwargs)`, with the owning instance's
      `strict` flag; `Apply` stands for the call to `smt.ApplyFun`. */
  function Call(op: Operator, args0: seq<PyVal>, kwargs: map<string, PyVal>, strict: bool): (r: CallOutcome)
    // indices are bound only by a call with exactly that many arguments
    ensures r.Rebound? ==> |op.args| == 0 && r.op.args == Unpack(args0) && |r.op.args| == op.fdata.numIndices
    // what is applied is fully indexed, has enough operands, and loses nothing
    ensures r.Apply? ==> |r.fun.args| == r.fun.fdata.numIndices && r.fun.fdata == op.fdata
    ensures r.Apply? ==> r.fun.fdata.minArity <= |r.operands|
    ensures r.Apply? && WellBound(op) ==> r.fun.args + r.operands == op.args + Unpack(args0)
    ensures r.Apply? && strict ==> |r.operands| <= op.fdata.maxArity
    // the shortcut is permissive-only, and only for And/Or
    ensures r.CustomValue? ==> !strict && op.fdata.custom != NoCustom
    ensures r.Raised? ==> r.error == ValueError || r.error == TypeError || r.error == AttributeError
    // only an operator without `_f_id` and `_fname` raises AttributeError
    ensures r.Raised? && r.error == AttributeError ==> op.info.NoInfo?
  {
    var args := Unpack(args0);
    var n := |args|;
    var fd := op.fdata;
    var k := fd.numIndices;
    if |op.args| == 0 && n == k then
      if k == 0 && fd.custom != NoCustom && !strict then FromCustom(RunCustom(fd.custom, args))
      else RebindOutcome(Rebind(op, args, kwargs))
    else if |op.args| == k && n >= fd.minArity then
      if strict && n > fd.maxArity then Raised(ValueError)
      else Apply(op, args, kwargs)
    else if n >= k + fd.minArity then
      if strict && n - k > fd.maxArity then Raised(ValueError)
      else
        assert args[..k] + args[k..] == args;
        match Rebind(op, args[..k], map[])
        case Ok(o) => Apply(o, args[k..], kwargs)
        case Err(e) => Raised(e)
    else if fd.custom != NoCustom && !strict then
      if kwargs != map[] then Raised(TypeError) else FromCustom(RunCustom(fd.custom, args))
    // the message formats the operator, whose `__repr__` reads `_fname`
    else if op.info.NoInfo? then Raised(AttributeError)
    else Raised(ValueError)
  }

  /** Calls only ever produce well-bound operators. */
  lemma CallKeepsWellBound(op: Operator, args: seq<PyVal>, kwargs: map<string, PyVal>, strict: bool)
    ensures Call(op, args, kwargs, strict).Rebound? ==> WellBound(Call(op, args, kwargs, strict).op)
    ensures Call(op, args, kwargs, strict).Apply? ==> WellBound(Call(op, args, kwargs, strict).fun)
  {
  }

  /** Binding the indices first and then the operands is the same as passing
      them all at once: `Extract(7, 0)(x)` is `Extract(7, 0, x)`. */
  lemma IndicesThenOperands(op: Operator, indices: seq<PyVal>, operands: seq<PyVal>, kwargs: map<string, PyVal>, strict: bool)
    requires op.info.EnumInfo? && |op.args| == 0
    requires |indices| == op.fdata.numIndices > 0
    requires |operands| >= op.fdata.minArity && |operands| > 0
    requires !IsSequence(indices[0]) && !IsSequence(operands[0])
    ensures Call(op, indices, map[], strict).Rebound?
    ensures Call(Call(op, indices, map[], strict).op, operands, kwargs, strict) == Call(op, indices + operands, kwargs, strict)
  {
    var all := indices + operands;
    assert all[0] == indices[0];
    assert all[..|indices|] == indices && all[|indices|..] == operands;
  }

  /** In permissive mode And/Or of no argument is the connective's identity
      and of one argument is that argument; strict mode refuses both. */
  lemma AndShortcut(op: Operator, x: PyVal)
    requires op.info.EnumInfo? && op.fdata == Table()[0].1 && |op.args| == 0 && !IsSequence(x)
    ensures Call(op, [], map[], false) == CustomValue(PBool(true))
    ensures Call(op, [x], map[], false) == CustomValue(x)
    ensures Call(op, [], map[], true).Rebound?
    ensures Call(op, [x], map[], true) == Raised(ValueError)
  {
  }

  /** Calling a declared function with no operand re-binds it to an
      operator without `_fname` or `_f_id`; calling that one again with no
      operand, or with too few, raises AttributeError. */
  lemma RebindTwiceRaises(f: Operator, x: PyVal, strict: bool)
    requires f.info.UfInfo? && f.args == [] && f.fdata.numIndices == 0 && f.fdata.custom == NoCustom
    requires !IsSequence(x) && f.fdata.minArity > 1
    ensures Call(f, [], map[], strict).Rebound?
    ensures Call(Call(f, [], map[], strict).op, [], map[], strict) == Raised(AttributeError)
    ensures Call(Call(f, [], map[], strict).op, [x], map[], strict) == Raised(AttributeError)
  {
  }
}
