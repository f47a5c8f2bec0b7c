/** The sorts of smt_switch/src/sorts.py: immutable values whose equality,
    `params` and hash are computed from their s-expression text. */
module Sorts {
  import opened Wrappers
  import opened Text

  /** `BitVec`, `Int`, `Real`, `Bool`, `Array`, `FP` and `_RoundingMode`.
      Widths are not validated by the source, so any int is allowed; an FP
      parameter may be None (an unknown width). */
  datatype Sort =
    | BitVec(width: int)
    | Int
    | Real
    | Bool
    | Array(idxsort: Sort, dsort: Sort)
    | FP(expbits: Option<int>, sigbits: Option<int>)
    | RoundingMode

  /** The Python class of a sort, which `isinstance` compares. */
  datatype SortClass = BitVecClass | IntClass | RealClass | BoolClass | ArrayClass | FPClass | RoundingModeClass

  /** One entry of a sort's `params` tuple, or one constructor argument. */
  datatype Param = IntParam(i: int) | NoneParam | SortParam(sort: Sort)

  function ClassOf(s: Sort): SortClass {
    match s
    case BitVec(_) => BitVecClass
    case Int => IntClass
    case Real => RealClass
    case Bool => BoolClass
    case Array(_, _) => ArrayClass
    case FP(_, _) => FPClass
    case RoundingMode => RoundingModeClass
  }

  function OptionText(o: Option<int>): string {
    match o
    case None => "None"
    case Some(i) => IntToString(i)
  }

  /** The `_sexpr` each constructor stores (also the sort's `repr`). */
  function SExpr(s: Sort): string {
    match s
    case BitVec(w) => "(_ BitVec " + IntToString(w) + ")"
    case Int => "Int"
    case Real => "Real"
    case Bool => "Bool"
    case Array(i, d) => "(Array " + SExpr(i) + " " + SExpr(d) + ")"
    case FP(e, g) => "(FP " + OptionText(e) + " " + OptionText(g) + ")"
    case RoundingMode => "RoundingMode"
  }

  /** The `params` property. */
  function Params(s: Sort): seq<Param> {
    match s
    case BitVec(w) => [IntParam(w)]
    case Array(i, d) => [SortParam(i), SortParam(d)]
    case FP(e, g) => [OptionParam(e), OptionParam(g)]
    case _ => []
  }

  function OptionParam(o: Option<int>): Param {
    match o
    case None => NoneParam
    case Some(i) => IntParam(i)
  }

  /** `ConstructSort(s, *args)` of the api: calling the sort class `c` with
      `args`; a wrong number of arguments is a TypeError.  Arguments of the
      wrong kind are also reported as TypeError here. */
  function Construct(c: SortClass, args: seq<Param>): (r: Result<Sort>)
    ensures r.Ok? ==> ClassOf(r.value) == c && Params(r.value) == args
  {
    match c
    case BitVecClass =>
      if |args| == 1 && args[0].IntParam? then Ok(BitVec(args[0].i)) else Err(TypeError)
    case ArrayClass =>
      if |args| == 2 && args[0].SortParam? && args[1].SortParam?
      then Ok(Array(args[0].sort, args[1].sort)) else Err(TypeError)
    case FPClass =>
      if |args| == 2 && !args[0].SortParam? && !args[1].SortParam?
      then Ok(FP(ParamOption(args[0]), ParamOption(args[1]))) else Err(TypeError)
    case IntClass => if args == [] then Ok(Int) else Err(TypeError)
    case RealClass => if args == [] then Ok(Real) else Err(TypeError)
    case BoolClass => if args == [] then Ok(Bool) else Err(TypeError)
    case RoundingModeClass => if args == [] then Ok(RoundingMode) else Err(TypeError)
  }

  function ParamOption(p: Param): Option<int>
    requires !p.SortParam?
  {
    if p.IntParam? then Some(p.i) else None
  }

  /** A sort is rebuilt from its class and its `params`. */
  lemma ConstructFromParams(s: Sort)
    ensures Construct(ClassOf(s), Params(s)) == Ok(s)
  {
    if s.FP? {
      assert ParamOption(OptionParam(s.expbits)) == s.expbits;
      assert ParamOption(OptionParam(s.sigbits)) == s.sigbits;
    }
  }

  predicate Wild(x: Option<int>, y: Option<int>) {
    x == y || x.None? || y.None?
  }

  /** `a == b`: same class and same s-expression; for FP, each parameter
      matches when equal or when either side is None. */
  function Eq(a: Sort, b: Sort): (r: bool)
    ensures r ==> ClassOf(a) == ClassOf(b)
  {
    if a.FP? then b.FP? && Wild(a.expbits, b.expbits) && Wild(a.sigbits, b.sigbits)
    else ClassOf(b) == ClassOf(a) && SExpr(a) == SExpr(b)
  }

  /** `a != b`, written separately in the source; it is exactly `not (a == b)`. */
  function Ne(a: Sort, b: Sort): (r: bool)
    ensures r == !Eq(a, b)
  {
    if a.FP? then !Eq(a, b)
    else ClassOf(b) != ClassOf(a) || SExpr(a) != SExpr(b)
  }

  /** `hash(s)`: the hash of the s-expression.  FP overrides `__eq__`
      without `__hash__`, so Python makes FP sorts unhashable. */
  function Hash(s: Sort): (r: Result<string>)
    ensures r.Err? <==> s.FP?
  {
    if s.FP? then Err(TypeError) else Ok(SExpr(s))
  }

  // ---------------------------------------------------------------------
  // The s-expression determines the sort

  predicate IsDelimiter(c: char) {
    c == ' ' || c == '(' || c == ')'
  }

  /** A string without a space or a parenthesis. */
  predicate Plain(t: string) {
    forall i :: 0 <= i < |t| ==> !IsDelimiter(t[i])
  }

  /** What may follow a sort inside an s-expression. */
  predicate Follows(rest: string) {
    rest == [] || rest[0] == ' ' || rest[0] == ')'
  }

  /** The first two characters of a sort's s-expression, which fix its class. */
  function Tag(c: SortClass): string {
    match c
    case BitVecClass => "(_"
    case ArrayClass => "(A"
    case FPClass => "(F"
    case IntClass => "In"
    case RealClass => "Re"
    case BoolClass => "Bo"
    case RoundingModeClass => "Ro"
  }

  lemma SExprTag(s: Sort)
    ensures |SExpr(s)| >= 2 && SExpr(s)[..2] == Tag(ClassOf(s))
  {
  }

  lemma TagInjective(c: SortClass, d: SortClass)
    requires Tag(c) == Tag(d)
    ensures c == d
  {
    assert Tag(c)[0] == Tag(d)[0] && Tag(c)[1] == Tag(d)[1];
  }

  lemma IntToStringPlain(i: int)
    ensures Plain(IntToString(i)) && IntToString(i)[0] != 'N'
  {
    var t := IntToString(i);
    var d := NatToDigits(if i < 0 then -i else i, 10);
    assert IsDigit(d[0], 10);
    forall k | 0 <= k < |t| ensures !IsDelimiter(t[k]) {
      if i < 0 && k > 0 {
        assert t[k] == d[k - 1] && IsDigit(d[k - 1], 10);
      } else if i >= 0 {
        assert IsDigit(d[k], 10);
      }
    }
  }

  lemma OptionTextInjective(o: Option<int>, p: Option<int>)
    ensures Plain(OptionText(o))
    ensures OptionText(o) == OptionText(p) ==> o == p
  {
    if o.Some? { IntToStringPlain(o.value); }
    if p.Some? { IntToStringPlain(p.value); }
    if o.Some? && p.Some? {
      IntToStringInjective(o.value, p.value);
    } else if o.Some? != p.Some? {
      assert OptionText(o)[0] != OptionText(p)[0];
    }
  }

  /** Two plain words, each followed by a delimiter or by nothing, can only
      spell the same text if they are the same word. */
  lemma PlainPrefix(p: string, q: string, u: string, v: string)
    requires Plain(p) && Plain(q) && p + u == q + v
    requires u == [] || IsDelimiter(u[0])
    requires v == [] || IsDelimiter(v[0])
    ensures p == q && u == v
  {
    assert forall k :: 0 <= k < |q| ==> (q + v)[k] == q[k];
    assert forall k :: 0 <= k < |p| ==> (p + u)[k] == p[k];
    assert |u| > 0 ==> (p + u)[|p|] == u[0];
    assert |v| > 0 ==> (q + v)[|q|] == v[0];
    assert |p| == |q|;
    assert p == (p + u)[..|p|] && q == (q + v)[..|q|];
    assert u == (p + u)[|p|..] && v == (q + v)[|q|..];
  }

  /** A sort's s-expression, followed by a space, a parenthesis or nothing,
      cannot be read as any other sort's: the text determines both the sort
      and where it ends. */
  lemma {:induction false} SExprPrefix(a: Sort, b: Sort, r1: string, r2: string)
    requires Follows(r1) && Follows(r2)
    requires SExpr(a) + r1 == SExpr(b) + r2
    ensures a == b && r1 == r2
    decreases a, 1
  {
    SExprTag(a);
    SExprTag(b);
    assert (SExpr(a) + r1)[..2] == SExpr(a)[..2];
    assert (SExpr(b) + r2)[..2] == SExpr(b)[..2];
    TagInjective(ClassOf(a), ClassOf(b));
    match a
    case BitVec(w1) => BitVecPrefix(w1, b.width, r1, r2);
    case Array(i1, d1) => ArrayPrefix(i1, d1, b.idxsort, b.dsort, r1, r2);
    case FP(e1, g1) => FPPrefix(e1, g1, b.expbits, b.sigbits, r1, r2);
    case _ =>
      assert SExpr(a) == SExpr(b);
      DropPrefix(SExpr(a), r1, r2);
  }

  lemma BitVecPrefix(w1: int, w2: int, r1: string, r2: string)
    requires Follows(r1) && Follows(r2)
    requires SExpr(BitVec(w1)) + r1 == SExpr(BitVec(w2)) + r2
    ensures w1 == w2 && r1 == r2
  {
    var n1, n2 := IntToString(w1), IntToString(w2);
    IntToStringPlain(w1);
    IntToStringPlain(w2);
    assert SExpr(BitVec(w1)) + r1 == "(_ BitVec " + (n1 + (")" + r1));
    assert SExpr(BitVec(w2)) + r2 == "(_ BitVec " + (n2 + (")" + r2));
    DropPrefix("(_ BitVec ", n1 + (")" + r1), n2 + (")" + r2));
    PlainPrefix(n1, n2, ")" + r1, ")" + r2);
    IntToStringInjective(w1, w2);
    DropPrefix(")", r1, r2);
  }

  lemma {:induction false} ArrayPrefix(i1: Sort, d1: Sort, i2: Sort, d2: Sort, r1: string, r2: string)
    requires Follows(r1) && Follows(r2)
    requires SExpr(Array(i1, d1)) + r1 == SExpr(Array(i2, d2)) + r2
    ensures i1 == i2 && d1 == d2 && r1 == r2
    decreases Array(i1, d1), 0
  {
    var si1, sd1, si2, sd2 := SExpr(i1), SExpr(d1), SExpr(i2), SExpr(d2);
    SplitPair("(Array ", si1, sd1, r1, si2, sd2, r2);
    SExprPrefix(i1, i2, " " + sd1 + ")" + r1, " " + sd2 + ")" + r2);
    SplitTail(sd1, r1, sd2, r2);
    SExprPrefix(d1, d2, ")" + r1, ")" + r2);
    DropPrefix(")", r1, r2);
  }

  lemma FPPrefix(e1: Option<int>, g1: Option<int>, e2: Option<int>, g2: Option<int>, r1: string, r2: string)
    requires Follows(r1) && Follows(r2)
    requires SExpr(FP(e1, g1)) + r1 == SExpr(FP(e2, g2)) + r2
    ensures e1 == e2 && g1 == g2 && r1 == r2
  {
    var se1, sg1, se2, sg2 := OptionText(e1), OptionText(g1), OptionText(e2), OptionText(g2);
    OptionTextInjective(e1, e2);
    OptionTextInjective(g1, g2);
    OptionTextInjective(e2, e1);
    OptionTextInjective(g2, g1);
    SplitPair("(FP ", se1, sg1, r1, se2, sg2, r2);
    PlainPrefix(se1, se2, " " + sg1 + ")" + r1, " " + sg2 + ")" + r2);
    SplitTail(sg1, r1, sg2, r2);
    PlainPrefix(sg1, sg2, ")" + r1, ")" + r2);
    DropPrefix(")", r1, r2);
  }

  /** "(head x y)" + r: once the head is dropped, x is followed by " y)" + r. */
  lemma SplitPair(head: string, x1: string, y1: string, r1: string, x2: string, y2: string, r2: string)
    requires head + x1 + " " + y1 + ")" + r1 == head + x2 + " " + y2 + ")" + r2
    ensures x1 + (" " + y1 + ")" + r1) == x2 + (" " + y2 + ")" + r2)
  {
    assert head + x1 + " " + y1 + ")" + r1 == head + (x1 + (" " + y1 + ")" + r1));
    assert head + x2 + " " + y2 + ")" + r2 == head + (x2 + (" " + y2 + ")" + r2));
    DropPrefix(head, x1 + (" " + y1 + ")" + r1), x2 + (" " + y2 + ")" + r2));
  }

  lemma SplitTail(y1: string, r1: string, y2: string, r2: string)
    requires " " + y1 + ")" + r1 == " " + y2 + ")" + r2
    ensures y1 + (")" + r1) == y2 + (")" + r2)
  {
    assert " " + y1 + ")" + r1 == " " + (y1 + (")" + r1));
    assert " " + y2 + ")" + r2 == " " + (y2 + (")" + r2));
    DropPrefix(" ", y1 + (")" + r1), y2 + (")" + r2));
  }

  lemma DropPrefix(p: string, x: string, y: string)
    requires p + x == p + y
    ensures x == y
  {
    assert x == (p + x)[|p|..];
    assert y == (p + y)[|p|..];
  }

  /** Different sorts have different s-expressions. */
  lemma SExprInjective(a: Sort, b: Sort)
    ensures SExpr(a) == SExpr(b) <==> a == b
  {
    if SExpr(a) == SExpr(b) {
      assert SExpr(a) + [] == SExpr(b) + [];
      SExprPrefix(a, b, [], []);
    }
  }

  /** Away from FP, `==` on sorts is structural equality: BitVec(a) == BitVec(b)
      iff a == b, arrays are equal iff their index and element sorts are
      identical, and sorts of different classes are never equal. */
  lemma EqIsStructural(a: Sort, b: Sort)
    requires !a.FP?
    ensures Eq(a, b) <==> a == b
  {
    SExprInjective(a, b);
  }

  lemma BitVecEqIff(a: int, b: int)
    ensures Eq(BitVec(a), BitVec(b)) <==> a == b
  {
    EqIsStructural(BitVec(a), BitVec(b));
  }

  /** The FP wildcard does not reach inside an array: the element sorts below
      are equal, the array sorts are not. */
  lemma ArrayComparesFPStrictly()
    ensures Eq(FP(None, Some(24)), FP(Some(8), Some(24)))
    ensures !Eq(Array(Int, FP(None, Some(24))), Array(Int, FP(Some(8), Some(24))))
  {
    EqIsStructural(Array(Int, FP(None, Some(24))), Array(Int, FP(Some(8), Some(24))));
  }

  /** Equal sorts that can be hashed have equal hashes. */
  lemma EqualSortsHashEqually(a: Sort, b: Sort)
    requires Eq(a, b) && !a.FP?
    ensures Hash(a).Ok? && Hash(a) == Hash(b)
  {
  }

  /** Sort equality is reflexive and symmetric, but the FP wildcard makes it
      intransitive. */
  lemma EqReflexiveSymmetric(a: Sort, b: Sort)
    ensures Eq(a, a)
    ensures Eq(a, b) == Eq(b, a)
  {
  }

  lemma FPEqNotTransitive()
    ensures Eq(FP(Some(8), Some(24)), FP(None, Some(24)))
    ensures Eq(FP(None, Some(24)), FP(Some(11), Some(24)))
    ensures !Eq(FP(Some(8), Some(24)), FP(Some(11), Some(24)))
  {
  }
}
