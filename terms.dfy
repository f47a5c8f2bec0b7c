/** The term-level logic of `TermBase` and its subclasses: the iterative
    substitution, bit-vector slicing, the operator chosen by each Python
    operator overload, and the conversions of model values to Python. */
module Terms {
  import opened Wrappers
  import opened Sorts
  import opened Values
  import Text
  import Operators
  import Api
  import SmtModule

  // ---------------------------------------------------------------------
  // substitute
  // ---------------------------------------------------------------------

  /** The structural view of a term that `substitute` walks: its operator and
      its children.  A term without children is a leaf.  Two terms are the
      same dictionary key exactly when they are the same tree, which is what
      hashing and comparing on the printed form gives. */
  datatype Tree = Tree(op: string, children: seq<Tree>)

  /** Number of nodes, counting shared subterms once per occurrence. */
  function Size(t: Tree): nat
    decreases t, 1
  {
    1 + SizeSum(t, |t.children|)
  }

  function SizeSum(t: Tree, k: nat): nat
    requires k <= |t.children|
    decreases t, 0, k
  {
    if k == 0 then 0 else SizeSum(t, k - 1) + Size(t.children[k - 1])
  }

  lemma {:induction false} ChildSmaller(t: Tree, i: nat)
    requires i < |t.children|
    ensures Size(t.children[i]) < Size(t)
  {
    SizeSumBound(t, |t.children|, i);
  }

  lemma {:induction false} SizeSumBound(t: Tree, k: nat, i: nat)
    requires i < k <= |t.children|
    ensures Size(t.children[i]) <= SizeSum(t, k)
    decreases k
  {
    if i < k - 1 {
      SizeSumBound(t, k - 1, i);
    }
  }

  /** Every node of `t`, including `t`. */
  function Nodes(t: Tree): set<Tree>
    decreases t
  {
    {t} + set i, x | 0 <= i < |t.children| && x in Nodes(t.children[i]) :: x
  }

  lemma {:induction false} NodesClosed(root: Tree, f: Tree)
    requires f in Nodes(root)
    ensures Nodes(f) <= Nodes(root)
    decreases root
  {
    if f != root {
      var i :| 0 <= i < |root.children| && f in Nodes(root.children[i]);
      NodesClosed(root.children[i], f);
    }
  }

  lemma ChildInNodes(root: Tree, f: Tree, c: Tree)
    requires f in Nodes(root) && c in f.children
    ensures c in Nodes(root)
  {
    NodesClosed(root, f);
    var i :| 0 <= i < |f.children| && f.children[i] == c;
    assert c in Nodes(f.children[i]);
  }

  /** A leaf named in `symmap` and every interior node get an entry in the
      `rebuild` dictionary; other leaves are used as they are. */
  predicate NeedsEntry(t: Tree, symmap: map<Tree, Tree>) {
    t.children != [] || t in symmap
  }

  /** The substitution `substitute` computes: leaves found in `symmap` are
      replaced, interior nodes are rebuilt with the same operator over their
      substituted children, and other leaves stay. */
  function Subst(t: Tree, symmap: map<Tree, Tree>): Tree
    decreases t
  {
    if t.children == [] then
      (if t in symmap then symmap[t] else t)
    else
      Tree(t.op, seq(|t.children|, i requires 0 <= i < |t.children| => Subst(t.children[i], symmap)))
  }

  /** A visited node whose entry, if it needs one, is already in `rebuild`. */
  predicate Complete(t: Tree, symmap: map<Tree, Tree>, visited: set<Tree>, rebuild: map<Tree, Tree>) {
    t in visited && (NeedsEntry(t, symmap) ==> t in rebuild)
  }

  predicate Pending(t: Tree, symmap: map<Tree, Tree>, visited: set<Tree>, rebuild: map<Tree, Tree>) {
    t in visited && !Complete(t, symmap, visited, rebuild)
  }

  /** Every stored entry is the substitution of its key. */
  ghost predicate Entries(symmap: map<Tree, Tree>, visited: set<Tree>, rebuild: map<Tree, Tree>) {
    && rebuild.Keys <= visited
    && forall n :: n in rebuild ==> NeedsEntry(n, symmap) && rebuild[n] == Subst(n, symmap)
  }

  /** A complete node has complete children. */
  ghost predicate Closed(symmap: map<Tree, Tree>, visited: set<Tree>, rebuild: map<Tree, Tree>) {
    forall n, c :: Complete(n, symmap, visited, rebuild) && c in n.children ==> Complete(c, symmap, visited, rebuild)
  }

  /** Each pending node has a marker: the position of the copy pushed back
      below its children. */
  ghost predicate Marked(symmap: map<Tree, Tree>, stack: seq<Tree>, visited: set<Tree>, rebuild: map<Tree, Tree>, marker: map<Tree, nat>) {
    forall n :: Pending(n, symmap, visited, rebuild) ==> n in marker && marker[n] < |stack| && stack[marker[n]] == n
  }

  /** Above the marker of a pending node lie only smaller nodes ... */
  ghost predicate Above(symmap: map<Tree, Tree>, stack: seq<Tree>, visited: set<Tree>, rebuild: map<Tree, Tree>, marker: map<Tree, nat>) {
    forall n, q :: Pending(n, symmap, visited, rebuild) && n in marker && marker[n] < q < |stack| ==> Size(stack[q]) < Size(n)
  }

  /** ... and each of its children is complete or still above the marker. */
  ghost predicate Waiting(symmap: map<Tree, Tree>, stack: seq<Tree>, visited: set<Tree>, rebuild: map<Tree, Tree>, marker: map<Tree, nat>) {
    forall n, c :: Pending(n, symmap, visited, rebuild) && n in marker && c in n.children && !Complete(c, symmap, visited, rebuild)
      ==> exists k :: marker[n] < k < |stack| && stack[k] == c
  }

  ghost predicate Inv(symmap: map<Tree, Tree>, stack: seq<Tree>, visited: set<Tree>, rebuild: map<Tree, Tree>, marker: map<Tree, nat>) {
    && Entries(symmap, visited, rebuild)
    && Closed(symmap, visited, rebuild)
    && Marked(symmap, stack, visited, rebuild, marker)
    && Above(symmap, stack, visited, rebuild, marker)
    && Waiting(symmap, stack, visited, rebuild, marker)
  }

  lemma PushInNodes(root: Tree, stack: seq<Tree>, pushed: seq<Tree>)
    requires |stack| > 0 && forall i :: 0 <= i < |stack| ==> stack[i] in Nodes(root)
    requires pushed == stack + stack[|stack| - 1].children
    ensures forall i :: 0 <= i < |pushed| ==> pushed[i] in Nodes(root)
  {
    var f := stack[|stack| - 1];
    forall c | c in f.children
      ensures c in Nodes(root)
    {
      ChildInNodes(root, f, c);
    }
  }

  /** No child of the top node is pending: its marker would lie below the
      top, which is bigger than the child. */
  lemma ChildrenNotPending(symmap: map<Tree, Tree>, stack: seq<Tree>, visited: set<Tree>, rebuild: map<Tree, Tree>, marker: map<Tree, nat>)
    requires |stack| > 0
    requires Marked(symmap, stack, visited, rebuild, marker) && Above(symmap, stack, visited, rebuild, marker)
    ensures forall c :: c in stack[|stack| - 1].children ==> !Pending(c, symmap, visited, rebuild) && Size(c) < Size(stack[|stack| - 1])
  {
    var t := |stack| - 1;
    var f := stack[t];
    forall c | c in f.children
      ensures !Pending(c, symmap, visited, rebuild) && Size(c) < Size(f)
    {
      var j :| 0 <= j < |f.children| && f.children[j] == c;
      ChildSmaller(f, j);
    }
  }

  /** Popping a node not yet visited: mark it and push it back with its
      children above it. */
  lemma ExpandKeepsInv(symmap: map<Tree, Tree>, stack: seq<Tree>, visited: set<Tree>, rebuild: map<Tree, Tree>, marker: map<Tree, nat>)
    requires |stack| > 0 && Inv(symmap, stack, visited, rebuild, marker)
    requires stack[|stack| - 1] !in visited
    ensures Inv(symmap, stack + stack[|stack| - 1].children, visited + {stack[|stack| - 1]}, rebuild, marker[stack[|stack| - 1] := |stack| - 1])
  {
    var t := |stack| - 1;
    var f := stack[t];
    var s' := stack + f.children;
    var v' := visited + {f};
    var m' := marker[f := t];
    ChildrenNotPending(symmap, stack, visited, rebuild, marker);
    assert f !in rebuild;
    assert forall n :: n != f ==> (Complete(n, symmap, v', rebuild) <==> Complete(n, symmap, visited, rebuild));
    forall n, c | Complete(n, symmap, v', rebuild) && c in n.children
      ensures Complete(c, symmap, v', rebuild)
    {
      if n != f {
        assert Complete(c, symmap, visited, rebuild);
      }
    }
    assert Marked(symmap, s', v', rebuild, m');
    ExpandAbove(symmap, stack, visited, rebuild, marker);
    ExpandWaiting(symmap, stack, visited, rebuild, marker);
  }

  lemma ExpandAbove(symmap: map<Tree, Tree>, stack: seq<Tree>, visited: set<Tree>, rebuild: map<Tree, Tree>, marker: map<Tree, nat>)
    requires |stack| > 0 && Inv(symmap, stack, visited, rebuild, marker)
    requires stack[|stack| - 1] !in visited
    ensures Above(symmap, stack + stack[|stack| - 1].children, visited + {stack[|stack| - 1]}, rebuild, marker[stack[|stack| - 1] := |stack| - 1])
  {
    var t := |stack| - 1;
    var f := stack[t];
    var s' := stack + f.children;
    var v' := visited + {f};
    var m' := marker[f := t];
    ChildrenNotPending(symmap, stack, visited, rebuild, marker);
    assert forall n :: n != f ==> (Pending(n, symmap, v', rebuild) <==> Pending(n, symmap, visited, rebuild));
    forall n, q | Pending(n, symmap, v', rebuild) && n in m' && m'[n] < q < |s'|
      ensures Size(s'[q]) < Size(n)
    {
      if q > t {
        assert s'[q] in f.children;
      }
      if n != f && q >= t {
        assert Size(stack[t]) < Size(n);
      }
    }
  }

  lemma ExpandWaiting(symmap: map<Tree, Tree>, stack: seq<Tree>, visited: set<Tree>, rebuild: map<Tree, Tree>, marker: map<Tree, nat>)
    requires |stack| > 0 && Inv(symmap, stack, visited, rebuild, marker)
    requires stack[|stack| - 1] !in visited
    ensures Waiting(symmap, stack + stack[|stack| - 1].children, visited + {stack[|stack| - 1]}, rebuild, marker[stack[|stack| - 1] := |stack| - 1])
  {
    var t := |stack| - 1;
    var f := stack[t];
    var s' := stack + f.children;
    var v' := visited + {f};
    var m' := marker[f := t];
    assert forall n :: n != f ==> (Complete(n, symmap, v', rebuild) <==> Complete(n, symmap, visited, rebuild));
    forall n, c | Pending(n, symmap, v', rebuild) && n in m' && c in n.children && !Complete(c, symmap, v', rebuild)
      ensures exists k :: m'[n] < k < |s'| && s'[k] == c
    {
      if n == f {
        var j :| 0 <= j < |f.children| && f.children[j] == c;
        assert s'[t + 1 + j] == c;
      } else if c != f {
        var k :| marker[n] < k < |stack| && stack[k] == c;
        assert s'[k] == c;
      } else {
        assert s'[t] == c;
      }
    }
  }

  /** The value the loop stores for an interior node: its operator applied
      to the rebuilt children, a child without an entry standing for itself. */
  function Rebuilt(f: Tree, rebuild: map<Tree, Tree>): Tree {
    Tree(f.op, seq(|f.children|, i requires 0 <= i < |f.children| =>
      if f.children[i] in rebuild then rebuild[f.children[i]] else f.children[i]))
  }

  /** A visited node on top of the stack has complete children. */
  lemma TopChildrenComplete(symmap: map<Tree, Tree>, stack: seq<Tree>, visited: set<Tree>, rebuild: map<Tree, Tree>, marker: map<Tree, nat>)
    requires |stack| > 0 && Inv(symmap, stack, visited, rebuild, marker)
    requires stack[|stack| - 1] in visited
    ensures forall c :: c in stack[|stack| - 1].children ==> Complete(c, symmap, visited, rebuild)
  {
    var t := |stack| - 1;
    var f := stack[t];
    if Pending(f, symmap, visited, rebuild) {
      assert marker[f] == t;
    }
  }

  /** Popping a visited node: its children are complete, so the entry stored
      for it is its substitution. */
  lemma FinishEntry(symmap: map<Tree, Tree>, f: Tree, visited: set<Tree>, rebuild: map<Tree, Tree>)
      returns (rebuild': map<Tree, Tree>)
    requires f in visited && Entries(symmap, visited, rebuild)
    requires forall c :: c in f.children ==> Complete(c, symmap, visited, rebuild)
    ensures rebuild' == (if f.children == [] && f in symmap then rebuild[f := symmap[f]]
                         else if f.children != [] then rebuild[f := Rebuilt(f, rebuild)]
                         else rebuild)
    ensures Entries(symmap, visited, rebuild')
    ensures Complete(f, symmap, visited, rebuild')
  {
    if f.children == [] && f in symmap {
      rebuild' := rebuild[f := symmap[f]];
    } else if f.children != [] {
      var kids := Rebuilt(f, rebuild).children;
      forall i | 0 <= i < |f.children|
        ensures kids[i] == Subst(f.children[i], symmap)
      {
        assert Complete(f.children[i], symmap, visited, rebuild);
      }
      assert Rebuilt(f, rebuild) == Subst(f, symmap);
      rebuild' := rebuild[f := Rebuilt(f, rebuild)];
    } else {
      rebuild' := rebuild;
    }
  }

  /** Removing the top node once its entry is stored keeps the invariant. */
  lemma PopKeepsInv(symmap: map<Tree, Tree>, stack: seq<Tree>, visited: set<Tree>, rebuild: map<Tree, Tree>, rebuild': map<Tree, Tree>, marker: map<Tree, nat>)
    requires |stack| > 0 && Inv(symmap, stack, visited, rebuild, marker)
    requires Entries(symmap, visited, rebuild')
    requires forall n :: n != stack[|stack| - 1] ==> (n in rebuild' <==> n in rebuild)
    requires Complete(stack[|stack| - 1], symmap, visited, rebuild')
    requires forall c :: c in stack[|stack| - 1].children ==> Complete(c, symmap, visited, rebuild)
    ensures Inv(symmap, stack[..|stack| - 1], visited, rebuild', marker)
  {
    var t := |stack| - 1;
    var f := stack[t];
    var s' := stack[..t];
    PopKeepsClosed(symmap, f, visited, rebuild, rebuild');
    assert forall n :: Pending(n, symmap, visited, rebuild') ==> n != f && Pending(n, symmap, visited, rebuild);
    assert Marked(symmap, s', visited, rebuild', marker);
    assert Above(symmap, s', visited, rebuild', marker);
    forall n, c | Pending(n, symmap, visited, rebuild') && n in marker && c in n.children && !Complete(c, symmap, visited, rebuild')
      ensures exists k :: marker[n] < k < |s'| && s'[k] == c
    {
      var k :| marker[n] < k < |stack| && stack[k] == c;
      assert k != t;
      assert s'[k] == c;
    }
  }

  lemma PopKeepsClosed(symmap: map<Tree, Tree>, f: Tree, visited: set<Tree>, rebuild: map<Tree, Tree>, rebuild': map<Tree, Tree>)
    requires Closed(symmap, visited, rebuild)
    requires forall n :: n != f ==> (n in rebuild' <==> n in rebuild)
    requires Complete(f, symmap, visited, rebuild')
    requires forall c :: c in f.children ==> Complete(c, symmap, visited, rebuild)
    ensures Closed(symmap, visited, rebuild')
    ensures forall n :: n != f ==> (Complete(n, symmap, visited, rebuild') <==> Complete(n, symmap, visited, rebuild))
  {
    assert forall n :: n != f ==> (Complete(n, symmap, visited, rebuild') <==> Complete(n, symmap, visited, rebuild));
    forall n, c | Complete(n, symmap, visited, rebuild') && c in n.children
      ensures Complete(c, symmap, visited, rebuild')
    {
      if n != f {
        assert Complete(c, symmap, visited, rebuild);
      }
    }
  }

  /** The loop invariant of `substitute`: `Inv`, and the stack and the
      visited set hold nodes of the root only, the root at the bottom. */
  ghost predicate Walk(root: Tree, symmap: map<Tree, Tree>, stack: seq<Tree>, visited: set<Tree>, rebuild: map<Tree, Tree>, marker: map<Tree, nat>) {
    && Inv(symmap, stack, visited, rebuild, marker)
    && (forall i :: 0 <= i < |stack| ==> stack[i] in Nodes(root))
    && visited <= Nodes(root)
    && (stack != [] ==> stack[0] == root)
  }

  /** First pop of a node: the walk goes on, with one node fewer left to
      visit. */
  lemma ExpandStep(root: Tree, symmap: map<Tree, Tree>, stack: seq<Tree>, visited: set<Tree>, rebuild: map<Tree, Tree>, marker: map<Tree, nat>)
    requires |stack| > 0 && stack[|stack| - 1] !in visited
    requires Walk(root, symmap, stack, visited, rebuild, marker)
    ensures Walk(root, symmap, stack + stack[|stack| - 1].children, visited + {stack[|stack| - 1]}, rebuild, marker[stack[|stack| - 1] := |stack| - 1])
    ensures |Nodes(root) - (visited + {stack[|stack| - 1]})| < |Nodes(root) - visited|
  {
    var f := stack[|stack| - 1];
    ExpandKeepsInv(symmap, stack, visited, rebuild, marker);
    PushInNodes(root, stack, stack + f.children);
    VisitShrinks(root, visited, f);
  }

  lemma VisitShrinks(root: Tree, visited: set<Tree>, f: Tree)
    requires f in Nodes(root) && f !in visited
    ensures |Nodes(root) - (visited + {f})| < |Nodes(root) - visited|
  {
    var left := Nodes(root) - visited;
    assert f in left;
    assert Nodes(root) - (visited + {f}) == left - {f};
  }

  /** Second pop of a node: its entry is stored and the walk goes on; when
      it was the root, the root is complete. */
  lemma FinishStep(root: Tree, symmap: map<Tree, Tree>, stack: seq<Tree>, visited: set<Tree>, rebuild: map<Tree, Tree>, marker: map<Tree, nat>)
      returns (rebuild': map<Tree, Tree>)
    requires |stack| > 0 && stack[|stack| - 1] in visited
    requires Walk(root, symmap, stack, visited, rebuild, marker)
    ensures var f := stack[|stack| - 1];
      rebuild' == (if f.children == [] && f in symmap then rebuild[f := symmap[f]]
                   else if f.children != [] then rebuild[f := Rebuilt(f, rebuild)]
                   else rebuild)
    ensures Walk(root, symmap, stack[..|stack| - 1], visited, rebuild', marker)
    ensures |stack| == 1 ==> Complete(root, symmap, visited, rebuild')
  {
    var f := stack[|stack| - 1];
    TopChildrenComplete(symmap, stack, visited, rebuild, marker);
    rebuild' := FinishEntry(symmap, f, visited, rebuild);
    PopKeepsInv(symmap, stack, visited, rebuild, rebuild', marker);
  }

  /** `TermBase.substitute`: a post-order walk with an explicit stack.  A node
      is pushed back above its children the first time it is popped and
      rebuilt the second time; the entry of the last node popped, the root,
      is returned, and a root leaf that `symmap` does not name has none. */
  method Substitute(root: Tree, symmap: map<Tree, Tree>) returns (r: Result<Tree>)
    ensures NeedsEntry(root, symmap) ==> r == Ok(Subst(root, symmap))
    ensures !NeedsEntry(root, symmap) ==> r == Err(KeyError)
  {
    var stack := [root];
    var visited: set<Tree> := {};
    var rebuild: map<Tree, Tree> := map[];
    ghost var marker: map<Tree, nat> := map[];
    var f := root;
    while stack != []
      invariant Walk(root, symmap, stack, visited, rebuild, marker)
      invariant stack == [] ==> f == root && Complete(root, symmap, visited, rebuild)
      decreases |Nodes(root) - visited|, |stack|
    {
      f := stack[|stack| - 1];
      if f !in visited {
        ExpandStep(root, symmap, stack, visited, rebuild, marker);
        visited := visited + {f};
        marker := marker[f := |stack| - 1];
        stack := stack + f.children;
      } else {
        ghost var rebuild' := FinishStep(root, symmap, stack, visited, rebuild, marker);
        stack := stack[..|stack| - 1];
        if f.children == [] && f in symmap {
          rebuild := rebuild[f := symmap[f]];
        } else if f.children != [] {
          rebuild := rebuild[f := Rebuilt(f, rebuild)];
        }
        assert rebuild == rebuild';
      }
    }
    if f in rebuild {
      r := Ok(rebuild[f]);
    } else {
      r := Err(KeyError);
    }
  }

  /** Substituting nothing changes nothing. */
  lemma {:induction false} SubEmpty(t: Tree)
    ensures Subst(t, map[]) == t
    decreases t
  {
    if t.children != [] {
      forall i | 0 <= i < |t.children|
        ensures Subst(t.children[i], map[]) == t.children[i]
      {
        SubEmpty(t.children[i]);
      }
    }
  }

  /** Substitution touches leaves only: the operator and arity of every
      interior node are kept. */
  lemma SubKeepsShape(t: Tree, symmap: map<Tree, Tree>)
    requires t.children != []
    ensures Subst(t, symmap).op == t.op && |Subst(t, symmap).children| == |t.children|
    ensures forall i :: 0 <= i < |t.children| ==> Subst(t, symmap).children[i] == Subst(t.children[i], symmap)
  {
  }

  /** Mapping a leaf to itself is the same as not mapping it. */
  lemma {:induction false} SubIdentityEntry(t: Tree, symmap: map<Tree, Tree>, x: Tree)
    requires x.children == [] && x !in symmap
    ensures Subst(t, symmap[x := x]) == Subst(t, symmap)
    decreases t
  {
    if t.children != [] {
      forall i | 0 <= i < |t.children|
        ensures Subst(t.children[i], symmap[x := x]) == Subst(t.children[i], symmap)
      {
        SubIdentityEntry(t.children[i], symmap, x);
      }
    }
  }

  // ---------------------------------------------------------------------
  // __getitem__
  // ---------------------------------------------------------------------

  /** The index of `term[idx]`: a slice (a missing bound is `None`), an
      integer (a bool counts as one), or anything else. */
  datatype Index =
    | Slice(start: Option<int>, stop: Option<int>, step: Option<int>)
    | Position(i: int)
    | OtherIndex

  /** A step is refused only when it is truthy and not 1, so 0 passes. */
  predicate StepAccepted(step: Option<int>) {
    step.None? || step.value == 0 || step.value == 1
  }

  /** The bits `(high, low)` that `term[idx]` extracts, after the checks
      of `__getitem__`: only bit-vectors can be sliced, the step must be
      absent or 1, both bounds must lie inside the width and the slice is
      written high bit first.  A missing bound reaches `None < 0`. */
  function ExtractBits(s: Sort, idx: Index): (r: Result<(int, int)>)
    ensures !s.BitVec? ==> r == Err(ValueError)
    ensures r.Ok? ==> s.BitVec? && 0 <= r.value.1 <= r.value.0 < s.width
    ensures s.BitVec? && idx.Position? ==>
      (r.Ok? <==> 0 <= idx.i < s.width) && (r.Ok? ==> r.value == (idx.i, idx.i))
    ensures s.BitVec? && idx.Slice? && idx.start.Some? && idx.stop.Some? && StepAccepted(idx.step) ==>
      (r.Ok? <==> 0 <= idx.stop.value <= idx.start.value < s.width)
      && (r.Ok? ==> r.value == (idx.start.value, idx.stop.value))
    ensures r.Err? ==> r.error == ValueError || (r.error == TypeError && idx.Slice? && (idx.start.None? || idx.stop.None?))
  {
    if !s.BitVec? then Err(ValueError)
    else
      var w := s.width;
      match idx
      case Slice(start, stop, step) =>
        if !StepAccepted(step) then Err(ValueError)
        else if start.None? then Err(TypeError)
        else if start.value < 0 || start.value >= w then Err(ValueError)
        else if stop.None? then Err(TypeError)
        else if stop.value < 0 || stop.value >= w then Err(ValueError)
        else if start.value < stop.value then Err(ValueError)
        else Ok((start.value, stop.value))
      case Position(i) =>
        if i < 0 || i >= w then Err(ValueError) else Ok((i, i))
      case OtherIndex => Err(ValueError)
  }

  /** The operator `smt.Extract(hi, lo)` binds: the builtin with both indices. */
  function BoundExtract(inst: Api.Instance, hi: int, lo: int): Operator {
    Operators.Rebind(Operators.BuiltinOp(inst.id, ExtractId), [PInt(hi), PInt(lo)], map[]).value
  }

  /** `smt.Extract(hi, lo)(term)`: the indices are bound first, then the
      builtin is applied to the term, which must belong to this instance
      and its solver. */
  lemma ExtractChain(inst: Api.Instance, t: Term, hi: int, lo: int)
    ensures Api.Invoke(inst, Operators.BuiltinOp(inst.id, ExtractId), [PInt(hi), PInt(lo)], map[])
      == Ok(Api.NewOp(BoundExtract(inst, hi, lo)))
    ensures t.smt == inst.id && t.kind == inst.kind ==>
      Api.ApplyFun(inst, BoundExtract(inst, hi, lo), [PTerm(t)]) == Ok(Api.BuiltinCall(ExtractId, [PInt(hi), PInt(lo)], [t.handle]))
    ensures t.smt != inst.id || t.kind != inst.kind ==>
      Api.ApplyFun(inst, BoundExtract(inst, hi, lo), [PTerm(t)]) == Err(ValueError)
  {
    Operators.TableWellFormed();
    var op := Operators.BuiltinOp(inst.id, ExtractId);
    var idx := [PInt(hi), PInt(lo)];
    assert Unpack(idx) == idx;
    assert Operators.Call(op, idx, map[], inst.strict) == Operators.Rebound(BoundExtract(inst, hi, lo));
    var args := [PTerm(t)];
    assert SmtModule.FlatArgs(args) == args;
    assert PTerm(t) in args;
    assert Api.LastTerm(args) == Some(0);
    assert SmtModule.AllTerms(args);
    var natives := Api.SolverArgs(inst.strict, t.SortOf(), args);
    assert natives.Ok? && |natives.value| == 1 && natives.value[0] == t.handle;
    assert natives.value == [t.handle];
  }

  /** `term[idx]`: the checks, then `smt.Extract(high, low)` binds the two
      indices and `smt.ApplyFun` sends the extraction to the solver. */
  function GetItem(inst: Api.Instance, t: Term, idx: Index): (r: Result<Api.SolverCall>)
    ensures ExtractBits(t.SortOf(), idx).Err? ==> r == Err(ExtractBits(t.SortOf(), idx).error)
    ensures ExtractBits(t.SortOf(), idx).Ok? && (t.smt != inst.id || t.kind != inst.kind) ==> r == Err(ValueError)
    ensures ExtractBits(t.SortOf(), idx).Ok? && t.smt == inst.id && t.kind == inst.kind ==>
      var (hi, lo) := ExtractBits(t.SortOf(), idx).value;
      r == Ok(Api.BuiltinCall(ExtractId, [PInt(hi), PInt(lo)], [t.handle]))
  {
    var (hi, lo) :- ExtractBits(t.SortOf(), idx);
    ExtractChain(inst, t, hi, lo);
    match Api.Invoke(inst, Operators.BuiltinOp(inst.id, ExtractId), [PInt(hi), PInt(lo)], map[])
    case Ok(NewOp(bound)) => Api.ApplyFun(inst, bound, [PTerm(t)])
    case _ => Err(TypeError)
  }

  /** Every bit of a bit-vector can be read on its own, and a slice covers
      between one bit and the whole width. */
  lemma SliceWidth(s: Sort, idx: Index)
    requires ExtractBits(s, idx).Ok?
    ensures 1 <= ExtractBits(s, idx).value.0 - ExtractBits(s, idx).value.1 + 1 <= s.width
  {
  }

  /** A step of 0 or 1, or none, reads the same bits; any other is refused. */
  lemma StepIgnored(w: int, hi: int, lo: int, step: int)
    ensures ExtractBits(BitVec(w), Slice(Some(hi), Some(lo), Some(0))) == ExtractBits(BitVec(w), Slice(Some(hi), Some(lo), None))
    ensures ExtractBits(BitVec(w), Slice(Some(hi), Some(lo), Some(1))) == ExtractBits(BitVec(w), Slice(Some(hi), Some(lo), None))
    ensures step != 0 && step != 1 ==> ExtractBits(BitVec(w), Slice(Some(hi), Some(lo), Some(step))) == Err(ValueError)
  {
  }

  /** `x[i]` and `x[i:i]` extract the same bit. */
  lemma PositionIsSlice(s: Sort, i: int)
    requires s.BitVec?
    ensures ExtractBits(s, Position(i)) == ExtractBits(s, Slice(Some(i), Some(i), None))
  {
  }

  // ---------------------------------------------------------------------
  // operator overloads
  // ---------------------------------------------------------------------

  /** The Python operators a term overloads (`r` for the reflected ones). */
  datatype Overload =
    | Add | RAdd | Sub | RSub | Neg | Mul | RMul | Mod | TrueDiv | RTrueDiv
    | Lt | Le | Gt | Ge
    | BitAnd | BitOr | BitXor | LShift | RLShift | RShift | RRShift | Invert
    | Equal | NotEqual

  predicate IsComparison(o: Overload) {
    o == Lt || o == Le || o == Gt || o == Ge
  }

  predicate IsBitwise(o: Overload) {
    o == BitAnd || o == BitOr || o == BitXor || o == LShift || o == RLShift || o == RShift || o == RRShift
  }

  predicate IsArithmetic(o: Overload) {
    o == Add || o == RAdd || o == Sub || o == RSub || o == Neg || o == Mul || o == RMul || o == Mod || o == TrueDiv || o == RTrueDiv
  }

  predicate IsReflected(o: Overload) {
    o == RSub || o == RTrueDiv || o == RLShift || o == RRShift
  }

  /** An argument of the `ApplyFun` call an overload makes. */
  datatype Arg =
    | Val(v: PyVal)
    | Const(sort: Sort, v: PyVal) // `smt.TheoryConst(sort, v)`
    | Inner(req: Request)        // the term another overload builds

  /** `smt.ApplyFun(smt.<name>, *args)`, the operator given by its position
      in the table. */
  datatype Request = Request(fid: nat, args: seq<Arg>)

  // positions in the operator table of the operators the overloads use
  const EqualsId: nat := 2
  const NotId: nat := 3
  const SubId: nat := 5
  const AddId: nat := 6
  const LTId: nat := 7
  const GTId: nat := 8
  const LEQId: nat := 9
  const GEQId: nat := 10
  const ExtractId: nat := 11
  const BVAndId: nat := 14
  const BVOrId: nat := 15
  const BVXorId: nat := 16
  const BVAddId: nat := 17
  const BVSubId: nat := 18
  const BVMulId: nat := 19
  const BVUdivId: nat := 20
  const BVUremId: nat := 21
  const BVShlId: nat := 22
  const BVAshrId: nat := 23
  const BVSltId: nat := 29
  const BVSleId: nat := 30
  const BVSgtId: nat := 31
  const BVSgeId: nat := 32
  const BVNotId: nat := 33
  const BVNegId: nat := 34

  /** The positions name the operators the source looks up. */
  lemma OverloadIdsNameTheirOperators()
    ensures Operators.Table()[EqualsId].0 == "Equals" && Operators.Table()[NotId].0 == "Not"
    ensures Operators.Table()[SubId].0 == "Sub" && Operators.Table()[AddId].0 == "Add"
    ensures Operators.Table()[LTId].0 == "LT" && Operators.Table()[GTId].0 == "GT"
    ensures Operators.Table()[LEQId].0 == "LEQ" && Operators.Table()[GEQId].0 == "GEQ"
    ensures Operators.Table()[ExtractId].0 == "Extract"
    ensures Operators.Table()[BVAndId].0 == "BVAnd" && Operators.Table()[BVOrId].0 == "BVOr"
    ensures Operators.Table()[BVXorId].0 == "BVXor" && Operators.Table()[BVAddId].0 == "BVAdd"
    ensures Operators.Table()[BVSubId].0 == "BVSub" && Operators.Table()[BVMulId].0 == "BVMul"
    ensures Operators.Table()[BVUdivId].0 == "BVUdiv" && Operators.Table()[BVUremId].0 == "BVUrem"
    ensures Operators.Table()[BVShlId].0 == "BVShl" && Operators.Table()[BVAshrId].0 == "BVAshr"
    ensures Operators.Table()[BVSltId].0 == "BVSlt" && Operators.Table()[BVSleId].0 == "BVSle"
    ensures Operators.Table()[BVSgtId].0 == "BVSgt" && Operators.Table()[BVSgeId].0 == "BVSge"
    ensures Operators.Table()[BVNotId].0 == "BVNot" && Operators.Table()[BVNegId].0 == "BVNeg"
  {
    CoreIds();
    BitVecIds();
    ComparisonIds();
  }

  lemma CoreIds()
    ensures Operators.Table()[EqualsId].0 == "Equals" && Operators.Table()[NotId].0 == "Not"
    ensures Operators.Table()[SubId].0 == "Sub" && Operators.Table()[AddId].0 == "Add"
    ensures Operators.Table()[LTId].0 == "LT" && Operators.Table()[GTId].0 == "GT"
    ensures Operators.Table()[LEQId].0 == "LEQ" && Operators.Table()[GEQId].0 == "GEQ"
    ensures Operators.Table()[ExtractId].0 == "Extract"
  {
  }

  lemma BitVecIds()
    ensures Operators.Table()[BVAndId].0 == "BVAnd" && Operators.Table()[BVOrId].0 == "BVOr"
    ensures Operators.Table()[BVXorId].0 == "BVXor" && Operators.Table()[BVAddId].0 == "BVAdd"
    ensures Operators.Table()[BVSubId].0 == "BVSub" && Operators.Table()[BVMulId].0 == "BVMul"
    ensures Operators.Table()[BVUdivId].0 == "BVUdiv" && Operators.Table()[BVUremId].0 == "BVUrem"
    ensures Operators.Table()[BVShlId].0 == "BVShl" && Operators.Table()[BVAshrId].0 == "BVAshr"
  {
  }

  lemma ComparisonIds()
    ensures Operators.Table()[BVSltId].0 == "BVSlt" && Operators.Table()[BVSleId].0 == "BVSle"
    ensures Operators.Table()[BVSgtId].0 == "BVSgt" && Operators.Table()[BVSgeId].0 == "BVSge"
    ensures Operators.Table()[BVNotId].0 == "BVNot" && Operators.Table()[BVNegId].0 == "BVNeg"
  {
  }

  /** The bit-wise overloads make a constant of the term's own sort out of
      anything that is not a term. */
  function Lift(s: Sort, other: PyVal): (a: Arg)
    ensures other.PTerm? ==> a == Val(other)
    ensures !other.PTerm? ==> a == Const(s, other)
  {
    if other.PTerm? then Val(other) else Const(s, other)
  }

  /** The assertion in front of each comparison: an operand with a sort
      must have an equal one. */
  predicate SortsAgree(s: Sort, other: PyVal) {
    !other.PTerm? || Sorts.Eq(s, other.t.SortOf())
  }

  /** The arithmetic overloads, by the class of `self`'s sort.  The
      floating-point branches look up `smt.FPAdd` and the like, which no
      instance has (the table holds no floating-point operator, see
      `NoFloatingPointOperator`), so they raise AttributeError;
      `other - self` has no floating-point branch at all. */
  function Arithmetic(o: Overload, self: Term, other: PyVal): (r: Result<Request>)
    requires IsArithmetic(o)
    ensures r.Ok? ==> r.value.fid < |Operators.Table()|
    ensures IsReflected(o) && r.Ok? ==> r.value.args == [Val(other), Val(PTerm(self))]
    ensures !IsReflected(o) && o != Neg && r.Ok? ==> r.value.args == [Val(PTerm(self)), Val(other)]
    ensures o == Neg && r.Ok? ==> |r.value.args| > 0 && r.value.args[|r.value.args| - 1] == Val(PTerm(self))
    ensures self.SortOf().FP? && o != RSub ==> r.Err?
    ensures r.Err? ==> r.error == AttributeError || r.error == NotImplementedError
  {
    var s := self.SortOf();
    var me := Val(PTerm(self));
    var it := Val(other);
    match o
    case Add | RAdd =>
      if s.BitVec? then Ok(Request(BVAddId, [me, it]))
      else if s.FP? then Err(AttributeError)
      else Ok(Request(AddId, [me, it]))
    case Sub =>
      if s.BitVec? then Ok(Request(BVSubId, [me, it]))
      else if s.FP? then Err(AttributeError)
      else Ok(Request(SubId, [me, it]))
    case RSub =>
      if s.BitVec? then Ok(Request(BVSubId, [it, me])) else Ok(Request(SubId, [it, me]))
    case Neg =>
      if s.BitVec? then Ok(Request(BVNegId, [me]))
      else if s.FP? then Err(AttributeError)
      else Ok(Request(SubId, [Const(s, PInt(0)), me]))
    case Mul | RMul =>
      if s.BitVec? then Ok(Request(BVMulId, [me, it]))
      else if s.FP? then Err(AttributeError)
      else Err(NotImplementedError)
    case Mod =>
      if s.BitVec? then Ok(Request(BVUremId, [me, it])) else Err(NotImplementedError)
    case TrueDiv =>
      if s.BitVec? then Ok(Request(BVUdivId, [me, it]))
      else if s.FP? then Err(AttributeError)
      else Err(NotImplementedError)
    case RTrueDiv =>
      if s.BitVec? then Ok(Request(BVUdivId, [it, me])) else Err(NotImplementedError)
  }

  /** The comparisons: the sorts are checked first, then bit-vectors
      compare signed and floating point fails on the lookup. */
  function Comparison(o: Overload, self: Term, other: PyVal): (r: Result<Request>)
    requires IsComparison(o)
    ensures !SortsAgree(self.SortOf(), other) ==> r == Err(AssertionError)
    ensures SortsAgree(self.SortOf(), other) && self.SortOf().FP? ==> r == Err(AttributeError)
    ensures SortsAgree(self.SortOf(), other) && !self.SortOf().FP? ==> r.Ok?
    ensures r.Ok? ==> r.value.args == [Val(PTerm(self)), Val(other)]
    ensures r.Ok? && self.SortOf().BitVec? ==> BVSltId <= r.value.fid <= BVSgeId
    ensures r.Ok? && !self.SortOf().BitVec? ==> LTId <= r.value.fid <= GEQId
  {
    var s := self.SortOf();
    var args := [Val(PTerm(self)), Val(other)];
    if !SortsAgree(s, other) then Err(AssertionError)
    else if s.FP? then Err(AttributeError)
    else if s.BitVec? then
      Ok(Request(match o case Lt => BVSltId case Le => BVSleId case Gt => BVSgtId case _ => BVSgeId, args))
    else
      Ok(Request(match o case Lt => LTId case Le => LEQId case Gt => GTId case _ => GEQId, args))
  }

  /** The bit-wise overloads: no sort check (that is left to the solver),
      and a literal operand becomes a constant of `self`'s sort. */
  function Bitwise(o: Overload, self: Term, other: PyVal): (r: Result<Request>)
    requires IsBitwise(o)
    ensures r.Ok? && BVAndId <= r.value.fid <= BVAshrId
    ensures IsReflected(o) ==> r.value.args == [Lift(self.SortOf(), other), Val(PTerm(self))]
    ensures !IsReflected(o) ==> r.value.args == [Val(PTerm(self)), Lift(self.SortOf(), other)]
  {
    var me := Val(PTerm(self));
    var it := Lift(self.SortOf(), other);
    match o
    case BitAnd => Ok(Request(BVAndId, [me, it]))
    case BitOr => Ok(Request(BVOrId, [me, it]))
    case BitXor => Ok(Request(BVXorId, [me, it]))
    case LShift => Ok(Request(BVShlId, [me, it]))
    case RLShift => Ok(Request(BVShlId, [it, me]))
    case RShift => Ok(Request(BVAshrId, [me, it]))
    case RRShift => Ok(Request(BVAshrId, [it, me]))
  }

  /** The `ApplyFun` call behind `self <o> other` (or `other <o> self` for
      a reflected operator, `<o> self` for a unary one). */
  function Dispatch(o: Overload, self: Term, other: PyVal): (r: Result<Request>)
    ensures r.Ok? ==> r.value.fid < |Operators.Table()|
    ensures !IsComparison(o) && o != Invert ==> r.Err? ==> r.error == AttributeError || r.error == NotImplementedError
    ensures o == Invert ==> (r.Ok? <==> self.SortOf().BitVec?)
  {
    if IsArithmetic(o) then Arithmetic(o, self, other)
    else if IsComparison(o) then Comparison(o, self, other)
    else if IsBitwise(o) then Bitwise(o, self, other)
    else
      var me := Val(PTerm(self));
      match o
      case Invert =>
        if !self.SortOf().BitVec? then Err(AssertionError) else Ok(Request(BVNotId, [me]))
      case Equal => Ok(Request(EqualsId, [me, Val(other)]))
      case NotEqual => Ok(Request(NotId, [Inner(Request(EqualsId, [me, Val(other)]))]))
  }

  /** The bit-vector operators of the table are the ones named "BV...". */
  predicate IsBitVecName(name: string) {
    |name| >= 2 && name[0] == 'B' && name[1] == 'V'
  }

  lemma BitVecIdNamed(fid: nat)
    requires BVAndId <= fid <= BVAshrId || BVSltId <= fid <= BVNegId
    ensures fid < |Operators.Table()| && IsBitVecName(Operators.Table()[fid].0)
  {
  }

  lemma BitVecArithmeticIds(o: Overload, self: Term, other: PyVal)
    requires IsArithmetic(o) && self.SortOf().BitVec?
    ensures var r := Dispatch(o, self, other);
      r.Ok? && r.value.fid in {BVAddId, BVSubId, BVMulId, BVUdivId, BVUremId, BVNegId}
  {
  }

  lemma BitVecBitwiseIds(o: Overload, self: Term, other: PyVal)
    requires IsBitwise(o)
    ensures var r := Dispatch(o, self, other);
      r.Ok? && BVAndId <= r.value.fid <= BVAshrId
  {
  }

  lemma BitVecInvertId(self: Term, other: PyVal)
    requires self.SortOf().BitVec?
    ensures Dispatch(Invert, self, other) == Ok(Request(BVNotId, [Val(PTerm(self))]))
  {
  }

  lemma BitVecComparisonIds(o: Overload, self: Term, other: PyVal)
    requires IsComparison(o) && self.SortOf().BitVec? && SortsAgree(self.SortOf(), other)
    ensures var r := Dispatch(o, self, other);
      r.Ok? && Operators.Table()[r.value.fid].0 in {"BVSlt", "BVSle", "BVSgt", "BVSge"}
  {
    var r := Dispatch(o, self, other);
    assert BVSltId <= r.value.fid <= BVSgeId;
    ComparisonIds();
  }

  /** On bit-vectors every overload goes through, comparisons of operands
      of equal sorts included; it always picks a bit-vector operator, and
      comparisons are the signed ones. */
  lemma BitVecOverloadsSigned(o: Overload, self: Term, other: PyVal)
    requires self.SortOf().BitVec?
    requires IsComparison(o) ==> SortsAgree(self.SortOf(), other)
    ensures var r := Dispatch(o, self, other);
      && r.Ok?
      && (IsComparison(o) ==> Operators.Table()[r.value.fid].0 in {"BVSlt", "BVSle", "BVSgt", "BVSge"})
      && (IsArithmetic(o) || IsBitwise(o) || o == Invert ==> IsBitVecName(Operators.Table()[r.value.fid].0))
  {
    var r := Dispatch(o, self, other);
    if IsArithmetic(o) {
      BitVecArithmeticIds(o, self, other);
      BitVecIdNamed(r.value.fid);
    } else if IsComparison(o) {
      BitVecComparisonIds(o, self, other);
    } else if IsBitwise(o) {
      BitVecBitwiseIds(o, self, other);
      BitVecIdNamed(r.value.fid);
    } else if o == Invert {
      BitVecInvertId(self, other);
      BitVecIdNamed(BVNotId);
    }
  }

  /** On Int, Real and Bool terms the arithmetic that is not linear is
      refused, and the rest goes through. */
  lemma NonlinearRefused(o: Overload, self: Term, other: PyVal)
    requires !self.SortOf().BitVec? && !self.SortOf().FP?
    requires IsComparison(o) ==> SortsAgree(self.SortOf(), other)
    ensures Dispatch(o, self, other).Err? <==> o in {Mul, RMul, Mod, TrueDiv, RTrueDiv, Invert}
    ensures o in {Mul, RMul, Mod, TrueDiv, RTrueDiv} ==> Dispatch(o, self, other) == Err(NotImplementedError)
  {
  }

  /** No operator of the table is a floating-point one: no name starts with
      'F', as "FPAdd", "FPLt" and "Round" would. */
  lemma NoFloatingPointOperator(i: nat)
    requires i < |Operators.Table()|
    ensures Operators.Table()[i].0[0] != 'F'
  {
    Operators.TableWellFormed();
    if i < 20 {
      NoFloatingPointOperatorBelow20(i);
    } else {
      NoFloatingPointOperatorFrom20(i);
    }
  }

  lemma NoFloatingPointOperatorBelow20(i: nat)
    requires i < 20
    ensures Operators.Table()[i].0[0] != 'F'
  {
    if i == 0 {} else if i == 1 {} else if i == 2 {} else if i == 3 {} else if i == 4 {}
    else if i == 5 {} else if i == 6 {} else if i == 7 {} else if i == 8 {} else if i == 9 {}
    else if i == 10 {} else if i == 11 {} else if i == 12 {} else if i == 13 {} else if i == 14 {}
    else if i == 15 {} else if i == 16 {} else if i == 17 {} else if i == 18 {} else { assert i == 19; }
  }

  lemma NoFloatingPointOperatorFrom20(i: nat)
    requires 20 <= i < 40
    ensures Operators.Table()[i].0[0] != 'F'
  {
    if i == 20 {} else if i == 21 {} else if i == 22 {} else if i == 23 {} else if i == 24 {}
    else if i == 25 {} else if i == 26 {} else if i == 27 {} else if i == 28 {} else if i == 29 {}
    else if i == 30 {} else if i == 31 {} else if i == 32 {} else if i == 33 {} else if i == 34 {}
    else if i == 35 {} else if i == 36 {} else if i == 37 {} else if i == 38 {} else { assert i == 39; }
  }

  /** `other + self` is `self + other`: the sum keeps `self` first. */
  lemma ReflectedAddKeepsOrder(self: Term, other: PyVal)
    ensures Dispatch(RAdd, self, other) == Dispatch(Add, self, other)
  {
  }

  /** Outside floating point, `other - self` swaps the operands of
      `self - other`. */
  lemma ReflectedSubSwaps(self: Term, other: PyVal)
    requires !self.SortOf().FP?
    ensures Dispatch(Sub, self, other).Ok? && Dispatch(RSub, self, other).Ok?
    ensures Dispatch(RSub, self, other).value.fid == Dispatch(Sub, self, other).value.fid
    ensures Dispatch(RSub, self, other).value.args == [Dispatch(Sub, self, other).value.args[1], Dispatch(Sub, self, other).value.args[0]]
  {
  }

  /** `self != other` negates the term `self == other` builds. */
  lemma NotEqualNegatesEqual(self: Term, other: PyVal)
    ensures Dispatch(Equal, self, other).Ok?
    ensures Dispatch(NotEqual, self, other) == Ok(Request(NotId, [Inner(Dispatch(Equal, self, other).value)]))
  {
  }

  // ---------------------------------------------------------------------
  // model values
  // ---------------------------------------------------------------------

  /** `Z3Term.as_bitstr`: Z3 prints the value in decimal, that is read back
      and printed in binary, zero-filled to the width. */
  function Z3AsBitstr(value: nat, width: int): (r: Result<string>)
    // the detour through decimal text loses nothing
    ensures r == Ok(Text.ZFill(Text.BinaryString(value), width))
  {
    Text.DigitsRoundTrip(value, 10);
    // `int(str(value))`: only a malformed string raises, with ValueError
    var parsed := Text.ParseDigits(Text.NatToDigits(value, 10), 10);
    if parsed.Ok? then Ok(Text.ZFill(Text.BinaryString(parsed.value), width)) else Err(ValueError)
  }

  /** `BoolectorTerm.as_int`: the assignment string read in base 2, as a
      plain string of binary digits. */
  function BoolectorAsInt(assignment: string): (r: Result<nat>)
    ensures r.Ok? <==> assignment != [] && Text.AllDigits(assignment, 2)
  {
    Text.ParseDigits(assignment, 2)
  }

  /** Powers of two, for the range of a bit-vector value. */
  function Pow2(k: nat): (r: nat)
    ensures r >= 1
  {
    if k == 0 then 1 else 2 * Pow2(k - 1)
  }

  /** A value below `2^w` has at most `w` binary digits. */
  lemma {:induction false} BinaryLength(n: nat, w: nat)
    requires 1 <= w && n < Pow2(w)
    ensures |Text.BinaryString(n)| <= w
    decreases w
  {
    if n >= 2 {
      Text.DivStep(n, 2);
      BinaryLength(n / 2, w - 1);
    }
  }

  /** The bit string of a value of a `BitVec(w)` has exactly `w` characters,
      and reading it in base 2 (as `BoolectorTerm.as_int` does) gives the
      value back. */
  lemma BitstrRoundTrip(value: nat, w: nat)
    requires 1 <= w && value < Pow2(w)
    ensures Z3AsBitstr(value, w).Ok?
    ensures |Z3AsBitstr(value, w).value| == w
    ensures BoolectorAsInt(Z3AsBitstr(value, w).value) == Ok(value)
  {
    Text.DigitsRoundTrip(value, 10);
    BinaryLength(value, w);
    Text.ZFillParses(value, w, 2);
  }

  /** `BoolectorTerm.as_bool` as written: a width other than 1 raises
      ValueError, and otherwise the truth of the assignment string is taken,
      which holds for "0" as much as for "1". */
  function BoolectorAsBoolAsWritten(width: int, assignment: string): (r: Result<bool>)
    ensures width != 1 ==> r == Err(ValueError)
    ensures width == 1 ==> r == Ok(assignment != [])
  {
    if width != 1 then Err(ValueError) else Ok(assignment != [])
  }

  /** `BoolectorTerm.as_bool` as evidently intended: the single bit read as
      a number, true exactly when it is 1. */
  function BoolectorAsBool(width: int, assignment: string): (r: Result<bool>)
    ensures width != 1 ==> r == Err(ValueError)
    ensures width == 1 && BoolectorAsInt(assignment).Ok? ==> r == Ok(BoolectorAsInt(assignment).value != 0)
    ensures width == 1 && BoolectorAsInt(assignment).Err? ==> r == Err(ValueError)
  {
    if width != 1 then Err(ValueError)
    else
      var n :- BoolectorAsInt(assignment);
      Ok(n != 0)
  }

  /** The two readings of a one-bit assignment: the corrected one gives back
      the bit, the one as written calls a false bit true. */
  lemma AsBoolReadsTheBit()
    ensures BoolectorAsBool(1, "0") == Ok(false) && BoolectorAsBool(1, "1") == Ok(true)
    ensures BoolectorAsBoolAsWritten(1, "0") == Ok(true) && BoolectorAsBoolAsWritten(1, "1") == Ok(true)
  {
    assert Text.DigitsValue("0", 2) == 0 by {
      assert "0"[..0] == "";
    }
    assert Text.DigitsValue("1", 2) == 1 by {
      assert "1"[..0] == "";
    }
  }
}
