# smt-switch, solver-independent core, in Dafny

smt-switch is a Python layer that puts one interface in front of three SMT
solvers (CVC4, Z3 and Boolector). This project models the part of it that
does not depend on any solver:

- **Sorts** (`sorts.dfy`): the sort classes BitVec, Int, Real, Bool, Array,
  FP and RoundingMode. Covers their `params`, their s-expression, equality
  (FP matches `None` as a wildcard) and hashing.
- **Operators** (`operators.dfy`): the `func_symbols` table and its numbering
  loop. Also the immutable `operator` class, whose call binds indices,
  applies, splits indices from operands, runs the permissive And/Or shortcut,
  or raises. This is the indexed-identifier scheme of SMT-LIB 2.6, section
  3.3. For example, `(_ extract i j)` yields i - j + 1 bits.
- **Legacy function classes** (`legacy_functions.dfy`): the
  class-per-operator interface of `functions.py`. Covers arities, `params`,
  `__eq__`, the output-sort rules `osort` and the permissive `__call__`.
- **Module-level facade** (`smt_module.dfy`): `set_solver` and its cache,
  `__gen_operator`, `_And`/`_Or`, literal coercion in `apply_fun`, Bool-only
  `Assert`, and the `fun2sort` table.
- **`smt` class** (`api.py`, in `api.dfy`): the instance check, refusal of
  another solver's terms, sort inference for literals, strict versus
  permissive mode, `Assert` with its constraint log, `DeclareFun`,
  `DefineFun` and `GetValue`.
- **Term logic** (`terms.dfy`):
  - the iterative post-order `substitute`, as a `while` loop over an explicit
    stack, a visited set and a rebuild map, proved against a recursive
    specification;
  - bit-vector slicing;
  - the operator each Python operator overload picks;
  - the Z3 and Boolector model-value conversions.
- **Boolector adapter** (`boolector.dfy`):
  - n-ary And/Or as left folds of the binary native ones;
  - shift amounts of width ceil(log2 w);
  - the arity guard of `apply_fun`;
  - the logic whitelist and the option filter;
  - the assertion list and the `sat` state, as a class.
- **`reversabledict`** (`reversable_dict.dfy`): two Python dicts held by
  reference, as classes. `rev` aliases them swapped.

Native solvers are not modelled. Their terms are an uninterpreted term
algebra (`Values.Native`, `Boolector.Node`). The process-wide `config.strict`
flag is an explicit `strict` parameter. Python exceptions are the `PyError`
kinds in `wrappers.dfy`, and every error path is modelled as a `Result` or
an `Option`.

Where the description of the system and the code disagree, the model follows
the code:

- `get_value` before any `check_sat` on Boolector raises AttributeError, not
  a "not solved" error. This is Finding C; the corrected class raises the
  prepared "Solver has not been run" error.
- Boolector `check_sat` returns a bool, with no "unknown" verdict.
- `reset` on Boolector does not forget the last verdict (Finding C).
- `api.smt.Assert` accepts a BitVec(1) term, but the module-level `Assert`
  and the Boolector adapter do not. A constraint of FP sort raises TypeError
  there, because FP sorts are unhashable.
- A slice step of 0 is accepted, because `idx.step and ...` is falsy. A
  missing slice bound reaches `None < 0`, which is a TypeError.

## Model

| member | source | states |
|---|---|---|
| Sorts.Construct | smt_switch/src/api.py:73-74 | A sort built from a class and arguments has that class and exactly those `params`; a wrong argument count is a TypeError |
| Sorts.ConstructFromParams | smt_switch/src/sorts.py:25-27 | Rebuilding any sort from its class and its `params` gives the same sort back (params are (width,), (idxsort, dsort), (expbits, sigbits) or ()) |
| Sorts.Eq | smt_switch/src/sorts.py:32-33 | Equal sorts always have the same class |
| Sorts.Ne | smt_switch/src/sorts.py:35-36 | `!=` is exactly the negation of `==`, including for FP (115-117) |
| Sorts.Hash | smt_switch/src/sorts.py:38-39 | Hashing fails exactly for FP sorts, which override `__eq__` without `__hash__` (109-117) |
| Sorts.SExprInjective | smt_switch/src/sorts.py:42-126 | Two sorts have the same s-expression if and only if they are the same sort |
| Sorts.EqIsStructural | smt_switch/src/sorts.py:32-33 | Away from FP, `==` holds exactly for identical sorts, so sorts of different classes are never equal |
| Sorts.BitVecEqIff | smt_switch/src/sorts.py:42-45 | BitVec(a) == BitVec(b) if and only if a == b |
| Sorts.ArrayComparesFPStrictly | smt_switch/src/sorts.py:71-73 | The FP wildcard does not reach into an Array's element sort: equal FP sorts inside arrays give unequal arrays |
| Sorts.EqualSortsHashEqually | smt_switch/src/sorts.py:32-39 | Equal non-FP sorts are hashable and hash equally |
| Sorts.EqReflexiveSymmetric | smt_switch/src/sorts.py:109-113 | Sort equality is reflexive and symmetric, FP wildcard included |
| Sorts.FPEqNotTransitive | smt_switch/src/sorts.py:109-113 | FP(8,24) == FP(None,24) == FP(11,24), yet FP(8,24) != FP(11,24) |
| Operators.TableWellFormed | smt_switch/src/functions.py:49-88 | 40 entries, each with min arity at most max arity; Extract is the only indexed entry (2 indices, 1 operand); only And and Or carry a custom |
| Operators.FuncD | smt_switch/src/functions.py:92-95 | The numbering has exactly the table's names as keys |
| Operators.BuildFuncD | smt_switch/src/functions.py:92-95 | The loop computes the numbering `FuncD` of the names |
| Operators.FuncDNumbersInOrder | smt_switch/src/functions.py:94-95 | With distinct names every name is numbered by its position |
| Operators.FuncEnumValues | smt_switch/src/functions.py:49-97 | The table names are distinct, and `func_enum` numbers entry i as i |
| Operators.BuiltinOp | smt_switch/src/api.py:59-61 | The attribute for table entry i is a builtin operator named after the entry, with no bound arguments and the entry's fdata |
| Operators.Init | smt_switch/src/functions.py:125-146 | An enum member gives a builtin; a 2-tuple gives a "uf" and a 3-tuple a "macro"; other tuple lengths fail the assertion; arguments, keywords and fdata are kept |
| Operators.Rebind | smt_switch/src/functions.py:190 | Re-binding keeps fdata and instance and sets the new arguments. A builtin keeps its name. A declared function loses its name, because only `_f_id` is passed on. An operator that was itself re-bound has no `_f_id`, so re-binding it raises AttributeError |
| Operators.RebindTwiceRaises | smt_switch/src/functions.py:125-145 | `g = f()` for a declared function `f` gives an operator without `_fname` or `_f_id`. Then `g()` raises AttributeError (reading `_f_id`, functions.py:188), and so does `g(x)` with too few operands (`__repr__` reads `_fname` while the ValueError message is built, functions.py:177-178, 225-226) |
| Operators.Eq | smt_switch/src/functions.py:148-150 | Operators are equal if and only if name, bound arguments and keywords are all equal; a nameless operator raises |
| Operators.Ne | smt_switch/src/functions.py:152-154 | `!=` is defined exactly when `==` is, and is its negation |
| Operators.EqualOperatorsHashEqually | smt_switch/src/functions.py:228-229 | Equal operators have equal hash keys (fname, args) |
| Operators.RunCustom | smt_switch/src/functions.py:16-41 | `_And`/`_Or`: no argument gives True/False, one argument gives that argument, two or more raise ValueError |
| Operators.Call | smt_switch/src/functions.py:179-226 | Binding happens only with exactly num_indices arguments. What is applied is fully indexed, has at least min arity operands and loses no argument (indices + operands = bound + given). Strict mode never applies more than max arity operands. The custom shortcut runs only for And/Or in permissive mode. Anything else raises ValueError or TypeError. AttributeError is raised only by an operator that was re-bound and so has no `_fname` or `_f_id` |
| Operators.CallKeepsWellBound | smt_switch/src/functions.py:183-213 | A call produces only operators with no bound arguments or with all their indices bound |
| Operators.IndicesThenOperands | smt_switch/src/functions.py:112-122 | Binding the indices first and the operands afterwards equals passing them all at once: Extract(7,0)(x) is Extract(7,0,x) |
| Operators.AndShortcut | smt_switch/src/functions.py:183-187 | Permissive And() is True and And(x) is x; strict And() gives an operator and strict And(x) raises ValueError |
| LegacyFunctions.Params | functions.py:25-31 | `params` is (ub, lb) for extract and () for every other class (292-294) |
| LegacyFunctions.FunEqIsIdentity | functions.py:57-61 | Two functions are equal if and only if they have the same class and params, which identifies them |
| LegacyFunctions.ExtractEquality | functions.py:57-61 | extract(7,0) != extract(6,0); extract(31,31) == extract(31,31); extract is never equal to another class |
| LegacyFunctions.SortsList | functions.py:164-179 | Terms contribute their sort; literals contribute what is known of theirs |
| LegacyFunctions.AttrSort | functions.py:71-77 | Reading `.sort` succeeds exactly on terms; a literal raises AttributeError |
| LegacyFunctions.OsortAsWritten | functions.py:64-372 | osort as written raises only ValueError, TypeError or AttributeError |
| LegacyFunctions.Osort | functions.py:64-372 | Equals, Not, And, Or and the comparisons give Bool. extract gives BitVec(ub-lb+1) with no ub >= lb check. No_op, Sub, Plus and the unary ops give the first argument's sort and need one (unary ops exactly one). Ite needs 3 arguments with known branch sorts and gives the second's sort without comparing. Binary bv ops give the first sort: TypeError with no argument, ValueError when a sort is unknown |
| LegacyFunctions.OsortAsWrittenOnlyMisreports | functions.py:164-209 | The code as written and the corrected rules differ only where the written code raises AttributeError instead of ValueError |
| LegacyFunctions.OsortMisreportWitnesses | functions.py:164-209 | Sub(), Plus(), Ite(c) and an Ite with an unknown third sort raise AttributeError as written, ValueError as intended |
| LegacyFunctions.MismatchedSortsAccepted | functions.py:164-179 | Ite(c, BitVec(8), Int) has sort BitVec(8); bvadd of BitVec(8) and BitVec(4) has sort BitVec(8) (310-315) |
| LegacyFunctions.LUnpack | functions.py:41-43 | A leading list is replaced by its items; otherwise the arguments are unchanged |
| LegacyFunctions.ArityOf | functions.py:65-363 | The class `arity` bounds: a finite maximum is at least the minimum; only And, Or and Plus are unbounded, each needing two operands; only No_op takes none |
| LegacyFunctions.FirstTerm | functions.py:45-46 | Finds the first term argument, or none when there is no term |
| LegacyFunctions.Call | functions.py:37-52 | Strict mode always raises ValueError. Otherwise the unpacked arguments go unchanged to the solver of the first term argument; with no term, ValueError. And/Or (113-155) apply with two or more arguments, return the single argument, or give True/False with none |
| LegacyFunctions.ListArgumentUnpacked | functions.py:41-43 | Calling with a list is the same as calling with its elements: And([a, b]) is And(a, b) |
| SmtModule.ModuleState.constructor | smt_switch/src/smt.py:14-17 | At import there is no current solver and every cache slot is empty |
| SmtModule.ModuleState.SetSolver | smt_switch/src/smt.py:30-36 | An unknown name raises KeyError and changes nothing. A filled slot is reused. An empty slot gets a fresh backend, which becomes current; if that backend's constructor raises, the error is passed on and neither global changes. The cache invariant is kept |
| SmtModule.NothingConstructs | smt_switch/src/smt.py:30-36 | With the constructors as written, `set_solver` on a fresh module never succeeds: "Z3" raises TypeError (Z3Solver.py:13 needs `strict`), "CVC4" and "Boolector" raise AttributeError (CVC4Solver.py:32, BoolectorSolver.py:26), and any other name raises KeyError |
| SmtModule.ModuleState.Assert | smt_switch/src/smt.py:254-269 | Exactly the leading acceptable constraints (Python bools and Bool terms) reach the solver, in order, with bools lowered to Bool constants. The first other one raises ValueError with the earlier ones kept. An empty list is an IndexError |
| SmtModule.AssertableIsBool | smt_switch/src/smt.py:262 | A constraint passes if and only if it is a Python bool or a term of sort exactly Bool; BitVec(1) does not pass |
| SmtModule.Accepted | smt_switch/src/smt.py:259-264 | Counts the leading constraints that pass: all before it pass, the one at it fails |
| SmtModule.Lowered | smt_switch/src/smt.py:266-267 | Each accepted constraint becomes its solver term or a Bool theory constant |
| SmtModule.SwitchBack | smt_switch/src/smt.py:30-36 | When the Z3 and CVC4 constructors succeed, switching to CVC4 and back to Z3 finds the same Z3 instance, with its constraints |
| SmtModule.ListUnpack | smt_switch/src/smt.py:50-51 | A leading list is replaced by its items; arguments without a leading list, including a leading tuple or string, are unchanged |
| SmtModule.GenOperatorAsWritten | smt_switch/src/smt.py:39-97 | Strict mode applies nothing with more than max arity arguments, indices included |
| SmtModule.GenOperator | smt_switch/src/smt.py:39-97 | Counting arguments after unpacking a leading list (a tuple stays one argument): 0 arguments or exactly num_indices give an operator holding them. With enough arguments the first num_indices are bound and the rest applied, losing nothing. Fewer arguments, or in strict mode more operands than max arity, raise ValueError. Strict mode never applies more than max arity operands |
| SmtModule.GenOperatorAsWrittenDiffers | smt_switch/src/smt.py:75-87 | The written and corrected versions agree without indices, in permissive mode, and on bound operators; where they differ, the written one raises and the corrected one applies |
| SmtModule.StrictExtractRefused | smt_switch/src/smt.py:80 | Strict Extract(7, 0, x) raises as written and applies Extract(7,0) to x when corrected |
| SmtModule.BoundOperatorAtMinimumRebinds | smt_switch/src/smt.py:64-73 | An operator holding its indices and called with exactly min arity operands is not applied: a new operator with the operands as arguments is returned |
| SmtModule.AndOr | smt_switch/src/smt.py:131-161 | Strict mode goes through arity (0, 2, maxsize). Permissive And([]) is True and Or([]) is False; after unpacking a leading list (not a tuple), one argument is returned unchanged, and two or more are applied |
| SmtModule.AndEdgeCases | smt_switch/src/smt.py:131-166 | And() is the operator itself, And([]) is True, Or([]) is False, And(x) is x, and strict And(x) raises ValueError |
| SmtModule.Exported | smt_switch/src/smt.py:100-125 | A table entry is exported as `__gen_operator` of the generated function with no argument |
| SmtModule.IndicesThenOperand | smt_switch/src/smt.py:75-87 | With the corrected strict check, Extract(i, j) is an operator, and Extract(i, j)(x) equals Extract(i, j, x), which applies. As written, strict Extract(i, j, x) raises ValueError |
| SmtModule.TupleIsOneArgument | smt_switch/src/smt.py:50-51 | Only a list is unpacked: permissive And((a, b)) and Or(()) return the tuple itself, and an operator with one index binds a whole tuple as that index |
| SmtModule.ApplyFunArgs | smt_switch/src/smt.py:229-251 | Terms pass their solver term. Other values become constants of the LAST argument's sort (permissive only). Strict mode succeeds exactly on all-term arguments; permissive mode exactly when all are terms or the last one is. No argument or an empty leading sequence is an IndexError; every other failure is an AttributeError |
| SmtModule.LiteralTakesLastSort | smt_switch/src/smt.py:235-245 | apply_fun(f, 1, x) coerces 1 to x's sort; apply_fun(f, x, 1) and strict literals fail with AttributeError; an empty list is an IndexError |
| SmtModule.Fun2Sort | smt_switch/src/smt.py:292-327 | Predicates and connectives give Bool; Extract gives BitVec(ub-lb+1); Concat gives BitVec(w1+w2); Zero_extend gives BitVec(w+pad); Ite gives the sort after the condition; a bool index counts as 0 or 1; unknown names raise KeyError |
| SmtModule.Fun2SortMissesTableNames | smt_switch/src/smt.py:292-327 | The table's ZeroExt, Select, Store and Distinct have no fun2sort entry |
| Api.CheckInstance | smt_switch/src/api.py:20-34 | Succeeds if and only if no (unpacked) argument belongs to another instance, and then returns the unpacked arguments; otherwise ValueError, and IndexError with no argument |
| Api.InferSort | smt_switch/src/api.py:40-42 | A sort is inferred exactly when the last argument is a bool, int or float; every failure is a RuntimeError (146-150) |
| Api.LastTerm | smt_switch/src/api.py:144 | Finds the last term argument, or none when there is no term |
| Api.CoercionSort | smt_switch/src/api.py:144-152 | The coercion sort is the last term's sort, or else the one inferred from the last argument |
| Api.ApplyFunBody | smt_switch/src/api.py:133-170 | No term of another solver gets through. There is one solver argument per argument: terms as they are, literals (permissive only) as constants of the coercion sort. Builtins go with their indices; "uf"/"macro" operators must have none. It succeeds exactly when no term is of another solver, a coercion sort exists, strict mode sees only terms, and the operator has a kind and either is a builtin or has no indices; the first failing check gives ValueError, RuntimeError, AttributeError or AssertionError in that order. No argument is an IndexError |
| Api.SolverArgs | smt_switch/src/api.py:154-162 | Strict mode succeeds only on all-term arguments (else AttributeError); each argument maps to its solver term or a theory constant |
| Api.ApplyFunAsWritten | smt_switch/src/api.py:131-170 | A foreign operator is refused with ValueError |
| Api.ApplyFun | smt_switch/src/api.py:131-170 | Nothing from another instance or another solver reaches the solver, inside a list or not. A foreign operator or argument is a ValueError and no argument an IndexError; past those checks the result, success or error, is the body's |
| Api.ApplyFunAgreesWithoutList | smt_switch/src/api.py:20-34 | Without a list argument, the decorated and the corrected versions agree |
| Api.ForeignTermInListAccepted | smt_switch/src/api.py:22-23 | A term of another instance inside a list gets through as written and is refused when corrected |
| Api.Invoke | smt_switch/src/functions.py:179-226 | A call on an operator raises whatever the operator's dispatch raises; it reaches the solver only without keyword arguments, through `ApplyFun` as decorated (functions.py:197, 213) |
| Api.InvokeForeignInListAccepted | smt_switch/src/functions.py:192-197 | `smt.Not([[x, y]])` with `x` a term of another instance of the same solver reaches the solver, because the decorated `ApplyFun` checks only the outer list (api.py:22-23) |
| Api.DeclareFun | smt_switch/src/api.py:110-120 | A non-sequence is an AssertionError. No input sorts declares a constant. A non-empty sequence of sorts always gives a "uf" operator named `name` over exactly those input sorts and the output sort, with fdata (0, n, n) |
| Api.DeclaredFunctionArity | smt_switch/src/api.py:117-120 | A declared function applies with exactly n operands; fewer raise ValueError, and so do more in strict mode |
| Api.DefineFun | smt_switch/src/api.py:214-222 | Succeeds exactly when the parameters and the body are terms, giving a "macro" operator of fdata (0, n, n) that carries the body |
| Api.GetValue | smt_switch/src/api.py:201-203 | The same term comes back with the solver's value recorded; a non-term raises AttributeError |
| Api.Verdict | smt_switch/src/api.py:178-182 | A constraint is accepted exactly when it is a bool or a term of sort Bool or BitVec(1); FP sorts raise TypeError |
| Api.Accepted | smt_switch/src/api.py:177-182 | Counts the leading accepted constraints |
| Api.AssertList | smt_switch/src/api.py:172-175 | No argument is an IndexError |
| Api.Smt.constructor | smt_switch/src/api.py:44-67 | A fresh solver, an empty log, and for every table entry an attribute holding its builtin operator bound to this instance |
| Api.Smt.Assert | smt_switch/src/api.py:172-192 | Each accepted constraint is forwarded and appended to `constraints` in order. The first rejected one raises, with the earlier ones kept in both places |
| Api.BitVecOneAccepted | smt_switch/src/api.py:180 | A BitVec(1) term passes here but not in the module-level `Assert` |
| Terms.Substitute | smt_switch/src/terms.py:36-55 | The loop returns the recursive substitution of the root: mapped leaves replaced, interior nodes rebuilt over rebuilt children. A root leaf not in symmap raises KeyError |
| Terms.SubEmpty | smt_switch/src/terms.py:36-55 | Substituting an empty map changes nothing |
| Terms.SubKeepsShape | smt_switch/src/terms.py:52-54 | An interior node keeps its operator and arity, and its children are substituted one by one |
| Terms.SubIdentityEntry | smt_switch/src/terms.py:50-51 | Mapping a leaf to itself is the same as not mapping it |
| Terms.ExtractBits | smt_switch/src/terms.py:225-250 | Only BitVec can be sliced. A step must be absent, 0 or 1. Bounds must satisfy 0 <= stop <= start < width, giving (start, stop); a position i in range gives (i, i). Everything else raises ValueError, or TypeError for a missing bound |
| Terms.ExtractChain | smt_switch/src/terms.py:242 | Extract(hi, lo) binds the indices, then ApplyFun sends the extraction of the term, or refuses a foreign term |
| Terms.GetItem | smt_switch/src/terms.py:225-250 | `term[idx]` raises what the checks raise, or sends Extract(hi, lo) of the term to the solver |
| Terms.SliceWidth | smt_switch/src/terms.py:233-240 | A valid slice covers between 1 bit and the whole width |
| Terms.StepIgnored | smt_switch/src/terms.py:230-231 | A step of 0 or 1 reads the same bits as none; any other step raises ValueError |
| Terms.PositionIsSlice | smt_switch/src/terms.py:244-248 | x[i] and x[i:i] extract the same bit |
| Terms.OverloadIdsNameTheirOperators | smt_switch/src/terms.py:78-223 | The table positions used by the overloads name the operators the source looks up |
| Terms.Lift | smt_switch/src/terms.py:187-188 | A term passes as it is; any other value becomes a constant of self's sort |
| Terms.Arithmetic | smt_switch/src/terms.py:78-143 | The request keeps self first, or other first for reflected operators, and Neg ends with self. FP always fails except `other - self`. Failures are AttributeError or NotImplementedError |
| Terms.Comparison | smt_switch/src/terms.py:145-183 | Operands of different sorts fail the assertion. FP fails on the lookup. Otherwise bit-vectors use a signed BV predicate and other sorts LT/LEQ/GT/GEQ |
| Terms.Bitwise | smt_switch/src/terms.py:186-219 | Always a BV operator, with a non-term operand made a constant of self's sort; reflected ones swap |
| Terms.Dispatch | smt_switch/src/terms.py:72-223 | Every request names a table operator; `~` works exactly on BitVec |
| Terms.BitVecOverloadsSigned | smt_switch/src/terms.py:145-183 | On BitVec every overload succeeds, picks a BV operator, and comparisons are signed |
| Terms.NonlinearRefused | smt_switch/src/terms.py:114-143 | On Int/Real/Bool exactly *, %, / and ~ fail, the arithmetic ones with NotImplementedError |
| Terms.NoFloatingPointOperator | smt_switch/src/functions.py:49-88 | No table operator is a floating-point one |
| Terms.ReflectedAddKeepsOrder | smt_switch/src/terms.py:86-87 | other + self builds the same request as self + other |
| Terms.ReflectedSubSwaps | smt_switch/src/terms.py:89-103 | Outside FP, other - self uses the same operator as self - other with the operands swapped |
| Terms.NotEqualNegatesEqual | smt_switch/src/terms.py:72-76 | self != other is Not of the term self == other builds |
| Terms.BoolectorAsInt | smt_switch/src/terms.py:500-501 | On plain digit strings, parsing succeeds exactly on a non-empty string of binary digits |
| Terms.Z3AsBitstr | smt_switch/src/terms.py:453-454 | Reading the decimal text of the value back loses nothing: the result is the value's binary digits, zero-filled to the width |
| Terms.BitstrRoundTrip | smt_switch/src/terms.py:453-454 | A value of BitVec(w) prints as exactly w binary digits, and reading them in base 2 (500-501) gives it back |
| Terms.BoolectorAsBoolAsWritten | smt_switch/src/terms.py:503-507 | Width other than 1 raises ValueError; otherwise the result is whether the string is non-empty |
| Terms.BoolectorAsBool | smt_switch/src/terms.py:503-507 | Width other than 1 raises ValueError; otherwise the one bit read as a number, true exactly when it is nonzero |
| Terms.AsBoolReadsTheBit | smt_switch/src/terms.py:507 | "0" reads false and "1" true when corrected; as written both read true |
| Boolector.Unpack | smt_switch/src/solvers/BoolectorSolver.py:111-112 | A leading list is replaced by its elements, one argument each |
| Boolector.Fold | smt_switch/src/solvers/BoolectorSolver.py:160-172 | No argument is an IndexError, an empty list the TypeError of `reduce`, and a single argument is returned without a native call |
| Boolector.ReduceIsLeftFold | smt_switch/src/solvers/BoolectorSolver.py:164 | `reduce` from an accumulator is the left fold of the accumulator and the rest |
| Boolector.FoldIsLeftFold | smt_switch/src/solvers/BoolectorSolver.py:160-172 | And(x0..xn) and And([x0..xn]) are both the left fold of the binary native And; the same holds for Or |
| Boolector.FoldThree | smt_switch/src/solvers/BoolectorSolver.py:160-165 | And(a, b, c) == And(And(a, b), c) |
| Boolector.CeilLog2 | smt_switch/src/solvers/BoolectorSolver.py:45 | w <= 2^k, and k is 0 or 2^(k-1) < w |
| Boolector.CeilLog2Least | smt_switch/src/solvers/BoolectorSolver.py:41-45 | No smaller width holds w values |
| Boolector.CeilLog2OfPow2 | smt_switch/src/solvers/BoolectorSolver.py:45 | ceil(log2(2^k)) == k |
| Boolector.WidthOf | smt_switch/src/solvers/BoolectorSolver.py:24-25 | A width exists exactly for a BitVec or Bool term, and Bool's is 1 |
| Boolector.ShiftAmount | smt_switch/src/solvers/BoolectorSolver.py:44-49 | A native constant passes its value as an integer. A literal or another node becomes a constant of width ceil(log2(bv.width)). A list is a TypeError |
| Boolector.ShiftAmountWidths | smt_switch/src/solvers/BoolectorSolver.py:41-45 | A shift of a 32-bit vector gets a 5-bit amount; one of a 33-bit vector gets a 6-bit amount |
| Boolector.SolverArgs | smt_switch/src/solvers/BoolectorSolver.py:114 | Each argument maps to its solver term, or stays as it is |
| Boolector.Call | smt_switch/src/solvers/BoolectorSolver.py:115 | A native function succeeds exactly on its arity of single operands, building that node over them; otherwise TypeError |
| Boolector.NativeCall | smt_switch/src/solvers/BoolectorSolver.py:26-59 | Classes without an entry in `_BoolectorFuns` raise KeyError |
| Boolector.ApplyFun | smt_switch/src/solvers/BoolectorSolver.py:106-117 | `(strict and n < min) or n > max` raises ValueError, before unpacking. No argument is an IndexError; unsupported classes raise KeyError. A result is the native call's expression with `osort`'s sort |
| Boolector.ArityGuard | smt_switch/src/solvers/BoolectorSolver.py:107 | Too many arguments are refused even in permissive mode; too few only in strict mode |
| Boolector.ApplyAndFolds | smt_switch/src/solvers/BoolectorSolver.py:27 | And over terms is the left fold of the native And, with sort Bool |
| Boolector.ApplyExtractSlices | smt_switch/src/solvers/BoolectorSolver.py:31 | extract(ub, lb)(x) is Slice(x, ub, lb) of sort BitVec(ub-lb+1) |
| Boolector.ApplyShiftByConstant | smt_switch/src/solvers/BoolectorSolver.py:44-45 | A shift by a native constant passes its value |
| Boolector.ApplyShiftBySymbol | smt_switch/src/solvers/BoolectorSolver.py:48-49 | A shift of an 8-bit vector by a symbol passes a 3-bit constant |
| Boolector.NativeWidth | smt_switch/src/solvers/BoolectorSolver.py:24-25 | Only BitVec and Bool have native sorts; Bool is BitVecSort(1); other sorts raise KeyError |
| Boolector.DeclareConst | smt_switch/src/solvers/BoolectorSolver.py:95-99 | A native variable of the sort's width, wrapped with the sort; only BitVec and Bool succeed |
| Boolector.TheoryConst | smt_switch/src/solvers/BoolectorSolver.py:101-104 | A native constant of the sort's width, wrapped with the sort; only BitVec and Bool succeed |
| Boolector.BoolIsOneBit | smt_switch/src/solvers/BoolectorSolver.py:63-64 | Bool and BitVec(1) give the same native variable and constant |
| Boolector.SetLogic | smt_switch/src/solvers/BoolectorSolver.py:82-86 | Accepted if and only if the logic is QF_BV or QF_ABV; otherwise ValueError |
| Boolector.Admit | smt_switch/src/solvers/BoolectorSolver.py:122-124 | A constraint is admitted exactly when it is a Bool term; a literal raises AttributeError and other sorts ValueError |
| Boolector.Accepted | smt_switch/src/solvers/BoolectorSolver.py:121-124 | Counts the leading admitted constraints |
| Boolector.Constraints | smt_switch/src/solvers/BoolectorSolver.py:120-136 | A list gives its elements, anything else the single constraint |
| Boolector.Solver.constructor | smt_switch/src/solvers/BoolectorSolver.py:12-70 | No assertions, no options set, and `sat` None (corrected) |
| Boolector.Solver.AsWritten | smt_switch/src/solvers/BoolectorSolver.py:12-70 | If the constructor got past its dictionary of operators: no assertions and no options set, and `sat` is never set |
| Boolector.Solver.Reset | smt_switch/src/solvers/BoolectorSolver.py:72-73 | Everything back to the initial state, `sat` included (corrected) |
| Boolector.Solver.ResetAsWritten | smt_switch/src/solvers/BoolectorSolver.py:72-73 | Assertions and options cleared; the last verdict stays |
| Boolector.Solver.CheckSat | smt_switch/src/solvers/BoolectorSolver.py:75-80 | The verdict is recorded and returned; nothing else changes |
| Boolector.Solver.SetOption | smt_switch/src/solvers/BoolectorSolver.py:88-90 | Only produce-models reaches the native instance, with bool(value); anything else is ignored |
| Boolector.Solver.Assert | smt_switch/src/solvers/BoolectorSolver.py:119-139 | The admitted leading constraints are appended to the assertion list in order, and the first other one raises its error; nothing else changes |
| Boolector.Solver.GetValue | smt_switch/src/solvers/BoolectorSolver.py:149-155 | A value exists exactly after a satisfiable check, for BitVec and Bool terms alike. Unsat and not-run raise their RuntimeErrors; an unset `sat` raises AttributeError |
| Boolector.Solver.GetModel | smt_switch/src/solvers/BoolectorSolver.py:141-147 | Succeeds exactly after a satisfiable check; otherwise the same errors as GetValue |
| Boolector.ValueBeforeCheckSat | smt_switch/src/solvers/BoolectorSolver.py:149-155 | Before any check, the code as written raises AttributeError; the corrected class gives "Solver has not been run" |
| Boolector.ValueAfterReset | smt_switch/src/solvers/BoolectorSolver.py:72-80 | After check, reset and get_value, the code as written returns a value about discarded assertions; the corrected class raises |
| ReversableDict.Mapped | smt_switch/util/reversabledict.py:16-17 | The keys after storing the pairs in order are exactly the keys among the pairs |
| ReversableDict.MappedLastWins | smt_switch/util/reversabledict.py:23 | A key holds the value of its last pair |
| ReversableDict.StaleReverseEntry | smt_switch/util/reversabledict.py:22-24 | Overwriting k from v1 to v2 leaves only k: v2 forward, but both v1: k and v2: k backward |
| ReversableDict.OrderedKeys | smt_switch/util/reversabledict.py:39-40 | The iteration order lists each stored key exactly once |
| ReversableDict.Dict.Put | smt_switch/util/reversabledict.py:23 | `d[k] = v` updates the map; a new key goes to the end of the order |
| ReversableDict.Dict.Remove | smt_switch/util/reversabledict.py:27 | `del d[k]` removes the key from map and order, keeping them consistent |
| ReversableDict.ReversableDict.constructor | smt_switch/util/reversabledict.py:12-17 | Two fresh dicts hold the pairs stored in order, forward and swapped |
| ReversableDict.ReversableDict.Get | smt_switch/util/reversabledict.py:19-20 | Gives the forward value; a missing key raises KeyError |
| ReversableDict.ReversableDict.SetItem | smt_switch/util/reversabledict.py:22-24 | Afterwards d[key] == value and the reverse maps value to key; nothing is removed from either map |
| ReversableDict.ReversableDict.DelItem | smt_switch/util/reversabledict.py:26-27 | Only the forward entry goes; the reverse map is untouched; a missing key raises KeyError and changes nothing |
| ReversableDict.ReversableDict.Rev | smt_switch/util/reversabledict.py:29-34 | A fresh object over the same two dicts, swapped |
| ReversableDict.ReversableDict.Len | smt_switch/util/reversabledict.py:36-37 | The number of forward keys |
| ReversableDict.ReversableDict.Iter | smt_switch/util/reversabledict.py:39-40 | Each forward key exactly once |
| ReversableDict.RevTwice | smt_switch/util/reversabledict.py:29-34 | d.rev.rev uses the original dicts in their original roles |
| ReversableDict.WriteThroughRev | smt_switch/util/reversabledict.py:29-34 | Writing v: k through d.rev is seen in d as k: v |
| ReversableDict.DeleteLeavesReverse | smt_switch/util/reversabledict.py:26-27 | After d[k] = v and del d[k], d[k] raises KeyError while d.rev[v] is still k |
| Values.Unpack | smt_switch/src/functions.py:180-181 | A leading sequence (list, tuple or str) is replaced by its elements |

## Left out

- The native CVC4, Z3 and Boolector libraries (smt_switch/src/solvers/Z3Solver.py, CVC4Solver.py and the top-level solvers.py) are not modelled. Their terms are uninterpreted constructors, and `Sat()` is a parameter of `CheckSat`.
- results.py, `as_double`, `as_fraction` and `as_list`, and CVC4 `create_real`: these use floating point and walk native expression trees.
- `CVC4Term`/`Z3Term` `sort`, `op` and `children`: these query native objects. A term's sort is a field of its handle.
- Floating-point operators and rounding modes: the FP branches of the overloads are modelled as the AttributeError they raise, because no `FPAdd` or `Round` exists in the table.
- Lookups through `eval` (the top-level sorts.py `construct_sort`, functions.py `declare_fun`, Boolector `set_nonstandard_option`) are not modelled.
- smtutils.py is not part of this model. `sorts_list` is abstracted as the `known` sort of a literal.
- utils.py, solvers/__init__.py (`SOLVERS`, `from_string`, `available`) and solverbase.py are not modelled. The `smt` constructor takes the solver kind directly and does not register the sort classes as attributes.
- The top-level terms.py and term.py are not part of this model.
- `ToSmt2`, `Push`, `Pop`, `Symbol`, `check_solver`, demos and setup.py are not modelled: they are I/O, incremental solving, or one-line forwarders.
- The module-level one-line forwarders (`add`, `reset`, `check_sat`, `set_logic`, `set_option`, `declare_const`, `theory_const`, `assertions`, `get_model`, `get_value`) are not modelled. `set_option` calls the solver's `set_logic` with two arguments.
- `__term_map` wrapping in smt.py is not modelled. `apply_fun` is modelled up to the solver arguments it computes.
- Exception messages are not modelled, except the two Boolector RuntimeError texts.
- Terms.Substitute: rebuilding an interior node through `ApplyFun(f.op, ...)` is modelled as rebuilding the same operator over the new children. Dictionary keys are tree identity, which stands for the printed term. The `in` tests on `visited`, `symmap` and `rebuild` (terms.py:43, 50, 54) hash the printed term (terms.py:57-58). When two keys hash the same they call `TermBase.__eq__` (terms.py:72-73). That returns a term, and a term is always truthy, so keys with the same printed form are one key.
- Api.GetValue: the write to `var._value` is modelled as returning the term with its value set. Terms are values here, so no other reference to the same term object sees the write.
- Operators: the `keywords` property (functions.py:172-174 reads a missing `_p`) is not modelled. Equality uses `_keywords` directly, as the source does.
- Sorts.Hash: the hash is represented by the s-expression string itself. Equal strings give equal hashes, and the integer hash function is not modelled.
- Boolector adapter: it is written against the class-per-operator functions.py. `functions.Equals` and the other classes it names do not exist in smt_switch/src/functions.py, and it calls the `BoolectorTerm` constructor with five arguments where terms.py:479 takes two. The model returns what the adapter builds, namely the native expression and the `osort` sort.
- Boolector adapter: the `_BoolectorFuns` dictionary names `functions.Equals` (BoolectorSolver.py:26), which smt_switch/src/functions.py does not define. It also names `functions.concat` (line 32), which the top-level functions.py does not define either. So building it raises AttributeError, and as written `BoolectorSolver()` and `reset()` never finish. The model describes the adapter as if that dictionary held only the classes that exist. The entries for missing classes (`concat`, `bvxor`, `bvsub`, `bvashr`, `bvult` through `bvsge`) are not modelled.
- Boolector.Solver.AsWritten: its contract describes the state the constructor would leave if building `_BoolectorFuns` succeeded. As written that step raises AttributeError first, so the two Boolector findings below are latent until the dictionary is repaired.
- SetSolver (SmtModule.ModuleState.SetSolver): the backend constructors are not modelled beyond whether they raise. `ConstructorErrors` records what each raises as written, and `NothingConstructs` shows that, as written, no name can be chosen.
- SwitchBack (SmtModule.SwitchBack): it holds only when the Z3 and CVC4 constructors succeed. As written, the first `set_solver("Z3")` raises TypeError.
- SmtModule.ModuleState.Assert: `getattr(constraint, 'solver_term', _solver.theory_const(sorts.Bool(), constraint))` (smt.py:266-267) evaluates the default eagerly. With no solver this is the AttributeError the contract states. With a solver, `theory_const` is called for terms as well; the Boolector backend then passes the term itself as the constant's value (BoolectorSolver.py:102). That call and any error it raises are not modelled: an accepted term is forwarded as its own solver term. `Assert()` with no argument is a TypeError, not modelled. A single non-sequence constraint `Assert(t)` cannot be expressed: the parameter is the sequence of constraints, while the source indexes `t[0]` itself (terms.py:225-227 for a term).
- SmtModule.Fun2Sort: `sorts.get_sort` is not defined in sorts.py. As written, building the module-level `fun2sort` dictionary raises AttributeError, so smt.py does not load (and `from .smtutils import operator` fails before that). The model reads `get_sort` as the sort of the first argument. A float or a term used as the index of Extract or Zero_extend gives TypeError in the model; Python would compute a width from it.
- ReversableDict.ReversableDict.SetItem: Python raises TypeError for an unhashable value after the forward entry is already written (reversabledict.py:23-24). Keys and values here are always hashable, so that partial write is not modelled.
- Boolector.CeilLog2: `ceil(log2(w))` is computed exactly. Floating-point rounding of `log2` for widths near 2^53 is not modelled.
- Boolector: a Recast node stands for the native `Const` applied to a node rather than a value. Native widths come from the wrapped sort, so only BitVec and Bool terms have one.
- Boolector: lists nested inside a list argument cannot be represented. The text `Print_model` prints is not modelled.
- Boolector.NativeCall: its own contract states only the KeyError of classes without an entry. The expressions per class are stated by ApplyAndFolds, ApplyExtractSlices, ApplyShiftByConstant, ApplyShiftBySymbol and ArityGuard.
- SmtModule.IndicesThenOperand: its equation holds for the corrected GenOperator. As written, strict mode raises ValueError at smt.py:80 for `Extract(i, j, x)`, which the lemma also states.
- Api.DeclareFun: the TypeError for an element that is not a sort stands for whatever the native `DeclareFun` does with it (api.py:117 passes the sequence as it is); that reaction is not modelled.
- Terms.BoolectorAsInt: Python's `int(s, 2)` also accepts surrounding whitespace, a sign, a `0b` prefix and underscores. These are not modelled and raise ValueError here; Boolector assignments are plain binary digit strings.
- Api.ApplyFunAsWritten: its contract states only that a foreign operator is refused. Its relation to the corrected version is ApplyFunAgreesWithoutList and ForeignTermInListAccepted.
- SmtModule.GenOperatorAsWritten: its contract states only the strict bound on all arguments. Its relation to GenOperator is GenOperatorAsWrittenDiffers.
- LegacyFunctions.OsortAsWritten: its contract states only the error kinds. Its relation to Osort is OsortAsWrittenOnlyMisreports.
- Api.AssertList: its contract states only the IndexError of no argument. What follows is stated by Api.Smt.Assert.
- `sys.maxsize` is taken as 2^63 - 1 (a 64-bit build). `collections.Sequence` counts str as a sequence, as Python does.

## Findings

| source | as written | input that shows it | evidently intended | confidence | as-written member | corrected member |
|---|---|---|---|---|---|---|
| smt_switch/src/smt.py:80 | In strict mode the arity check compares all arguments, indices included, with the maximum number of operands | Strict `Extract(7, 0, x)`: 3 arguments, max arity 1, so it raises ValueError (SmtModule.StrictExtractRefused) | Compare `len(args) - num_indices` with `max_arity`, as smt_switch/src/functions.py:200 does | high, not executed | SmtModule.GenOperatorAsWritten | SmtModule.GenOperator |
| functions.py:166 | Ite, Sub and Plus build their error message from `self.__class__name`, which does not exist (also 191 and 206); Ite's consistency message reads `args[2].sort` of a value that may have no sort (line 173) | `Sub().osort()`, `Plus().osort()`, `Ite().osort(c)`, and `Ite().osort(c, t, lit)` with a literal of unknown sort: AttributeError (LegacyFunctions.OsortMisreportWitnesses) | ValueError with the class name | high, not executed | LegacyFunctions.OsortAsWritten | LegacyFunctions.Osort |
| smt_switch/src/solvers/BoolectorSolver.py:12-70 | `__init__` never sets `sat`, which `get_value`/`get_model` read | `get_value(x)` before `check_sat`: AttributeError (Boolector.ValueBeforeCheckSat) | `sat` starts as None, so "Solver has not been run" is raised | medium, not executed; latent, since the constructor raises AttributeError at line 26 before this matters | Boolector.Solver.AsWritten | Boolector.Solver.constructor |
| smt_switch/src/solvers/BoolectorSolver.py:72-73 | `reset` re-runs `__init__`, which leaves the old `sat` in place | `check_sat()` (sat), `reset()`, then `get_value(x)` returns a value (Boolector.ValueAfterReset) | The verdict is forgotten with the assertions | medium, not executed; latent, since re-running `__init__` raises AttributeError at line 26 | Boolector.Solver.ResetAsWritten | Boolector.Solver.Reset |
| smt_switch/src/api.py:22-23 | `check_instance` on `ApplyFun` sees the operator first, so a list of operands is never unpacked and checked | `smt.ApplyFun(op, [x, y])` with `x` from another instance of the same solver is accepted (Api.ForeignTermInListAccepted) | Check every operand after unpacking the list | medium, not executed | Api.ApplyFunAsWritten | Api.ApplyFun |
| smt_switch/src/terms.py:507 | `bool(self._value.assignment)` tests whether the string is non-empty | A one-bit assignment "0" reads True (Terms.AsBoolReadsTheBit) | Read the bit: `int(assignment, 2) != 0` | high, not executed | Terms.BoolectorAsBoolAsWritten | Terms.BoolectorAsBool |
