/** expr_extract_eq and the pairwise joins expr_join_or and expr_join_and. */
module ExprJoining {
  import opened Options
  import opened Tristate
  import opened Symbols
  import opened Expressions
  import opened ExprEquality
  import opened ExprTransformation

  // ----- expr_extract_eq -----

  datatype Extraction = Extraction(common: Option<Expr>, rest1: Expr, rest2: Expr)

  /** expr_extract_eq: move operands that occur in both `op` chains to `common`. */
  function ExtractEq(op: Op, common: Option<Expr>, a: Expr, b: Expr): (r: Extraction)
    ensures Size(r.rest1) <= Size(a) && Size(r.rest2) <= Size(b)
    decreases Size(a) + Size(b)
  {
    if IsOp(op, a) then
      var x := ExtractEq(op, common, a.left, b);
      var y := ExtractEq(op, x.common, a.right, x.rest2);
      Extraction(y.common, Bin(op, x.rest1, y.rest1), y.rest2)
    else if IsOp(op, b) then
      var x := ExtractEq(op, common, a, b.left);
      var y := ExtractEq(op, x.common, x.rest1, b.right);
      Extraction(y.common, y.rest1, Bin(op, x.rest2, y.rest2))
    else if ExprEq(a, b) then
      Extraction(Some(if common.Some? then Bin(op, common.value, a) else a), UnitExpr(op), UnitExpr(op))
    else
      Extraction(common, a, b)
  }

  /** expr_extract_eq_and and expr_extract_eq_or. */
  function ExtractEqTop(op: Op, a: Expr, b: Expr): Extraction {
    var x := ExtractEq(op, None, a, b);
    if x.common.Some? then Extraction(x.common, EliminateYn(x.rest1), EliminateYn(x.rest2)) else x
  }

  /** The value of the operands extracted so far; nothing extracted is neutral. */
  function CommonValue(op: Op, common: Option<Expr>, env: Env): Tri {
    if common.Some? then Eval(common.value, env) else Unit(op)
  }

  /** What is extracted on top of `common` has the value `c`, and both sides lose just that. */
  lemma {:induction false} ExtractEqExact(op: Op, common: Option<Expr>, a: Expr, b: Expr, env: Env)
    returns (x: Extraction, c: Tri)
    ensures x == ExtractEq(op, common, a, b)
    ensures Eval(a, env) == Combine(op, Eval(x.rest1, env), c)
    ensures Eval(b, env) == Combine(op, Eval(x.rest2, env), c)
    ensures CommonValue(op, x.common, env) == Combine(op, CommonValue(op, common, env), c)
    decreases Size(a) + Size(b), 1
  {
    if IsOp(op, a) || IsOp(op, b) {
      x, c := ExtractEqExactInside(op, common, a, b, env);
    } else if ExprEq(a, b) {
      ExprEqSound(a, b, env);
      x, c := ExtractEq(op, common, a, b), Eval(a, env);
    } else {
      x, c := Extraction(common, a, b), Unit(op);
    }
  }

  lemma {:induction false} ExtractEqExactInside(op: Op, common: Option<Expr>, a: Expr, b: Expr, env: Env)
    returns (z: Extraction, c: Tri)
    requires IsOp(op, a) || IsOp(op, b)
    ensures z == ExtractEq(op, common, a, b)
    ensures Eval(a, env) == Combine(op, Eval(z.rest1, env), c)
    ensures Eval(b, env) == Combine(op, Eval(z.rest2, env), c)
    ensures CommonValue(op, z.common, env) == Combine(op, CommonValue(op, common, env), c)
    decreases Size(a) + Size(b), 0
  {
    if IsOp(op, a) {
      var x, c1 := ExtractEqExact(op, common, a.left, b, env);
      var y, c2 := ExtractEqExact(op, x.common, a.right, x.rest2, env);
      z, c := Extraction(y.common, Bin(op, x.rest1, y.rest1), y.rest2), Combine(op, c1, c2);
      CommonPartTwice(op, Eval(x.rest1, env), Eval(y.rest1, env), Eval(y.rest2, env), c1, c2);
    } else {
      var x, c1 := ExtractEqExact(op, common, a, b.left, env);
      var y, c2 := ExtractEqExact(op, x.common, x.rest1, b.right, env);
      z, c := Extraction(y.common, y.rest1, Bin(op, x.rest2, y.rest2)), Combine(op, c1, c2);
      CommonPartTwice(op, Eval(x.rest2, env), Eval(y.rest2, env), Eval(y.rest1, env), c1, c2);
    }
  }

  /** Each side equals its remainder combined with the extracted common operands. */
  lemma ExtractEqTopExact(op: Op, a: Expr, b: Expr, env: Env)
    ensures var x := ExtractEqTop(op, a, b);
            Eval(a, env) == Combine(op, Eval(x.rest1, env), CommonValue(op, x.common, env)) &&
            Eval(b, env) == Combine(op, Eval(x.rest2, env), CommonValue(op, x.common, env))
  {
    var x, _ := ExtractEqExact(op, None, a, b, env);
    EliminateYnExact(x.rest1, env);
    EliminateYnExact(x.rest2, env);
  }

  // ----- expr_join_or and expr_join_and -----

  /** The symbol the first operand of a join speaks about. */
  function Subject1(e: Expr): Option<Symbol> {
    match e
    case Sym(s) => Some(s)
    case Cmp(_, l, _) => Some(l)
    case Not(Sym(s)) => Some(s)
    case Not(Cmp(_, l, _)) => Some(l)
    case Not(_) => None
    case Bin(_, _, _) => None
  }

  /** The symbol the second operand speaks about; under NOT only a plain symbol is accepted. */
  function Subject2(e: Expr): Option<Symbol> {
    if e.Not? && !e.e.Sym? then None else Subject1(e)
  }

  predicate IsCmp(rel: Rel, e: Expr) {
    e.Cmp? && e.rel == rel
  }

  predicate IsCmpWith(rel: Rel, e: Expr, r: Symbol) {
    IsCmp(rel, e) && e.rhs == r
  }

  /** Two comparisons of kind `rel`, one with `r1` and the other with `r2`. */
  predicate AreCmpsWith(rel: Rel, a: Expr, b: Expr, r1: Symbol, r2: Symbol) {
    (IsCmpWith(rel, a, r1) && IsCmpWith(rel, b, r2)) || (IsCmpWith(rel, a, r2) && IsCmpWith(rel, b, r1))
  }

  predicate SymAndCmp(a: Expr, rel: Rel, b: Expr, r: Symbol) {
    a.Sym? && IsCmpWith(rel, b, r)
  }

  predicate IsNotSym(e: Expr) {
    e.Not? && e.e.Sym?
  }

  function JoinOrSubject(s: Symbol, a: Expr, b: Expr): Option<Expr> {
    if TypeOf(s) == ThreeState then
      if AreCmpsWith(Equal, a, b, ConstYes, ConstMod) then Some(Cmp(Unequal, s, ConstNo))
      else if AreCmpsWith(Equal, a, b, ConstYes, ConstNo) then Some(Cmp(Unequal, s, ConstMod))
      else if AreCmpsWith(Equal, a, b, ConstMod, ConstNo) then Some(Cmp(Unequal, s, ConstYes))
      else None
    else if TypeOf(s) == Boolean && ((IsNotSym(a) && b.Sym?) || (IsNotSym(b) && a.Sym?)) then Some(Sym(ConstYes))
    else None
  }

  function JoinAndSubject(s: Symbol, a: Expr, b: Expr): Option<Expr> {
    if TypeOf(s) != Boolean && TypeOf(s) != ThreeState then None
    else if SymAndCmp(a, Equal, b, ConstYes) || SymAndCmp(b, Equal, a, ConstYes) then Some(Cmp(Equal, s, ConstYes))
    else if SymAndCmp(a, Unequal, b, ConstNo) || SymAndCmp(b, Unequal, a, ConstNo) then Some(Sym(s))
    else if TypeOf(s) != ThreeState then None
    else if IsCmp(Equal, a) && IsCmp(Unequal, b) && IsConst(a.rhs) && IsConst(b.rhs) then
      Some(if a.rhs != b.rhs then Cmp(Equal, s, a.rhs) else Sym(ConstNo))
    else if IsCmp(Unequal, a) && IsCmp(Equal, b) && IsConst(a.rhs) && IsConst(b.rhs) then
      Some(if b.rhs != a.rhs then Cmp(Equal, s, b.rhs) else Sym(ConstNo))
    else if AreCmpsWith(Unequal, a, b, ConstYes, ConstNo) then Some(Cmp(Equal, s, ConstMod))
    else if AreCmpsWith(Unequal, a, b, ConstYes, ConstMod) then Some(Cmp(Equal, s, ConstNo))
    else if AreCmpsWith(Unequal, a, b, ConstMod, ConstNo) then Some(Cmp(Equal, s, ConstYes))
    else None
  }

  /** expr_join_or and expr_join_and: one expression for `a op b`, if a rule applies. */
  function Join(op: Op, a: Expr, b: Expr): Option<Expr> {
    if ExprEq(a, b) then Some(a)
    else
      var s1, s2 := Subject1(a), Subject2(b);
      if s1.None? || s2.None? || s1.value != s2.value then None
      else if op == Or then JoinOrSubject(s1.value, a, b)
      else JoinAndSubject(s1.value, a, b)
  }

  /** Distinct constants have distinct text, because sym_lookup interns them. */
  lemma ConstTextsDistinct(c: Symbol, d: Symbol, env: Env)
    requires IsConst(c) && IsConst(d)
    ensures TextOf(c, env) == TextOf(d, env) <==> c == d
  {
    LetterInjective(YES, MOD);
    LetterInjective(YES, NO);
    LetterInjective(MOD, NO);
  }

  lemma JoinOrSubjectExact(s: Symbol, a: Expr, b: Expr, env: Env)
    requires BooleansDefinite(env)
    requires Subject1(a) == Some(s) == Subject2(b)
    requires JoinOrSubject(s, a, b).Some?
    ensures Eval(JoinOrSubject(s, a, b).value, env) == Combine(Or, Eval(a, env), Eval(b, env))
  {
    CmpTestsValue(s, env);
  }

  lemma JoinAndSubjectExact(s: Symbol, a: Expr, b: Expr, env: Env)
    requires Subject1(a) == Some(s) == Subject2(b)
    requires JoinAndSubject(s, a, b).Some?
    ensures Eval(JoinAndSubject(s, a, b).value, env) == Combine(And, Eval(a, env), Eval(b, env))
  {
    if a.Cmp? && b.Cmp? {
      JoinAndCmpsExact(s, a, b, env);
    } else {
      JoinAndSymbolExact(s, a, b, env);
    }
  }

  lemma JoinAndSymbolExact(s: Symbol, a: Expr, b: Expr, env: Env)
    requires Subject1(a) == Some(s) == Subject2(b) && !(a.Cmp? && b.Cmp?)
    requires JoinAndSubject(s, a, b).Some?
    ensures Eval(JoinAndSubject(s, a, b).value, env) == Combine(And, Eval(a, env), Eval(b, env))
  {
    var (sym, cmp) := if a.Sym? then (a, b) else (b, a);
    assert sym == Sym(s) && (cmp == Cmp(Equal, s, ConstYes) || cmp == Cmp(Unequal, s, ConstNo));
    assert JoinAndSubject(s, a, b).value == if cmp.rel == Equal then cmp else sym;
    hide JoinAndSubject, Subject1, Subject2;
    SymbolAndCmp(s, env);
  }

  lemma SymbolAndCmp(s: Symbol, env: Env)
    requires TypeOf(s) == Boolean || TypeOf(s) == ThreeState
    ensures Eval(Cmp(Equal, s, ConstYes), env) == Combine(And, Eval(Sym(s), env), Eval(Cmp(Equal, s, ConstYes), env))
    ensures Eval(Sym(s), env) == Combine(And, Eval(Sym(s), env), Eval(Cmp(Unequal, s, ConstNo), env))
  {
    CmpTestsValue(s, env);
  }

  lemma JoinAndCmpsExact(s: Symbol, a: Expr, b: Expr, env: Env)
    requires a.Cmp? && b.Cmp? && a.lhs == s == b.lhs
    requires JoinAndSubject(s, a, b).Some?
    ensures Eval(JoinAndSubject(s, a, b).value, env) == Combine(And, Eval(a, env), Eval(b, env))
  {
    if a.rel == b.rel {
      CmpTestsValue(s, env);
    } else {
      ConstTextsDistinct(a.rhs, b.rhs, env);
    }
  }

  /** Every join rule keeps the value, where booleans are never m. */
  lemma JoinExact(op: Op, a: Expr, b: Expr, env: Env)
    requires BooleansDefinite(env)
    requires Join(op, a, b).Some?
    ensures Eval(Join(op, a, b).value, env) == Combine(op, Eval(a, env), Eval(b, env))
  {
    if ExprEq(a, b) {
      ExprEqSound(a, b, env);
    } else if op == Or {
      JoinOrSubjectExact(Subject1(a).value, a, b, env);
    } else {
      JoinAndSubjectExact(Subject1(a).value, a, b, env);
    }
  }

  /** A join is no larger than its first operand, opens no new chain and keeps normal forms. */
  lemma JoinShape(op: Op, a: Expr, b: Expr)
    requires Join(op, a, b).Some?
    ensures var j := Join(op, a, b).value;
            Size(j) <= Size(a) &&
            (!IsOp(op, a) ==> !IsOp(op, j)) &&
            (IsNnf(a) && IsNnf(b) ==> IsNnf(j))
  {
  }
}
