/** The conditions menu_finalize makes and tests: their form, their value, and what the test comes to. */
module MenuConditions {
  import opened Options
  import opened Tristate
  import opened Symbols
  import opened Expressions
  import opened ExprEquality
  import opened ExprTransformation
  import opened ExprDuplicates
  import opened ExprComparison
  import opened ExprComplete
  import opened MenuDeps

  // ----- The test -----

  /** One part of the condition says that `s` is not n. */
  ghost predicate NeedsSymbol(e: Expr, s: Symbol) {
    exists z :: IsPart(And, e, z) &&
      (z == Sym(s) || z == Cmp(Equal, s, ConstYes) || z == Cmp(Equal, s, ConstMod) || z == Cmp(Unequal, s, ConstNo))
  }

  lemma {:induction false} NeedsSymbolIff(e: Expr, s: Symbol)
    ensures NeedsSymbol(e, s) <==> DependsSymbol(e, s)
  {
    match e
    case Sym(_) => assert IsPart(And, e, e);
    case Cmp(_, _, _) => assert IsPart(And, e, e);
    case Not(_) =>
    case Bin(op, l, r) =>
      if op == And {
        NeedsSymbolIff(l, s);
        NeedsSymbolIff(r, s);
        assert forall z :: IsPart(And, e, z) <==> IsPart(And, l, z) || IsPart(And, r, z);
      }
  }

  /** The parts of the condition `base` are among those of `dep`, as far as both are chains of atoms. */
  ghost predicate Covered(dep: Option<Expr>, base: Option<Expr>) {
    var (d, b) := (NotNo(dep), NotNo(base));
    if SameNodeType(d, b) then
      IsOp(And, d) && IsOp(And, b) && IsAtomChain(And, d) && IsAtomChain(And, b) && Operands(And, b) <= Operands(And, d)
    else b == Sym(ConstYes)
  }

  /** The condition `dep` needs the symbol `s`, or mentions it and has all that `s` is prompted for under. */
  ghost predicate GoesBelow(dep: Option<Expr>, s: Symbol, base: Option<Expr>) {
    dep.Some? && (NeedsSymbol(dep.value, s) || (s in SymbolsOf(dep.value) && Covered(dep, base)))
  }

  /** After striking out, the AND chain `b` is y precisely when it had no operand that `a` has not. */
  lemma StrikesAll(op: Op, a: Expr, b: Expr)
    requires IsOp(op, a) && IsOp(op, b) && IsAtomChain(op, a) && IsAtomChain(op, b)
    ensures EliminateYn(EliminateEq(op, a, b).1) == UnitExpr(op) <==> Operands(op, b) <= Operands(op, a)
    ensures EliminateYn(EliminateEq(op, a, b).1) != ZeroExpr(op)
  {
    AtomChainHasOperands(op, a);
    AtomChainHasOperands(op, b);
    var a1, b1 := EliminateEqStrikes(op, a, b, a);
    EliminateYnOnStruckChain(op, b1);
    forall x ensures Operands(op, b1)[x] == 0 <==> Operands(op, b)[x] <= Operands(op, a)[x] {
      var _, _ := EliminateEqStrikes(op, a, b, x);
      CountsOperands(op, a, x);
      CountsOperands(op, b, x);
      CountsOperands(op, b1, x);
    }
    hide Operands, EliminateEq, EliminateYn, IsStruckChain, IsAtomChain;
    if Operands(op, b1) == multiset{} {
      forall x ensures Operands(op, b)[x] <= Operands(op, a)[x] {
        assert Operands(op, b1)[x] == 0;
      }
    }
    if Operands(op, b) <= Operands(op, a) {
      assert forall x :: Operands(op, b1)[x] == 0;
    }
  }

  /** The entry belongs below if it must; and on chains of atoms, and conditions of different kinds, only then. */
  lemma JudgeIff(dep: Option<Expr>, s: Symbol, base: Option<Expr>)
    ensures GoesBelow(dep, s, base) ==> Judge(dep, s, base) == Belongs
    ensures Judge(dep, s, base) == Belongs ==> dep.Some? && s in SymbolsOf(dep.value)
    ensures var (d, b) := (NotNo(dep), NotNo(base));
            (d.Bin? ==> IsAtomChain(d.op, d)) && (b.Bin? ==> IsAtomChain(b.op, b)) ==>
              (Judge(dep, s, base) == Belongs <==> GoesBelow(dep, s, base))
  {
    if dep.Some? {
      var (d, b) := (NotNo(dep), NotNo(base));
      ContainsSymbolIff(dep.value, s);
      NeedsSymbolIff(dep.value, s);
      if DependsSymbol(dep.value, s) {
        NeedsMentioned(dep.value, s);
      }
      hide NotNo, NeedsSymbol, DependsSymbol, ContainsSymbol, SymbolsOf, EliminateEq, EliminateYn, Operands;
      if SameNodeType(d, b) && d.Bin? && IsAtomChain(d.op, d) && IsAtomChain(b.op, b) {
        StrikesAll(d.op, d, b);
      }
    }
  }

  lemma {:induction false} NeedsMentioned(e: Expr, s: Symbol)
    requires DependsSymbol(e, s)
    ensures ContainsSymbol(e, s)
  {
    if e.Bin? {
      if DependsSymbol(e.left, s) {
        NeedsMentioned(e.left, s);
      } else {
        NeedsMentioned(e.right, s);
      }
    }
  }

  // ----- The conditions that are pushed down -----

  /** A missing condition, or one in normal form. */
  predicate Normal(e: Option<Expr>) {
    e.Some? ==> IsNnf(e.value)
  }

  /** They are in normal form and simplified, whatever was declared. */
  lemma PushedForm(a: Option<Expr>, b: Option<Expr>)
    requires Normal(a)
    ensures PushDep(a, b).Some? ==> Simplified(PushDep(a, b).value)
    ensures Normal(PushDep(a, b)) && (PushDep(a, b).None? <==> a.None? && b.None?)
  {
    var c := AllocAnd(a, TransformOpt(b));
    if b.Some? {
      TransformYieldsNnf(b.value);
    }
    if c.Some? {
      EliminateDupsNnf(c.value);
      EliminateDupsSimplified(c.value);
    }
  }

  /** With symbols at m too the new condition is y or n wherever the conjunction is. */
  lemma PushedRefines(a: Option<Expr>, b: Option<Expr>, env: Env)
    requires BooleansDefinite(env)
    ensures Refines(EvalOpt(PushDep(a, b), env), Combine(And, EvalOpt(a, env), EvalOpt(b, env)))
  {
    AllocAndExact(a, TransformOpt(b), env);
    if b.Some? {
      TransformExact(b.value, env);
    }
    var c := AllocAnd(a, TransformOpt(b));
    if c.Some? {
      EliminateDupsRefines(c.value, env);
    }
  }

  /**
   * The condition of a property.  That of a tristate symbol, or of none, stays as precise; that of any other
   * symbol has no test for n of a tristate symbol, so it may be m where it was y.
   */
  lemma VisibleRefines(sym: Option<Symbol>, a: Option<Expr>, b: Option<Expr>, env: Env)
    requires BooleansDefinite(env) && Normal(a)
    ensures var (r, v) := (PushVisible(sym, a, b), Combine(And, EvalOpt(a, env), EvalOpt(b, env)));
            if sym.None? || TypeOf(sym.value) == ThreeState then r == PushDep(a, b) && Refines(EvalOpt(r, env), v)
            else (r.Some? ==> NoTestsForNo(r.value)) && (v == NO ==> EvalOpt(r, env) == NO) && (v == YES ==> EvalOpt(r, env) != NO)
  {
    PushedRefines(a, b, env);
    PushedForm(a, b);
    var c := PushDep(a, b);
    if c.Some? {
      TransBoolBounds(c.value, env);
      TransBoolComplete(c.value);
    }
    hide Simplified, EliminateDups, Transform;
  }
}
