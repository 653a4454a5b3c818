/** Comparisons of whole expressions with y or n, and the tests menu_finalize bases on them. */
module ExprComparison {
  import opened Options
  import opened Tristate
  import opened Symbols
  import opened Expressions
  import opened ExprEquality
  import opened ExprTransformation
  import opened ExprJoining
  import opened ExprDuplicates

  // ----- A missing expression counts as y -----

  /** expr_alloc_and. */
  function AllocAnd(a: Option<Expr>, b: Option<Expr>): Option<Expr> {
    if a.None? then b else if b.None? then a else Some(Bin(And, a.value, b.value))
  }

  lemma AllocAndExact(a: Option<Expr>, b: Option<Expr>, env: Env)
    ensures EvalOpt(AllocAnd(a, b), env) == Combine(And, EvalOpt(a, env), EvalOpt(b, env))
  {
  }

  /** expr_is_yes. */
  predicate IsYes(e: Option<Expr>) {
    e.None? || e.value == Sym(ConstYes)
  }

  // ----- expr_trans_bool -----

  /** Turns `FOO!=n` into `FOO` for tristate FOO. */
  function TransBool(e: Expr): Expr {
    match e
    case Bin(op, l, r) => Bin(op, TransBool(l), TransBool(r))
    case Not(x) => Not(TransBool(x))
    case Cmp(Unequal, l, ConstNo) => if TypeOf(l) == ThreeState then Sym(l) else e
    case _ => e
  }

  /** On normal forms the value never rises, and n stays apart from m and y. */
  lemma {:induction false} TransBoolBounds(e: Expr, env: Env)
    requires IsNnf(e)
    ensures Eval(TransBool(e), env) <= Eval(e, env)
    ensures Eval(TransBool(e), env) == NO <==> Eval(e, env) == NO
  {
    match e
    case Bin(_, l, r) => TransBoolBounds(l, env); TransBoolBounds(r, env);
    case Cmp(_, l, r) =>
      if TypeOf(l) == ThreeState {
        CmpTestsValue(l, env);
      }
    case Not(_) =>
    case Sym(_) =>
  }

  /** Under a negation the rewrite can raise n to m. */
  lemma TransBoolNeedsNnf(s: Symbol, env: Env)
    requires TypeOf(s) == ThreeState
    ensures var e := Not(Cmp(Unequal, s, ConstNo));
            (Eval(TransBool(e), env) == NO <==> Eval(e, env) == NO) <==> ValueOf(s, env) != MOD
  {
    CmpTestsValue(s, env);
    var c := Cmp(Unequal, s, ConstNo);
    assert Eval(Not(c), env) == Negate(Eval(c, env));
    assert TransBool(Not(c)) == Not(Sym(s));
  }

  lemma {:induction false} TransBoolTwoValuedExact(e: Expr, env: Env)
    requires IsNnf(e) && TwoValued(TransBool(e), env)
    ensures Eval(TransBool(e), env) == Eval(e, env)
  {
    TransBoolBounds(e, env);
    TwoValuedIsDefinite(TransBool(e), env);
    TransBoolKeepsLeaves(e, env);
    TwoValuedIsDefinite(e, env);
  }

  lemma {:induction false} TransBoolKeepsLeaves(e: Expr, env: Env)
    requires TwoValued(TransBool(e), env)
    ensures TwoValued(e, env)
  {
    match e
    case Bin(_, l, r) => TransBoolKeepsLeaves(l, env); TransBoolKeepsLeaves(r, env);
    case Not(x) => TransBoolKeepsLeaves(x, env);
    case Cmp(_, _, _) =>
    case Sym(_) =>
  }

  /** There is no comparison `s!=n` of a tristate symbol. */
  predicate NoTestsForNo(e: Expr) {
    match e
    case Sym(_) => true
    case Cmp(rel, l, r) => !(rel == Unequal && TypeOf(l) == ThreeState && r == ConstNo)
    case Not(x) => NoTestsForNo(x)
    case Bin(_, l, r) => NoTestsForNo(l) && NoTestsForNo(r)
  }

  /** They are all gone, wherever they were, and where there were none nothing changes. */
  lemma {:induction false} TransBoolComplete(e: Expr)
    ensures NoTestsForNo(TransBool(e)) && (NoTestsForNo(e) <==> TransBool(e) == e)
  {
    match e
    case Sym(_) =>
    case Cmp(_, _, _) =>
    case Not(x) => TransBoolComplete(x);
    case Bin(_, l, r) => TransBoolComplete(l); TransBoolComplete(r);
  }

  // ----- expr_trans_compare with y and n -----

  function TransCompare(e: Expr, rel: Rel, c: Symbol): Expr
    requires c.ConstYes? || c.ConstNo?
  {
    match e
    case Bin(op, l, r) =>
      var x := Bin(if c.ConstYes? then op else Dual(op), TransCompare(l, Equal, c), TransCompare(r, Equal, c));
      if rel == Unequal then Not(x) else x
    case Not(x) => TransCompare(x, Flip(rel), c)
    case Cmp(_, _, _) => if (rel == Equal) == c.ConstYes? then e else Not(e)
    case Sym(s) => Cmp(rel, s, c)
  }

  function TransCompareOpt(e: Option<Expr>, rel: Rel, c: Symbol): Expr
    requires c.ConstYes? || c.ConstNo?
  {
    if e.Some? then TransCompare(e.value, rel, c) else if rel == Unequal then Not(Sym(c)) else Sym(c)
  }

  /** Every symbol used as a value is y, m, n or of a type whose text is the letter of its value. */
  predicate TristateLeaves(e: Expr) {
    match e
    case Sym(s) => IsTristateConst(s) || TypeOf(s) == Boolean || TypeOf(s) == ThreeState
    case Cmp(_, _, _) => true
    case Not(x) => TristateLeaves(x)
    case Bin(_, l, r) => TristateLeaves(l) && TristateLeaves(r)
  }

  /** No negation in `e` has an operand of value m. */
  predicate NegationsDefinite(e: Expr, env: Env) {
    match e
    case Sym(_) => true
    case Cmp(_, _, _) => true
    case Not(x) => Eval(x, env) != MOD && NegationsDefinite(x, env)
    case Bin(_, l, r) => NegationsDefinite(l, env) && NegationsDefinite(r, env)
  }

  lemma {:induction false} TwoValuedNegations(e: Expr, env: Env)
    requires TwoValued(e, env)
    ensures NegationsDefinite(e, env)
  {
    match e
    case Sym(_) =>
    case Cmp(_, _, _) =>
    case Not(x) => TwoValuedNegations(x, env); TwoValuedIsDefinite(x, env);
    case Bin(_, l, r) => TwoValuedNegations(l, env); TwoValuedNegations(r, env);
  }

  function CompareValue(v: Tri, rel: Rel, c: Symbol): Tri
    requires c.ConstYes? || c.ConstNo?
  {
    Truth((v == if c.ConstYes? then YES else NO) == (rel == Equal))
  }

  /** The result is the truth value of the comparison, as long as no negated part is m. */
  lemma {:induction false} TransCompareExact(e: Expr, rel: Rel, c: Symbol, env: Env)
    requires c.ConstYes? || c.ConstNo?
    requires TristateLeaves(e) && NegationsDefinite(e, env)
    ensures Eval(TransCompare(e, rel, c), env) == CompareValue(Eval(e, env), rel, c)
  {
    match e
    case Sym(s) => SymCompareExact(s, c, env);
    case Cmp(_, _, _) =>
    case Not(x) => TransCompareExact(x, Flip(rel), c, env);
    case Bin(op, l, r) =>
      TransCompareExact(l, Equal, c, env);
      TransCompareExact(r, Equal, c, env);
  }

  lemma SymCompareExact(s: Symbol, c: Symbol, env: Env)
    requires c.ConstYes? || c.ConstNo?
    requires TristateLeaves(Sym(s))
    ensures TextOf(s, env) == TextOf(c, env) <==> ValueOf(s, env) == ValueOf(c, env)
  {
    LetterInjective(ValueOf(s, env), YES);
    LetterInjective(ValueOf(s, env), NO);
    assert Letter(YES) == "y" && Letter(MOD) == "m" && Letter(NO) == "n";
  }

  /** A negation is compared by flipping the comparison, which is wrong exactly when it is m. */
  lemma TransCompareNotExactIff(x: Expr, rel: Rel, c: Symbol, env: Env)
    requires c.ConstYes? || c.ConstNo?
    requires TristateLeaves(x) && NegationsDefinite(x, env)
    ensures Eval(TransCompare(Not(x), rel, c), env) == CompareValue(Eval(Not(x), env), rel, c)
            <==> Eval(x, env) != MOD
  {
    TransCompareExact(x, Flip(rel), c, env);
    assert Eval(Not(x), env) == Negate(Eval(x, env));
  }

  /** The result has no symbols as values, only comparisons. */
  lemma {:induction false} TransCompareTwoValued(e: Expr, rel: Rel, c: Symbol, env: Env)
    requires c.ConstYes? || c.ConstNo?
    ensures TwoValued(TransCompare(e, rel, c), env)
  {
    match e
    case Sym(_) =>
    case Cmp(_, _, _) =>
    case Not(x) => TransCompareTwoValued(x, Flip(rel), c, env);
    case Bin(_, l, r) => TransCompareTwoValued(l, Equal, c, env); TransCompareTwoValued(r, Equal, c, env);
  }

  // ----- expr_contains_symbol and expr_depends_symbol -----

  predicate DependsSymbol(e: Expr, s: Symbol) {
    match e
    case Sym(t) => t == s
    case Cmp(rel, l, r) => l == s && if rel == Equal then r.ConstYes? || r.ConstMod? else r.ConstNo?
    case Not(_) => false
    case Bin(op, l, r) => op == And && (DependsSymbol(l, s) || DependsSymbol(r, s))
  }

  /** The symbols in an expression. */
  function SymbolsOf(e: Expr): set<Symbol> {
    match e
    case Sym(t) => {t}
    case Cmp(_, l, r) => {l, r}
    case Not(x) => SymbolsOf(x)
    case Bin(_, l, r) => SymbolsOf(l) + SymbolsOf(r)
  }

  lemma {:induction false} ContainsSymbolIff(e: Expr, s: Symbol)
    ensures ContainsSymbol(e, s) <==> s in SymbolsOf(e)
  {
    match e
    case Sym(_) =>
    case Cmp(_, _, _) =>
    case Not(x) => ContainsSymbolIff(x, s);
    case Bin(_, l, r) => ContainsSymbolIff(l, s); ContainsSymbolIff(r, s);
  }

  /** An expression that does not mention a symbol does not depend on its value or text. */
  lemma {:induction false} ContainsSymbolComplete(e: Expr, s: Symbol, env: Env, env': Env)
    requires !ContainsSymbol(e, s)
    requires forall t: Symbol :: t != s ==> env.tri(t) == env'.tri(t) && env.text(t) == env'.text(t)
    ensures Eval(e, env) == Eval(e, env')
  {
    match e
    case Sym(_) =>
    case Cmp(_, _, _) =>
    case Not(x) => ContainsSymbolComplete(x, s, env, env');
    case Bin(_, l, r) => ContainsSymbolComplete(l, s, env, env'); ContainsSymbolComplete(r, s, env, env');
  }

  /** What depends on a symbol is n whenever the symbol is. */
  lemma {:induction false} DependsSymbolSound(e: Expr, s: Symbol, env: Env)
    requires TristateLeaves(Sym(s)) && !IsTristateConst(s)
    requires DependsSymbol(e, s)
    ensures Eval(e, env) != NO ==> ValueOf(s, env) != NO
  {
    match e
    case Sym(_) =>
    case Cmp(_, _, _) => CmpTestsValue(s, env);
    case Bin(_, l, r) =>
      if DependsSymbol(l, s) {
        DependsSymbolSound(l, s, env);
      } else {
        DependsSymbolSound(r, s, env);
      }
  }

  // ----- expr_eliminate_eq and the test for a submenu -----

  /** The two expressions have the same top-level node type. */
  predicate SameNodeType(a: Expr, b: Expr) {
    match (a, b)
    case (Sym(_), Sym(_)) => true
    case (Not(_), Not(_)) => true
    case (Cmp(r, _, _), Cmp(r', _, _)) => r == r'
    case (Bin(op, _, _), Bin(op', _, _)) => op == op'
    case _ => false
  }

  /** expr_eliminate_eq; equal node types other than AND and OR would be taken for chains. */
  function EliminateEqTop(a: Expr, b: Expr): (Expr, Expr)
    requires SameNodeType(a, b) ==> a.Bin?
  {
    if !SameNodeType(a, b) then (a, b)
    else
      var (a', b') := EliminateEq(a.op, a, b);
      (EliminateYn(a'), EliminateYn(b'))
  }

  /** When nothing of `b` remains, `a` is at most `b`. */
  lemma NothingRemainsImplies(a: Expr, b: Expr, env: Env)
    requires SameNodeType(a, b) ==> a.Bin?
    requires IsYes(Some(EliminateEqTop(a, b).1))
    ensures Eval(a, env) <= Eval(b, env)
  {
    if SameNodeType(a, b) {
      var (a', b') := EliminateEq(a.op, a, b);
      var _ := EliminateEqCommonPart(a.op, a, b, env);
      EliminateYnExact(b', env);
    }
  }

  /** The simplified condition `e != n`, as menu_finalize builds it. */
  function NotNo(e: Option<Expr>): Expr {
    EliminateDups(Transform(TransCompareOpt(e, Unequal, ConstNo)))
  }

  lemma NotNoExact(e: Option<Expr>, env: Env)
    requires BooleansDefinite(env)
    requires e.Some? ==> TristateLeaves(e.value) && NegationsDefinite(e.value, env)
    ensures Eval(NotNo(e), env) == Truth(EvalOpt(e, env) != NO)
  {
    var c := TransCompareOpt(e, Unequal, ConstNo);
    if e.Some? {
      TransCompareExact(e.value, Unequal, ConstNo, env);
      TransCompareTwoValued(e.value, Unequal, ConstNo, env);
    } else {
      assert Eval(Sym(ConstNo), env) == NO && TwoValued(Sym(ConstNo), env);
    }
    TransformExact(c, env);
    TransformTwoValued(c, env);
    EliminateDupsExactTwoValued(Transform(c), env);
  }

  /** menu_finalize takes an entry with condition `dep` into the submenu of `sym`, prompted under `base`. */
  predicate BelongsBelow(dep: Option<Expr>, sym: Symbol, base: Option<Expr>)
    requires dep.Some? && !DependsSymbol(dep.value, sym) ==> (SameNodeType(NotNo(dep), NotNo(base)) ==> NotNo(dep).Bin?)
  {
    dep.Some? && ContainsSymbol(dep.value, sym) &&
    (DependsSymbol(dep.value, sym) || IsYes(Some(EliminateEqTop(NotNo(dep), NotNo(base)).1)))
  }

  /** An entry taken into a submenu vanishes with the symbol or is visible only with its prompt. */
  lemma SubmenuJustified(dep: Option<Expr>, sym: Symbol, base: Option<Expr>, env: Env)
    requires dep.Some? && !DependsSymbol(dep.value, sym) ==> (SameNodeType(NotNo(dep), NotNo(base)) ==> NotNo(dep).Bin?)
    requires BelongsBelow(dep, sym, base)
    requires BooleansDefinite(env)
    requires TristateLeaves(Sym(sym)) && !IsTristateConst(sym)
    requires TristateLeaves(dep.value) && NegationsDefinite(dep.value, env)
    requires base.Some? ==> TristateLeaves(base.value) && NegationsDefinite(base.value, env)
    ensures EvalOpt(dep, env) != NO ==>
              if DependsSymbol(dep.value, sym) then ValueOf(sym, env) != NO else EvalOpt(base, env) != NO
  {
    if DependsSymbol(dep.value, sym) {
      DependsSymbolSound(dep.value, sym, env);
    } else {
      NotNoExact(dep, env);
      NotNoExact(base, env);
      NothingRemainsImplies(NotNo(dep), NotNo(base), env);
    }
  }
}
