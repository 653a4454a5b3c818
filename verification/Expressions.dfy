/** Dependency expressions, their value, and elimination of the constants y and n. */
module Expressions {
  import opened Options
  import opened Tristate
  import opened Symbols

  datatype Rel = Equal | Unequal

  datatype Expr =
    | Sym(s: Symbol)
    | Not(e: Expr)
    | Cmp(rel: Rel, lhs: Symbol, rhs: Symbol)
    | Bin(op: Op, left: Expr, right: Expr)

  /** expr_calc_value. */
  function Eval(e: Expr, env: Env): Tri {
    match e
    case Sym(s) => ValueOf(s, env)
    case Not(x) => Negate(Eval(x, env))
    case Cmp(rel, l, r) => Truth((TextOf(l, env) == TextOf(r, env)) == (rel == Equal))
    case Bin(op, l, r) => Combine(op, Eval(l, env), Eval(r, env))
  }

  /** A missing expression counts as y. */
  function EvalOpt(e: Option<Expr>, env: Env): Tri {
    if e.None? then YES else Eval(e.value, env)
  }

  /** expr_contains_symbol. */
  predicate ContainsSymbol(e: Expr, s: Symbol) {
    match e
    case Sym(t) => t == s
    case Cmp(_, l, r) => l == s || r == s
    case Not(x) => ContainsSymbol(x, s)
    case Bin(_, l, r) => ContainsSymbol(l, s) || ContainsSymbol(r, s)
  }

  /** The declared symbols an expression mentions are among `valid`. */
  predicate Visited(e: Expr, declared: set<Symbol>, valid: set<Symbol>) {
    match e
    case Sym(s) => s in declared ==> s in valid
    case Cmp(_, l, r) => (l in declared ==> l in valid) && (r in declared ==> r in valid)
    case Not(x) => Visited(x, declared, valid)
    case Bin(_, l, r) => Visited(l, declared, valid) && Visited(r, declared, valid)
  }

  lemma {:induction false} VisitedMore(e: Expr, declared: set<Symbol>, valid: set<Symbol>, valid': set<Symbol>)
    requires Visited(e, declared, valid) && valid <= valid'
    ensures Visited(e, declared, valid')
  {
    match e
    case Sym(_) =>
    case Cmp(_, _, _) =>
    case Not(x) => VisitedMore(x, declared, valid, valid');
    case Bin(_, l, r) => VisitedMore(l, declared, valid, valid'); VisitedMore(r, declared, valid, valid');
  }

  function Size(e: Expr): (n: nat)
    ensures n >= 1
  {
    match e
    case Sym(_) => 1
    case Cmp(_, _, _) => 1
    case Not(x) => 1 + Size(x)
    case Bin(_, l, r) => 1 + Size(l) + Size(r)
  }

  predicate IsOp(op: Op, e: Expr) {
    e.Bin? && e.op == op
  }

  /** The symbol that is neutral for `op`. */
  function UnitExpr(op: Op): Expr {
    if op == And then Sym(ConstYes) else Sym(ConstNo)
  }

  /** The symbol that absorbs everything under `op`. */
  function ZeroExpr(op: Op): Expr {
    UnitExpr(Dual(op))
  }

  predicate IsYesOrNo(e: Expr) {
    e == Sym(ConstYes) || e == Sym(ConstNo)
  }

  /** No symbol leaf of `e` has the value m. */
  predicate TwoValued(e: Expr, env: Env) {
    match e
    case Sym(s) => ValueOf(s, env) != MOD
    case Cmp(_, _, _) => true
    case Not(x) => TwoValued(x, env)
    case Bin(_, l, r) => TwoValued(l, env) && TwoValued(r, env)
  }

  lemma {:induction false} TwoValuedIsDefinite(e: Expr, env: Env)
    requires TwoValued(e, env)
    ensures Eval(e, env) != MOD
  {
    match e
    case Sym(_) =>
    case Cmp(_, _, _) =>
    case Not(x) => TwoValuedIsDefinite(x, env);
    case Bin(_, l, r) => TwoValuedIsDefinite(l, env); TwoValuedIsDefinite(r, env);
  }

  // ----- expr_eliminate_yn -----

  function EliminateYn(e: Expr): (r: Expr)
    ensures Size(r) <= Size(e)
  {
    match e
    case Bin(op, l0, r0) =>
      var l, r := EliminateYn(l0), EliminateYn(r0);
      if l == ZeroExpr(op) then ZeroExpr(op)
      else if l == UnitExpr(op) then r
      else if r == ZeroExpr(op) then ZeroExpr(op)
      else if r == UnitExpr(op) then l
      else Bin(op, l, r)
    case _ => e
  }

  /** No connective has y or n as an operand (operands of NOT are not looked at). */
  predicate YnFree(e: Expr) {
    e.Bin? ==> !IsYesOrNo(e.left) && !IsYesOrNo(e.right) && YnFree(e.left) && YnFree(e.right)
  }

  lemma {:induction false} EliminateYnExact(e: Expr, env: Env)
    ensures Eval(EliminateYn(e), env) == Eval(e, env)
  {
    if e.Bin? {
      EliminateYnExact(e.left, env);
      EliminateYnExact(e.right, env);
    }
  }

  lemma {:induction false} EliminateYnNormal(e: Expr)
    ensures YnFree(EliminateYn(e))
    ensures EliminateYn(e) == e <==> YnFree(e)
    ensures !YnFree(e) ==> Size(EliminateYn(e)) < Size(e)
  {
    if e.Bin? {
      EliminateYnNormal(e.left);
      EliminateYnNormal(e.right);
    }
  }
}
