/** expr_transform: negation normal form, with boolean symbols freed of comparisons. */
module ExprTransformation {
  import opened Tristate
  import opened Symbols
  import opened Expressions

  function Flip(rel: Rel): Rel {
    if rel == Equal then Unequal else Equal
  }

  predicate IsTristateConst(s: Symbol) {
    s.ConstYes? || s.ConstMod? || s.ConstNo?
  }

  /** A measure that every rewrite decreases, although De Morgan's laws add a node. */
  function Weight(e: Expr): (n: nat)
    ensures n >= 1
  {
    match e
    case Sym(_) => 1
    case Cmp(_, _, _) => 2
    case Not(x) => 2 * Weight(x)
    case Bin(_, l, r) => 1 + Weight(l) + Weight(r)
  }

  /** A comparison of a boolean symbol with n, m or y. */
  function TransformCmp(rel: Rel, l: Symbol, r: Symbol): Expr {
    if TypeOf(l) != Boolean then Cmp(rel, l, r)
    else match r
      case ConstNo => if rel == Equal then Not(Sym(l)) else Sym(l)
      case ConstMod => if rel == Equal then Sym(ConstNo) else Sym(ConstYes)
      case ConstYes => if rel == Equal then Sym(l) else Not(Sym(l))
      case _ => Cmp(rel, l, r)
  }

  /** The negation of the chain `l op r`, pushed to its operands. */
  function DeMorgan(op: Op, l: Expr, r: Expr): (n: Expr)
    ensures Weight(n) < 2 * Weight(Bin(op, l, r))
  {
    assert Weight(Not(l)) == 2 * Weight(l) && Weight(Not(r)) == 2 * Weight(r);
    Bin(Dual(op), Not(l), Not(r))
  }

  function Transform(e: Expr): (r: Expr)
    ensures Weight(r) <= Weight(e)
    decreases Weight(e)
  {
    match e
    case Sym(_) => e
    case Cmp(rel, l, r) => TransformCmp(rel, l, r)
    case Bin(op, l, r) => Bin(op, Transform(l), Transform(r))
    case Not(x) =>
      var x' := Transform(x);
      match x'
      case Not(y) => Transform(y)
      case Cmp(rel, l, r) => Cmp(Flip(rel), l, r)
      case Bin(op, l, r) => Transform(DeMorgan(op, l, r))
      case Sym(s) =>
        match s
        case ConstYes => Sym(ConstNo)
        case ConstMod => Sym(ConstMod)
        case ConstNo => Sym(ConstYes)
        case _ => Not(x')
  }

  /** NOT stands only above symbols other than y, m and n; no boolean is compared with y, m or n. */
  predicate IsNnf(e: Expr) {
    match e
    case Sym(_) => true
    case Cmp(_, l, r) => TypeOf(l) == Boolean ==> !IsTristateConst(r)
    case Not(x) => x.Sym? && !IsTristateConst(x.s)
    case Bin(_, l, r) => IsNnf(l) && IsNnf(r)
  }

  lemma {:induction false} TransformCmpExact(rel: Rel, l: Symbol, r: Symbol, env: Env)
    requires BooleansDefinite(env)
    ensures Eval(TransformCmp(rel, l, r), env) == Eval(Cmp(rel, l, r), env)
  {
    LetterInjective(ValueOf(l, env), NO);
    LetterInjective(ValueOf(l, env), MOD);
    LetterInjective(ValueOf(l, env), YES);
  }

  lemma DeMorganExact(op: Op, l: Expr, r: Expr, env: Env)
    ensures Eval(DeMorgan(op, l, r), env) == Negate(Eval(Bin(op, l, r), env))
  {
    assert Eval(Not(l), env) == Negate(Eval(l, env)) && Eval(Not(r), env) == Negate(Eval(r, env));
  }

  /** Where booleans are never m, the rewrite keeps the value of every expression. */
  lemma {:induction false} TransformExact(e: Expr, env: Env)
    requires BooleansDefinite(env)
    ensures Eval(Transform(e), env) == Eval(e, env)
    decreases Weight(e)
  {
    match e
    case Sym(_) =>
    case Cmp(rel, l, r) => TransformCmpExact(rel, l, r, env);
    case Bin(_, l, r) => TransformExact(l, env); TransformExact(r, env);
    case Not(x) =>
      var x' := Transform(x);
      TransformExact(x, env);
      match x'
      case Not(y) => TransformExact(y, env);
      case Bin(op, l, r) => DeMorganExact(op, l, r, env); TransformExact(DeMorgan(op, l, r), env);
      case Cmp(_, _, _) =>
      case Sym(_) =>
  }

  lemma {:induction false} TransformYieldsNnf(e: Expr)
    ensures IsNnf(Transform(e))
    decreases Weight(e)
  {
    match e
    case Sym(_) =>
    case Cmp(_, _, _) =>
    case Bin(_, l, r) => TransformYieldsNnf(l); TransformYieldsNnf(r);
    case Not(x) =>
      var x' := Transform(x);
      TransformYieldsNnf(x);
      match x'
      case Not(y) => TransformYieldsNnf(y);
      case Bin(op, l, r) => TransformYieldsNnf(DeMorgan(op, l, r));
      case Cmp(_, _, _) =>
      case Sym(_) =>
  }

  lemma {:induction false} NnfUnchanged(e: Expr)
    requires IsNnf(e)
    ensures Transform(e) == e
  {
    if e.Bin? {
      NnfUnchanged(e.left);
      NnfUnchanged(e.right);
    }
  }

  /** The normal forms are exactly the fixed points, so a second pass changes nothing. */
  lemma TransformIdempotent(e: Expr)
    ensures Transform(Transform(e)) == Transform(e)
    ensures Transform(e) == e <==> IsNnf(e)
  {
    TransformYieldsNnf(e);
    NnfUnchanged(Transform(e));
  }

  lemma {:induction false} TransformTwoValued(e: Expr, env: Env)
    requires BooleansDefinite(env) && TwoValued(e, env)
    ensures TwoValued(Transform(e), env)
    decreases Weight(e)
  {
    match e
    case Sym(_) =>
    case Cmp(_, _, _) =>
    case Bin(_, l, r) => TransformTwoValued(l, env); TransformTwoValued(r, env);
    case Not(x) =>
      var x' := Transform(x);
      TransformTwoValued(x, env);
      match x'
      case Not(y) => TransformTwoValued(y, env);
      case Bin(op, l, r) => TransformTwoValued(DeMorgan(op, l, r), env);
      case Cmp(_, _, _) =>
      case Sym(_) =>
  }
}
