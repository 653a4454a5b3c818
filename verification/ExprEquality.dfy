/** expr_eq and the elimination of common operands it is built on. */
module ExprEquality {
  import opened Tristate
  import opened Symbols
  import opened Expressions

  /**
   * __expr_eliminate_eq: strike operands of the `op` chain `a` against equal operands of the
   * `op` chain `b`, replacing both by the neutral symbol.
   */
  function EliminateEq(op: Op, a: Expr, b: Expr): (r: (Expr, Expr))
    ensures Size(r.0) <= Size(a) && Size(r.1) <= Size(b)
    decreases Size(a) + Size(b), if IsOp(op, a) || IsOp(op, b) then 0 else 2
  {
    if IsOp(op, a) then
      var (l, b1) := EliminateEq(op, a.left, b);
      var (r, b2) := EliminateEq(op, a.right, b1);
      (Bin(op, l, r), b2)
    else if IsOp(op, b) then
      var (a1, l) := EliminateEq(op, a, b.left);
      var (a2, r) := EliminateEq(op, a1, b.right);
      (a2, Bin(op, l, r))
    else if a.Sym? && b.Sym? && a.s == b.s && HasYesOrNoFlag(a.s) then (a, b)
    else if !ExprEq(a, b) then (a, b)
    else (UnitExpr(op), UnitExpr(op))
  }

  /** expr_eq. */
  function ExprEq(a: Expr, b: Expr): bool
    decreases Size(a) + Size(b), 1
  {
    match (a, b)
    case (Cmp(_, _, _), Cmp(_, _, _)) => a == b
    case (Sym(_), Sym(_)) => a == b
    case (Not(x), Not(y)) => ExprEq(x, y)
    case (Bin(op, _, _), Bin(op', _, _)) =>
      op == op' &&
      var (a1, b1) := EliminateEq(op, a, b);
      var (a2, b2) := (EliminateYn(a1), EliminateYn(b1));
      a2.Sym? && b2.Sym? && a2.s == b2.s
    case _ => false
  }

  // ----- Soundness -----

  lemma CommonPartTwice(op: Op, l: Tri, r: Tri, b: Tri, c1: Tri, c2: Tri)
    ensures var c := Combine(op, c1, c2);
            Combine(op, Combine(op, l, c1), Combine(op, r, c2)) == Combine(op, Combine(op, l, r), c) &&
            Combine(op, Combine(op, b, c2), c1) == Combine(op, b, c)
  {
  }

  /** Both operands equal their remainder combined with one common part `c`. */
  lemma {:induction false} EliminateEqCommonPart(op: Op, a: Expr, b: Expr, env: Env) returns (c: Tri)
    ensures Eval(a, env) == Combine(op, Eval(EliminateEq(op, a, b).0, env), c)
    ensures Eval(b, env) == Combine(op, Eval(EliminateEq(op, a, b).1, env), c)
    decreases Size(a) + Size(b), if IsOp(op, a) || IsOp(op, b) then 0 else 2
  {
    if IsOp(op, a) {
      var (l, b1) := EliminateEq(op, a.left, b);
      var (r, b2) := EliminateEq(op, a.right, b1);
      var c1 := EliminateEqCommonPart(op, a.left, b, env);
      var c2 := EliminateEqCommonPart(op, a.right, b1, env);
      c := Combine(op, c1, c2);
      CommonPartTwice(op, Eval(l, env), Eval(r, env), Eval(b2, env), c1, c2);
    } else if IsOp(op, b) {
      var (a1, l) := EliminateEq(op, a, b.left);
      var (a2, r) := EliminateEq(op, a1, b.right);
      var c1 := EliminateEqCommonPart(op, a, b.left, env);
      var c2 := EliminateEqCommonPart(op, a1, b.right, env);
      c := Combine(op, c1, c2);
      CommonPartTwice(op, Eval(l, env), Eval(r, env), Eval(a2, env), c1, c2);
    } else if EliminateEq(op, a, b) == (a, b) {
      c := Unit(op);
    } else {
      ExprEqSound(a, b, env);
      c := Eval(a, env);
    }
  }

  /** Expressions expr_eq calls equal have the same value in every environment. */
  lemma {:induction false} ExprEqSound(a: Expr, b: Expr, env: Env)
    requires ExprEq(a, b)
    ensures Eval(a, env) == Eval(b, env)
    decreases Size(a) + Size(b), 1
  {
    match a
    case Sym(_) =>
    case Cmp(_, _, _) =>
    case Not(x) => ExprEqSound(x, b.e, env);
    case Bin(op, _, _) =>
      var (a1, b1) := EliminateEq(op, a, b);
      var c := EliminateEqCommonPart(op, a, b, env);
      EliminateYnExact(a1, env);
      EliminateYnExact(b1, env);
  }

  // ----- Completeness on chains of atoms -----

  /** A symbol other than y, n and the quoted constants, such a symbol negated, or a comparison. */
  predicate IsAtom(e: Expr) {
    match e
    case Sym(s) => !HasYesOrNoFlag(s)
    case Not(x) => x.Sym? && !HasYesOrNoFlag(x.s)
    case Cmp(_, _, _) => true
    case Bin(_, _, _) => false
  }

  /** An `op` chain, however nested, whose operands are atoms. */
  predicate IsAtomChain(op: Op, e: Expr) {
    if IsOp(op, e) then IsAtomChain(op, e.left) && IsAtomChain(op, e.right) else IsAtom(e)
  }

  /** An atom chain in which some operands may have been struck out. */
  predicate IsStruckChain(op: Op, e: Expr) {
    if IsOp(op, e) then IsStruckChain(op, e.left) && IsStruckChain(op, e.right)
    else IsAtom(e) || e == UnitExpr(op)
  }

  /** The operands of an `op` chain that have not been struck out. */
  ghost function Operands(op: Op, e: Expr): multiset<Expr> {
    if IsOp(op, e) then Operands(op, e.left) + Operands(op, e.right)
    else if e == UnitExpr(op) then multiset{}
    else multiset{e}
  }

  /** How often `x` is among the operands. */
  ghost function Count(op: Op, e: Expr, x: Expr): nat {
    if IsOp(op, e) then Count(op, e.left, x) + Count(op, e.right, x)
    else if e == x && e != UnitExpr(op) then 1
    else 0
  }

  /** Of `m` and `n` occurrences, `m'` and `n'` are left when both lose as many as they share. */
  predicate Struck(m: nat, n: nat, m': nat, n': nat) {
    if m < n then m' == 0 && n' == n - m else m' == m - n && n' == 0
  }

  lemma StruckTwice(m1: nat, m2: nat, n: nat, m1': nat, n1: nat, m2': nat, n2: nat)
    requires Struck(m1, n, m1', n1) && Struck(m2, n1, m2', n2)
    ensures Struck(m1 + m2, n, m1' + m2', n2)
    ensures Struck(n, m1 + m2, n2, m1' + m2')
  {
  }

  lemma AtomEq(op: Op, a: Expr, b: Expr)
    requires IsStruckChain(op, a) && IsStruckChain(op, b) && !IsOp(op, a) && !IsOp(op, b)
    ensures ExprEq(a, b) <==> a == b
  {
    if a.Not? && b.Not? {
      assert ExprEq(a, b) == ExprEq(a.e, b.e) == (a.e == b.e);
    }
  }

  /** Elimination strikes each operand `x` as often as it occurs on both sides. */
  lemma {:induction false} EliminateEqStrikes(op: Op, a: Expr, b: Expr, x: Expr) returns (a': Expr, b': Expr)
    requires IsStruckChain(op, a) && IsStruckChain(op, b)
    ensures (a', b') == EliminateEq(op, a, b)
    ensures IsStruckChain(op, a') && IsStruckChain(op, b')
    ensures Struck(Count(op, a, x), Count(op, b, x), Count(op, a', x), Count(op, b', x))
    decreases Size(a) + Size(b), 1
  {
    if IsOp(op, a) {
      a', b' := EliminateEqStrikesLeft(op, a, b, x);
    } else if IsOp(op, b) {
      a', b' := EliminateEqStrikesRight(op, a, b, x);
    } else {
      AtomEq(op, a, b);
      a', b' := EliminateEq(op, a, b).0, EliminateEq(op, a, b).1;
    }
  }

  lemma {:induction false} EliminateEqStrikesLeft(op: Op, a: Expr, b: Expr, x: Expr) returns (a': Expr, b': Expr)
    requires IsStruckChain(op, a) && IsStruckChain(op, b) && IsOp(op, a)
    ensures (a', b') == EliminateEq(op, a, b)
    ensures IsStruckChain(op, a') && IsStruckChain(op, b')
    ensures Struck(Count(op, a, x), Count(op, b, x), Count(op, a', x), Count(op, b', x))
    decreases Size(a) + Size(b), 0
  {
    var l, b1 := EliminateEqStrikes(op, a.left, b, x);
    var r, b2 := EliminateEqStrikes(op, a.right, b1, x);
    a', b' := Bin(op, l, r), b2;
    StruckTwice(Count(op, a.left, x), Count(op, a.right, x), Count(op, b, x),
                Count(op, l, x), Count(op, b1, x), Count(op, r, x), Count(op, b2, x));
  }

  lemma {:induction false} EliminateEqStrikesRight(op: Op, a: Expr, b: Expr, x: Expr) returns (a': Expr, b': Expr)
    requires IsStruckChain(op, a) && IsStruckChain(op, b) && !IsOp(op, a) && IsOp(op, b)
    ensures (a', b') == EliminateEq(op, a, b)
    ensures IsStruckChain(op, a') && IsStruckChain(op, b')
    ensures Struck(Count(op, a, x), Count(op, b, x), Count(op, a', x), Count(op, b', x))
    decreases Size(a) + Size(b), 0
  {
    var a1, l := EliminateEqStrikes(op, a, b.left, x);
    var a2, r := EliminateEqStrikes(op, a1, b.right, x);
    a', b' := a2, Bin(op, l, r);
    StruckTwice(Count(op, b.left, x), Count(op, b.right, x), Count(op, a, x),
                Count(op, l, x), Count(op, a1, x), Count(op, r, x), Count(op, a2, x));
  }

  lemma {:induction false} CountsOperands(op: Op, e: Expr, x: Expr)
    ensures Operands(op, e)[x] == Count(op, e, x)
  {
    if IsOp(op, e) {
      CountsOperands(op, e.left, x);
      CountsOperands(op, e.right, x);
    }
  }

  lemma {:induction false} EliminateYnOnStruckChain(op: Op, e: Expr)
    requires IsStruckChain(op, e)
    ensures var r := EliminateYn(e);
            Operands(op, r) == Operands(op, e) &&
            IsStruckChain(op, r) && r != ZeroExpr(op) &&
            (r == UnitExpr(op) <==> Operands(op, e) == multiset{}) &&
            (r.Sym? && r != UnitExpr(op) ==> Operands(op, e)[r] == 1)
  {
    if IsOp(op, e) {
      EliminateYnOnStruckChain(op, e.left);
      EliminateYnOnStruckChain(op, e.right);
    }
  }

  lemma {:induction false} AtomChainHasOperands(op: Op, e: Expr)
    requires IsAtomChain(op, e)
    ensures IsStruckChain(op, e)
    ensures |Operands(op, e)| >= if IsOp(op, e) then 2 else 1
  {
    if IsOp(op, e) {
      AtomChainHasOperands(op, e.left);
      AtomChainHasOperands(op, e.right);
    }
  }

  lemma StruckMultisets(a: multiset<Expr>, b: multiset<Expr>, a': multiset<Expr>, b': multiset<Expr>)
    requires forall x :: Struck(a[x], b[x], a'[x], b'[x])
    ensures a == b <==> a' == multiset{} && b' == multiset{}
    ensures forall x :: a'[x] == 0 || b'[x] == 0
  {
    if a' == multiset{} && b' == multiset{} {
      forall x ensures a[x] == b[x] {
        assert Struck(a[x], b[x], a'[x], b'[x]);
      }
    }
  }

  /** On atom chains expr_eq decides equality of the operands up to order and nesting. */
  lemma {:induction false} ExprEqCompleteOnAtomChains(op: Op, a: Expr, b: Expr)
    requires IsAtomChain(op, a) && IsAtomChain(op, b)
    ensures ExprEq(a, b) <==> Operands(op, a) == Operands(op, b)
  {
    AtomChainHasOperands(op, a);
    AtomChainHasOperands(op, b);
    if IsOp(op, a) && IsOp(op, b) {
      var a1, b1 := EliminateEqStrikes(op, a, b, a);
      forall x
        ensures Struck(Operands(op, a)[x], Operands(op, b)[x], Operands(op, a1)[x], Operands(op, b1)[x])
      {
        var _, _ := EliminateEqStrikes(op, a, b, x);
        CountsOperands(op, a, x);
        CountsOperands(op, b, x);
        CountsOperands(op, a1, x);
        CountsOperands(op, b1, x);
      }
      StruckMultisets(Operands(op, a), Operands(op, b), Operands(op, a1), Operands(op, b1));
      EliminateYnOnStruckChain(op, a1);
      EliminateYnOnStruckChain(op, b1);
    } else if !IsOp(op, a) && !IsOp(op, b) {
      AtomEq(op, a, b);
      assert a in multiset{a};
    }
  }
}
