/**
 * Slots of a chain of one connective.  The passes of expr.c address operands through pointers
 * into the tree they rewrite, two of which may lead into the same tree.  A slot is given by the
 * path to it; two pointers are equal exactly when the paths are.
 */
module ExprSlots {
  import opened Tristate
  import opened Symbols
  import opened Expressions

  datatype Dir = L | R
  type Path = seq<Dir>

  function Child(e: Expr, d: Dir): (c: Expr)
    requires e.Bin?
    ensures c < e && Size(c) < Size(e)
  {
    if d == L then e.left else e.right
  }

  function WithChild(e: Expr, d: Dir, c: Expr): Expr
    requires e.Bin?
  {
    if d == L then Bin(e.op, c, e.right) else Bin(e.op, e.left, c)
  }

  /** `p` leads through nodes of the `op` chain `e` to a node or an operand of it. */
  predicate InChain(op: Op, e: Expr, p: Path) {
    p == [] || (IsOp(op, e) && InChain(op, Child(e, p[0]), p[1..]))
  }

  function At(op: Op, e: Expr, p: Path): Expr
    requires InChain(op, e, p)
  {
    if p == [] then e else At(op, Child(e, p[0]), p[1..])
  }

  function Put(op: Op, e: Expr, p: Path, x: Expr): Expr
    requires InChain(op, e, p)
  {
    if p == [] then x else WithChild(e, p[0], Put(op, Child(e, p[0]), p[1..], x))
  }

  /** `p` leads to an operand of the chain. */
  predicate IsOperand(op: Op, e: Expr, p: Path) {
    InChain(op, e, p) && !IsOp(op, At(op, e, p))
  }

  /** Number of operands and connectives of the chain. */
  function ChainSize(op: Op, e: Expr): (n: nat)
    ensures n >= 1
  {
    if IsOp(op, e) then 1 + ChainSize(op, e.left) + ChainSize(op, e.right) else 1
  }

  /** The two chains differ at most in their operands. */
  predicate SameChain(op: Op, e: Expr, f: Expr) {
    if IsOp(op, e) then IsOp(op, f) && SameChain(op, e.left, f.left) && SameChain(op, e.right, f.right)
    else !IsOp(op, f)
  }

  lemma {:induction false} SameChainReflexive(op: Op, e: Expr)
    ensures SameChain(op, e, e)
  {
    if IsOp(op, e) {
      SameChainReflexive(op, e.left);
      SameChainReflexive(op, e.right);
    }
  }

  lemma {:induction false} SameChainTransitive(op: Op, e: Expr, f: Expr, g: Expr)
    requires SameChain(op, e, f) && SameChain(op, f, g)
    ensures SameChain(op, e, g)
  {
    if IsOp(op, e) {
      SameChainTransitive(op, e.left, f.left, g.left);
      SameChainTransitive(op, e.right, f.right, g.right);
    }
  }

  /** Slots keep their meaning as long as only operands are rewritten. */
  lemma {:induction false} SameChainSlots(op: Op, e: Expr, f: Expr, p: Path)
    requires SameChain(op, e, f) && InChain(op, e, p)
    ensures InChain(op, f, p)
    ensures IsOp(op, At(op, f, p)) <==> IsOp(op, At(op, e, p))
    ensures ChainSize(op, At(op, f, p)) == ChainSize(op, At(op, e, p))
  {
    if p != [] {
      SameChainSlots(op, Child(e, p[0]), Child(f, p[0]), p[1..]);
    } else if IsOp(op, e) {
      SameChainSlots(op, e.left, f.left, []);
      SameChainSlots(op, e.right, f.right, []);
    }
  }

  /** Descending from a chain node. */
  lemma {:induction false} Descend(op: Op, e: Expr, p: Path, d: Dir)
    requires InChain(op, e, p) && IsOp(op, At(op, e, p))
    ensures InChain(op, e, p + [d]) && At(op, e, p + [d]) == Child(At(op, e, p), d)
  {
    if p == [] {
      assert (p + [d])[1..] == [];
    } else {
      Descend(op, Child(e, p[0]), p[1..], d);
      assert (p + [d])[1..] == p[1..] + [d];
    }
  }

  lemma {:induction false} AtSize(op: Op, e: Expr, p: Path)
    requires InChain(op, e, p)
    ensures Size(At(op, e, p)) <= Size(e)
    ensures p != [] ==> Size(At(op, e, p)) < Size(e)
  {
    if p != [] {
      AtSize(op, Child(e, p[0]), p[1..]);
    }
  }

  /** Overwriting an operand. */
  lemma {:induction false} PutOperand(op: Op, e: Expr, p: Path, x: Expr)
    requires IsOperand(op, e, p) && !IsOp(op, x)
    ensures var e' := Put(op, e, p, x);
            SameChain(op, e, e') && InChain(op, e', p) && At(op, e', p) == x &&
            Size(e') == Size(e) - Size(At(op, e, p)) + Size(x) &&
            (x == At(op, e, p) ==> e' == e)
  {
    if p != [] {
      PutOperand(op, Child(e, p[0]), p[1..], x);
      SameChainReflexive(op, e.left);
      SameChainReflexive(op, e.right);
    }
  }

  /** Overwriting one operand leaves the others alone. */
  lemma {:induction false} PutElsewhere(op: Op, e: Expr, p: Path, x: Expr, q: Path)
    requires IsOperand(op, e, p) && IsOperand(op, e, q) && p != q && !IsOp(op, x)
    ensures InChain(op, Put(op, e, p, x), q) && At(op, Put(op, e, p, x), q) == At(op, e, q)
  {
    if p[0] == q[0] {
      PutElsewhere(op, Child(e, p[0]), p[1..], x, q[1..]);
    }
  }

  lemma {:induction false} PutKeepsValue(op: Op, e: Expr, p: Path, x: Expr, env: Env)
    requires InChain(op, e, p)
    requires Eval(x, env) == Eval(At(op, e, p), env)
    ensures Eval(Put(op, e, p, x), env) == Eval(e, env)
  {
    if p != [] {
      PutKeepsValue(op, Child(e, p[0]), p[1..], x, env);
    }
  }

  lemma {:induction false} PutRefines(op: Op, e: Expr, p: Path, x: Expr, env: Env)
    requires InChain(op, e, p)
    requires Refines(Eval(x, env), Eval(At(op, e, p), env))
    ensures Refines(Eval(Put(op, e, p, x), env), Eval(e, env))
  {
    if p != [] {
      PutRefines(op, Child(e, p[0]), p[1..], x, env);
    }
  }

  /** The value of a chain is absorbed by none of its parts. */
  lemma {:induction false} ChainBound(op: Op, e: Expr, p: Path, env: Env)
    requires InChain(op, e, p)
    ensures Combine(op, Eval(e, env), Eval(At(op, e, p), env)) == Eval(e, env)
  {
    if p != [] {
      ChainBound(op, Child(e, p[0]), p[1..], env);
    }
  }

  /** One operand's contribution to the value of its chain. */
  lemma {:induction false} PutContributes(op: Op, e: Expr, p: Path, x: Expr, env: Env)
    requires InChain(op, e, p)
    ensures Eval(Put(op, e, p, x), env) == Combine(op, Eval(x, env), Eval(Put(op, e, p, UnitExpr(op)), env))
  {
    if p != [] {
      PutContributes(op, Child(e, p[0]), p[1..], x, env);
    }
  }

  /** Swapping an operand for another shifts the value of its chain by the two contributions. */
  lemma PutSwaps(op: Op, e: Expr, p: Path, x: Expr, env: Env) returns (rest: Tri)
    requires IsOperand(op, e, p) && !IsOp(op, x)
    ensures Eval(e, env) == Combine(op, Eval(At(op, e, p), env), rest)
    ensures Eval(Put(op, e, p, x), env) == Combine(op, Eval(x, env), rest)
  {
    rest := Eval(Put(op, e, p, UnitExpr(op)), env);
    PutContributes(op, e, p, x, env);
    PutContributes(op, e, p, At(op, e, p), env);
    PutOperand(op, e, p, At(op, e, p));
  }

  lemma CombineSwap(op: Op, x: Tri, y: Tri, x0: Tri, y0: Tri, a: Tri, b: Tri)
    requires Combine(op, x, y) == Combine(op, x0, y0)
    ensures Combine(op, Combine(op, x, a), Combine(op, y, b)) == Combine(op, Combine(op, x0, a), Combine(op, y0, b))
    ensures Combine(op, Combine(op, y, b), Combine(op, x, a)) == Combine(op, Combine(op, x0, a), Combine(op, y0, b))
    ensures Combine(op, Combine(op, x0, a), Combine(op, y0, b)) == Combine(op, Combine(op, y0, b), Combine(op, x0, a))
  {
  }

  /** Two operands may be overwritten together when their combined value stays. */
  lemma {:induction false} PutTwoKeepsValue(op: Op, e: Expr, p: Path, x: Expr, q: Path, y: Expr, env: Env)
    requires IsOperand(op, e, p) && IsOperand(op, e, q) && p != q && !IsOp(op, x) && !IsOp(op, y)
    requires Combine(op, Eval(x, env), Eval(y, env)) ==
             Combine(op, Eval(At(op, e, p), env), Eval(At(op, e, q), env))
    ensures InChain(op, Put(op, e, p, x), q)
    ensures Eval(Put(op, Put(op, e, p, x), q, y), env) == Eval(e, env)
  {
    PutElsewhere(op, e, p, x, q);
    if p[0] == q[0] {
      PutTwoKeepsValue(op, Child(e, p[0]), p[1..], x, q[1..], y, env);
    } else {
      PutTwoSides(op, e, p, x, q, y, env);
    }
  }

  lemma PutTwoSides(op: Op, e: Expr, p: Path, x: Expr, q: Path, y: Expr, env: Env)
    requires IsOperand(op, e, p) && IsOperand(op, e, q) && p != [] && q != [] && p[0] != q[0]
    requires !IsOp(op, x) && !IsOp(op, y)
    requires Combine(op, Eval(x, env), Eval(y, env)) ==
             Combine(op, Eval(At(op, e, p), env), Eval(At(op, e, q), env))
    ensures InChain(op, Put(op, e, p, x), q)
    ensures Eval(Put(op, Put(op, e, p, x), q, y), env) == Eval(e, env)
  {
    var (ep, eq) := (Child(e, p[0]), Child(e, q[0]));
    var a := PutSwaps(op, ep, p[1..], x, env);
    var b := PutSwaps(op, eq, q[1..], y, env);
    var e1 := Put(op, e, p, x);
    assert e1 == WithChild(e, p[0], Put(op, ep, p[1..], x)) && Child(e1, q[0]) == eq;
    CombineSwap(op, Eval(x, env), Eval(y, env), Eval(At(op, e, p), env), Eval(At(op, e, q), env), a, b);
  }

  /** A neutral operand leaves work for expr_eliminate_yn. */
  lemma {:induction false} PutYnBreaksNormalForm(op: Op, e: Expr, p: Path, x: Expr)
    requires InChain(op, e, p) && p != []
    requires IsYesOrNo(x) || !YnFree(x)
    ensures !YnFree(Put(op, e, p, x))
  {
    if |p| > 1 {
      PutYnBreaksNormalForm(op, Child(e, p[0]), p[1..], x);
    }
  }
}
