/** expr_eliminate_dups: joining and absorbing the operands of a chain until nothing changes. */
module ExprDuplicates {
  import opened Tristate
  import opened Symbols
  import opened Expressions
  import opened ExprTransformation
  import opened ExprJoining
  import opened ExprSlots

  /**
   * What one traversal with `n` rewrites may do to a chain: operands change, the chain does not;
   * nothing grows; every rewrite leaves a y or n behind for expr_eliminate_yn.
   */
  predicate Passed(op: Op, e: Expr, e': Expr, n: nat) {
    SameChain(op, e, e') && Size(e') <= Size(e) && if n == 0 then e' == e else !YnFree(e')
  }

  lemma PassedNothing(op: Op, e: Expr)
    ensures Passed(op, e, e, 0)
  {
    SameChainReflexive(op, e);
  }

  lemma PassedTwice(op: Op, e: Expr, e1: Expr, n1: nat, e2: Expr, n2: nat)
    requires Passed(op, e, e1, n1) && Passed(op, e1, e2, n2)
    ensures Passed(op, e, e2, n1 + n2)
  {
    SameChainTransitive(op, e, e1, e2);
  }

  /** After a pass, the slots below a chain node are where they were. */
  lemma PassedSlots(op: Op, e: Expr, e': Expr, n: nat, p: Path, d: Dir, q: Path)
    requires Passed(op, e, e', n)
    requires InChain(op, e, p) && IsOp(op, At(op, e, p)) && InChain(op, e, q)
    ensures InChain(op, e', p + [d]) && ChainSize(op, At(op, e', p + [d])) < ChainSize(op, At(op, e, p))
    ensures InChain(op, e', q) && ChainSize(op, At(op, e', q)) == ChainSize(op, At(op, e, q))
    ensures IsOp(op, At(op, e', q)) <==> IsOp(op, At(op, e, q))
  {
    Descend(op, e, p, d);
    SameChainSlots(op, e, e', p + [d]);
    SameChainSlots(op, e, e', q);
  }

  /** Rewriting one operand by a pass of its own. */
  lemma PassedInside(op: Op, e: Expr, p: Path, x': Expr, n: nat)
    requires IsOp(op, e) && IsOperand(op, e, p)
    requires var x := At(op, e, p); x.Bin? && Passed(x.op, x, x', n)
    ensures Passed(op, e, Put(op, e, p, x'), n)
    ensures IsOperand(op, Put(op, e, p, x'), p) && At(op, Put(op, e, p, x'), p) == x'
  {
    PutOperand(op, e, p, x');
    if n > 0 {
      PutYnBreaksNormalForm(op, e, p, x');
    }
  }

  // ----- expr_eliminate_dups1 -----

  /** The join of two different operands: the first becomes neutral, the second the joined one. */
  function JoinOperands(op: Op, e: Expr, p: Path, q: Path): (r: (Expr, nat))
    requires IsOp(op, e) && IsOperand(op, e, p) && IsOperand(op, e, q) && p != q
    ensures Passed(op, e, r.0, r.1)
  {
    var j := Join(op, At(op, e, p), At(op, e, q));
    if j.None? then
      PassedNothing(op, e);
      (e, 0)
    else
      JoinShape(op, At(op, e, p), At(op, e, q));
      PutOperand(op, e, p, UnitExpr(op));
      PutElsewhere(op, e, p, UnitExpr(op), q);
      var e1 := Put(op, e, p, UnitExpr(op));
      PutOperand(op, e1, q, j.value);
      PutElsewhere(op, e1, q, j.value, p);
      SameChainTransitive(op, e, e1, Put(op, e1, q, j.value));
      YnOperand(op, Put(op, e1, q, j.value), p);
      (Put(op, e1, q, j.value), 1)
  }

  lemma {:induction false} YnOperand(op: Op, e: Expr, p: Path)
    requires InChain(op, e, p) && p != [] && IsYesOrNo(At(op, e, p))
    ensures !YnFree(e)
  {
    if |p| > 1 {
      YnOperand(op, Child(e, p[0]), p[1..]);
    } else {
      assert At(op, Child(e, p[0]), p[1..]) == Child(e, p[0]);
    }
  }

  /** expr_eliminate_dups1 on the slots `p` and `q` of the chain `e`, with the rewrites counted. */
  function Dups1(op: Op, e: Expr, p: Path, q: Path): (r: (Expr, nat))
    requires IsOp(op, e) && InChain(op, e, p) && InChain(op, e, q)
    ensures Passed(op, e, r.0, r.1)
    decreases Size(e), ChainSize(op, At(op, e, p)), ChainSize(op, At(op, e, q))
  {
    PassedNothing(op, e);
    if IsOp(op, At(op, e, p)) then
      PassedSlots(op, e, e, 0, p, L, q);
      var (e1, n1) := Dups1(op, e, p + [L], q);
      PassedSlots(op, e, e1, n1, p, R, q);
      var (e2, n2) := Dups1(op, e1, p + [R], q);
      PassedTwice(op, e, e1, n1, e2, n2);
      (e2, n1 + n2)
    else if IsOp(op, At(op, e, q)) then
      PassedSlots(op, e, e, 0, q, L, p);
      var (e1, n1) := Dups1(op, e, p, q + [L]);
      PassedSlots(op, e, e1, n1, q, R, p);
      var (e2, n2) := Dups1(op, e1, p, q + [R]);
      PassedTwice(op, e, e1, n1, e2, n2);
      (e2, n1 + n2)
    else if p == q then (e, 0)
    else
      var (e1, n1) := Dups1Inside(op, e, p);
      SameChainSlots(op, e, e1, p);
      SameChainSlots(op, e, e1, q);
      var (e2, n2) := JoinOperands(op, e1, p, q);
      PassedTwice(op, e, e1, n1, e2, n2);
      (e2, n1 + n2)
  }

  /** The pass over the operand `p` itself, when it is a chain of the other connective. */
  function Dups1Inside(op: Op, e: Expr, p: Path): (r: (Expr, nat))
    requires IsOp(op, e) && IsOperand(op, e, p)
    ensures Passed(op, e, r.0, r.1)
    decreases Size(e), 0
  {
    var x := At(op, e, p);
    if x.Bin? then
      AtSize(op, e, p);
      var (x', n) := Dups1(x.op, x, [], []);
      PassedInside(op, e, p, x', n);
      (Put(op, e, p, x'), n)
    else
      PassedNothing(op, e);
      (e, 0)
  }

  // ----- expr_eliminate_dups2 -----

  /** Whether the negation of the operand `x` has all its parts among those of `y`. */
  predicate Absorbs(op: Op, x: Expr, y: Expr) {
    ExtractEqTop(op, Transform(Not(x)), y).rest1 == UnitExpr(op)
  }

  /** expr_eliminate_dups2 on the slots `p` and `q` of the chain `e`, with the rewrites counted. */
  function Dups2(op: Op, e: Expr, p: Path, q: Path): (r: (Expr, nat))
    requires IsOp(op, e) && InChain(op, e, p) && InChain(op, e, q)
    ensures Passed(op, e, r.0, r.1)
    decreases Size(e), ChainSize(op, At(op, e, p)), ChainSize(op, At(op, e, q)), 1
  {
    PassedNothing(op, e);
    if IsOp(op, At(op, e, p)) then
      PassedSlots(op, e, e, 0, p, L, q);
      var (e1, n1) := Dups2(op, e, p + [L], q);
      PassedSlots(op, e, e1, n1, p, R, q);
      var (e2, n2) := Dups2(op, e1, p + [R], q);
      PassedTwice(op, e, e1, n1, e2, n2);
      (e2, n1 + n2)
    else
      var (e1, n1) := Dups2Below(op, e, p, q);
      SameChainSlots(op, e, e1, p);
      SameChainSlots(op, e, e1, q);
      if p == q || !At(op, e1, p).Bin? then (e1, n1)
      else
        var x := At(op, e1, p);
        AtSize(op, e1, p);
        var (x', n2) := Dups2(x.op, x, [], []);
        PassedInside(op, e1, p, x', n2);
        var e2 := Put(op, e1, p, x');
        PassedTwice(op, e, e1, n1, e2, n2);
        SameChainSlots(op, e, e2, q);
        if Absorbs(op, x', At(op, e2, q)) then
          PassedAbsorb(op, e2, p);
          PassedTwice(op, e, e2, n1 + n2, Put(op, e2, p, ZeroExpr(op)), 1);
          (Put(op, e2, p, ZeroExpr(op)), n1 + n2 + 1)
        else (e2, n1 + n2)
  }

  /** The visits to the two sides of the slot `q`, when it is a connective of the chain. */
  function Dups2Below(op: Op, e: Expr, p: Path, q: Path): (r: (Expr, nat))
    requires IsOp(op, e) && IsOperand(op, e, p) && InChain(op, e, q)
    ensures Passed(op, e, r.0, r.1)
    decreases Size(e), ChainSize(op, At(op, e, p)), ChainSize(op, At(op, e, q)), 0
  {
    PassedNothing(op, e);
    if IsOp(op, At(op, e, q)) then
      PassedSlots(op, e, e, 0, q, L, p);
      var (e1, n1) := Dups2(op, e, p, q + [L]);
      PassedSlots(op, e, e1, n1, q, R, p);
      var (e2, n2) := Dups2(op, e1, p, q + [R]);
      PassedTwice(op, e, e1, n1, e2, n2);
      (e2, n1 + n2)
    else (e, 0)
  }

  lemma PassedAbsorb(op: Op, e: Expr, p: Path)
    requires IsOp(op, e) && IsOperand(op, e, p)
    ensures Passed(op, e, Put(op, e, p, ZeroExpr(op)), 1)
  {
    PutOperand(op, e, p, ZeroExpr(op));
    PutYnBreaksNormalForm(op, e, p, ZeroExpr(op));
  }

  // ----- expr_eliminate_dups -----

  /** One round of both passes over the whole tree. */
  function Round(e: Expr): (r: (Expr, nat))
    ensures Size(r.0) <= Size(e) && if r.1 == 0 then r.0 == e else !YnFree(r.0)
  {
    if e.Bin? then
      var (e1, n1) := Dups1(e.op, e, [], []);
      var (e2, n2) := Dups2(e.op, e1, [], []);
      PassedTwice(e.op, e, e1, n1, e2, n2);
      (e2, n1 + n2)
    else (e, 0)
  }

  /** expr_eliminate_dups; each round that rewrites something shrinks the tree. */
  function EliminateDups(e: Expr): (r: Expr)
    decreases Size(e)
  {
    var (e1, n) := Round(e);
    if n == 0 then e1
    else
      EliminateYnNormal(e1);
      EliminateDups(EliminateYn(e1))
  }

  // ----- Meaning -----

  lemma JoinOperandsExact(op: Op, e: Expr, p: Path, q: Path, env: Env)
    requires BooleansDefinite(env)
    requires IsOp(op, e) && IsOperand(op, e, p) && IsOperand(op, e, q) && p != q
    ensures Eval(JoinOperands(op, e, p, q).0, env) == Eval(e, env)
  {
    var j := Join(op, At(op, e, p), At(op, e, q));
    if j.Some? {
      JoinExact(op, At(op, e, p), At(op, e, q), env);
      JoinShape(op, At(op, e, p), At(op, e, q));
      PutTwoKeepsValue(op, e, p, UnitExpr(op), q, j.value, env);
    }
  }

  /** The joining pass keeps the value, whatever slots of one tree it is started on. */
  lemma {:induction false} Dups1Exact(op: Op, e: Expr, p: Path, q: Path, env: Env)
    requires BooleansDefinite(env)
    requires IsOp(op, e) && InChain(op, e, p) && InChain(op, e, q)
    ensures Eval(Dups1(op, e, p, q).0, env) == Eval(e, env)
    decreases Size(e), ChainSize(op, At(op, e, p)), ChainSize(op, At(op, e, q))
  {
    PassedNothing(op, e);
    if IsOp(op, At(op, e, p)) {
      PassedSlots(op, e, e, 0, p, L, q);
      var (e1, n1) := Dups1(op, e, p + [L], q);
      PassedSlots(op, e, e1, n1, p, R, q);
      Dups1Exact(op, e, p + [L], q, env);
      Dups1Exact(op, e1, p + [R], q, env);
    } else if IsOp(op, At(op, e, q)) {
      PassedSlots(op, e, e, 0, q, L, p);
      var (e1, n1) := Dups1(op, e, p, q + [L]);
      PassedSlots(op, e, e1, n1, q, R, p);
      Dups1Exact(op, e, p, q + [L], env);
      Dups1Exact(op, e1, p, q + [R], env);
    } else if p != q {
      var (e1, n1) := Dups1Inside(op, e, p);
      Dups1InsideExact(op, e, p, env);
      SameChainSlots(op, e, e1, p);
      SameChainSlots(op, e, e1, q);
      JoinOperandsExact(op, e1, p, q, env);
    }
  }

  lemma {:induction false} Dups1InsideExact(op: Op, e: Expr, p: Path, env: Env)
    requires BooleansDefinite(env)
    requires IsOp(op, e) && IsOperand(op, e, p)
    ensures Eval(Dups1Inside(op, e, p).0, env) == Eval(e, env)
    decreases Size(e), 0
  {
    var x := At(op, e, p);
    if x.Bin? {
      AtSize(op, e, p);
      Dups1Exact(x.op, x, [], [], env);
      PutKeepsValue(op, e, p, Dups1(x.op, x, [], []).0, env);
    }
  }

  /** Absorbing: if all parts of `!x` are parts of the chain, the chain with `x` is absurd, up to m. */
  lemma AbsorbRefines(op: Op, e: Expr, p: Path, q: Path, env: Env)
    requires BooleansDefinite(env)
    requires IsOperand(op, e, p) && InChain(op, e, q)
    requires Absorbs(op, At(op, e, p), At(op, e, q))
    ensures Refines(Eval(Put(op, e, p, ZeroExpr(op)), env), Eval(e, env))
  {
    var (x, y) := (At(op, e, p), At(op, e, q));
    TransformExact(Not(x), env);
    ExtractEqTopExact(op, Transform(Not(x)), y, env);
    ChainBound(op, e, p, env);
    ChainBound(op, e, q, env);
    PutContributes(op, e, p, ZeroExpr(op), env);
  }

  /** The absorbing pass decides m at most; it never changes y or n. */
  lemma {:induction false} Dups2Refines(op: Op, e: Expr, p: Path, q: Path, env: Env)
    requires BooleansDefinite(env)
    requires IsOp(op, e) && InChain(op, e, p) && InChain(op, e, q)
    ensures Refines(Eval(Dups2(op, e, p, q).0, env), Eval(e, env))
    decreases Size(e), ChainSize(op, At(op, e, p)), ChainSize(op, At(op, e, q)), 1
  {
    PassedNothing(op, e);
    if IsOp(op, At(op, e, p)) {
      PassedSlots(op, e, e, 0, p, L, q);
      var (e1, n1) := Dups2(op, e, p + [L], q);
      PassedSlots(op, e, e1, n1, p, R, q);
      Dups2Refines(op, e, p + [L], q, env);
      Dups2Refines(op, e1, p + [R], q, env);
    } else {
      var (e1, n1) := Dups2Below(op, e, p, q);
      Dups2BelowRefines(op, e, p, q, env);
      SameChainSlots(op, e, e1, p);
      SameChainSlots(op, e, e1, q);
      if p != q && At(op, e1, p).Bin? {
        var x := At(op, e1, p);
        AtSize(op, e1, p);
        var (x', n2) := Dups2(x.op, x, [], []);
        Dups2Refines(x.op, x, [], [], env);
        PassedInside(op, e1, p, x', n2);
        PutRefines(op, e1, p, x', env);
        var e2 := Put(op, e1, p, x');
        PassedTwice(op, e, e1, n1, e2, n2);
        SameChainSlots(op, e, e2, q);
        if Absorbs(op, x', At(op, e2, q)) {
          AbsorbRefines(op, e2, p, q, env);
        }
      }
    }
  }

  lemma {:induction false} Dups2BelowRefines(op: Op, e: Expr, p: Path, q: Path, env: Env)
    requires BooleansDefinite(env)
    requires IsOp(op, e) && IsOperand(op, e, p) && InChain(op, e, q)
    ensures Refines(Eval(Dups2Below(op, e, p, q).0, env), Eval(e, env))
    decreases Size(e), ChainSize(op, At(op, e, p)), ChainSize(op, At(op, e, q)), 0
  {
    PassedNothing(op, e);
    if IsOp(op, At(op, e, q)) {
      PassedSlots(op, e, e, 0, q, L, p);
      var (e1, n1) := Dups2(op, e, p, q + [L]);
      PassedSlots(op, e, e1, n1, q, R, p);
      Dups2Refines(op, e, p, q + [L], env);
      Dups2Refines(op, e1, p, q + [R], env);
    }
  }

  lemma RoundRefines(e: Expr, env: Env)
    requires BooleansDefinite(env)
    ensures Refines(Eval(Round(e).0, env), Eval(e, env))
  {
    if e.Bin? {
      Dups1Exact(e.op, e, [], [], env);
      Dups2Refines(e.op, Dups1(e.op, e, [], []).0, [], [], env);
    }
  }

  /** Simplification never changes a value of y or n; it may decide an m. */
  lemma {:induction false} EliminateDupsRefines(e: Expr, env: Env)
    requires BooleansDefinite(env)
    ensures Refines(Eval(EliminateDups(e), env), Eval(e, env))
    decreases Size(e)
  {
    var (e1, n) := Round(e);
    RoundRefines(e, env);
    if n > 0 {
      EliminateYnNormal(e1);
      EliminateYnExact(e1, env);
      EliminateDupsRefines(EliminateYn(e1), env);
    }
  }

  /** Without any m among its symbols an expression keeps its value exactly. */
  lemma EliminateDupsExactTwoValued(e: Expr, env: Env)
    requires BooleansDefinite(env) && TwoValued(e, env)
    ensures Eval(EliminateDups(e), env) == Eval(e, env)
  {
    TwoValuedIsDefinite(e, env);
    EliminateDupsRefines(e, env);
  }

  /** Absorbing is exact unless the chain is m: it then turns m into y or n. */
  lemma AbsorbExactIff(op: Op, e: Expr, p: Path, q: Path, env: Env)
    requires BooleansDefinite(env)
    requires IsOperand(op, e, p) && InChain(op, e, q)
    requires Absorbs(op, At(op, e, p), At(op, e, q))
    ensures Eval(Put(op, e, p, ZeroExpr(op)), env) == Eval(e, env) <==> Eval(e, env) != MOD
  {
    AbsorbRefines(op, e, p, q, env);
    PutContributes(op, e, p, ZeroExpr(op), env);
  }

  // ----- Normal forms -----

  lemma {:induction false} AtNnf(op: Op, e: Expr, p: Path)
    requires InChain(op, e, p) && IsNnf(e)
    ensures IsNnf(At(op, e, p))
  {
    if p != [] {
      AtNnf(op, Child(e, p[0]), p[1..]);
    }
  }

  lemma {:induction false} PutNnf(op: Op, e: Expr, p: Path, x: Expr)
    requires InChain(op, e, p) && IsNnf(e) && IsNnf(x)
    ensures IsNnf(Put(op, e, p, x))
  {
    if p != [] {
      PutNnf(op, Child(e, p[0]), p[1..], x);
    }
  }

  lemma JoinOperandsNnf(op: Op, e: Expr, p: Path, q: Path)
    requires IsOp(op, e) && IsOperand(op, e, p) && IsOperand(op, e, q) && p != q && IsNnf(e)
    ensures IsNnf(JoinOperands(op, e, p, q).0)
  {
    AtNnf(op, e, p);
    AtNnf(op, e, q);
    var j := Join(op, At(op, e, p), At(op, e, q));
    if j.Some? {
      JoinShape(op, At(op, e, p), At(op, e, q));
      PutNnf(op, e, p, UnitExpr(op));
      PutElsewhere(op, e, p, UnitExpr(op), q);
      PutNnf(op, Put(op, e, p, UnitExpr(op)), q, j.value);
    }
  }

  lemma {:induction false} Dups1Nnf(op: Op, e: Expr, p: Path, q: Path)
    requires IsOp(op, e) && InChain(op, e, p) && InChain(op, e, q) && IsNnf(e)
    ensures IsNnf(Dups1(op, e, p, q).0)
    decreases Size(e), ChainSize(op, At(op, e, p)), ChainSize(op, At(op, e, q))
  {
    PassedNothing(op, e);
    if IsOp(op, At(op, e, p)) {
      PassedSlots(op, e, e, 0, p, L, q);
      var (e1, n1) := Dups1(op, e, p + [L], q);
      PassedSlots(op, e, e1, n1, p, R, q);
      Dups1Nnf(op, e, p + [L], q);
      Dups1Nnf(op, e1, p + [R], q);
    } else if IsOp(op, At(op, e, q)) {
      PassedSlots(op, e, e, 0, q, L, p);
      var (e1, n1) := Dups1(op, e, p, q + [L]);
      PassedSlots(op, e, e1, n1, q, R, p);
      Dups1Nnf(op, e, p, q + [L]);
      Dups1Nnf(op, e1, p, q + [R]);
    } else if p != q {
      var (e1, n1) := Dups1Inside(op, e, p);
      var x := At(op, e, p);
      if x.Bin? {
        AtSize(op, e, p);
        AtNnf(op, e, p);
        Dups1Nnf(x.op, x, [], []);
        PutNnf(op, e, p, Dups1(x.op, x, [], []).0);
      }
      SameChainSlots(op, e, e1, p);
      SameChainSlots(op, e, e1, q);
      JoinOperandsNnf(op, e1, p, q);
    }
  }

  lemma {:induction false} Dups2Nnf(op: Op, e: Expr, p: Path, q: Path)
    requires IsOp(op, e) && InChain(op, e, p) && InChain(op, e, q) && IsNnf(e)
    ensures IsNnf(Dups2(op, e, p, q).0)
    decreases Size(e), ChainSize(op, At(op, e, p)), ChainSize(op, At(op, e, q)), 1
  {
    PassedNothing(op, e);
    if IsOp(op, At(op, e, p)) {
      PassedSlots(op, e, e, 0, p, L, q);
      var (e1, n1) := Dups2(op, e, p + [L], q);
      PassedSlots(op, e, e1, n1, p, R, q);
      Dups2Nnf(op, e, p + [L], q);
      Dups2Nnf(op, e1, p + [R], q);
    } else {
      var (e1, n1) := Dups2Below(op, e, p, q);
      if IsOp(op, At(op, e, q)) {
        PassedSlots(op, e, e, 0, q, L, p);
        var (e0, n0) := Dups2(op, e, p, q + [L]);
        PassedSlots(op, e, e0, n0, q, R, p);
        Dups2Nnf(op, e, p, q + [L]);
        Dups2Nnf(op, e0, p, q + [R]);
      }
      Dups2OperandNnf(op, e, e1, n1, p, q);
    }
  }

  lemma {:induction false} Dups2OperandNnf(op: Op, e: Expr, e1: Expr, n1: nat, p: Path, q: Path)
    requires IsOp(op, e) && IsOperand(op, e, p) && InChain(op, e, q)
    requires (e1, n1) == Dups2Below(op, e, p, q) && IsNnf(e1)
    ensures IsNnf(Dups2(op, e, p, q).0)
    decreases Size(e), ChainSize(op, At(op, e, p)), ChainSize(op, At(op, e, q)), 0
  {
    SameChainSlots(op, e, e1, p);
    SameChainSlots(op, e, e1, q);
    if p != q && At(op, e1, p).Bin? {
      var x := At(op, e1, p);
      AtSize(op, e1, p);
      AtNnf(op, e1, p);
      Dups2Nnf(x.op, x, [], []);
      var (x', n2) := Dups2(x.op, x, [], []);
      PassedInside(op, e1, p, x', n2);
      PutNnf(op, e1, p, x');
      PutNnf(op, Put(op, e1, p, x'), p, ZeroExpr(op));
    }
  }

  lemma {:induction false} EliminateYnNnf(e: Expr)
    requires IsNnf(e)
    ensures IsNnf(EliminateYn(e))
  {
    if e.Bin? {
      EliminateYnNnf(e.left);
      EliminateYnNnf(e.right);
    }
  }

  /** Simplification stays within the negation normal forms. */
  lemma {:induction false} EliminateDupsNnf(e: Expr)
    requires IsNnf(e)
    ensures IsNnf(EliminateDups(e))
    decreases Size(e)
  {
    var (e1, n) := Round(e);
    if e.Bin? {
      Dups1Nnf(e.op, e, [], []);
      Dups2Nnf(e.op, Dups1(e.op, e, [], []).0, [], []);
    }
    if n > 0 {
      EliminateYnNormal(e1);
      EliminateYnNnf(e1);
      EliminateDupsNnf(EliminateYn(e1));
    }
  }
}
