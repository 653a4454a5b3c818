/** Where expr_eliminate_dups stops: the expressions no rule applies to. */
module ExprFixpoint {
  import opened Options
  import opened Tristate
  import opened Expressions
  import opened ExprJoining
  import opened ExprSlots
  import opened ExprDuplicates

  /** No two operands of a chain can be joined, none is absorbed, and so on inside the operands. */
  ghost predicate Irreducible(e: Expr)
    decreases Size(e)
  {
    e.Bin? ==>
      (forall p, q :: IsOperand(e.op, e, p) && IsOperand(e.op, e, q) && p != q ==>
        Join(e.op, At(e.op, e, p), At(e.op, e, q)).None?) &&
      (forall p, q :: IsOperand(e.op, e, p) && InChain(e.op, e, q) && p != q && At(e.op, e, p).Bin? ==>
        !Absorbs(e.op, At(e.op, e, p), At(e.op, e, q))) &&
      (forall p :: IsOperand(e.op, e, p) && Size(At(e.op, e, p)) < Size(e) ==> Irreducible(At(e.op, e, p)))
  }

  // ----- When the joining pass is idle -----

  predicate Idle1(x: Expr) {
    x.Bin? ==> Dups1(x.op, x, [], []).1 == 0
  }

  ghost predicate PairIdle1(op: Op, e: Expr, p: Path, q: Path) {
    IsOperand(op, e, p) && IsOperand(op, e, q) && p != q ==>
      Join(op, At(op, e, p), At(op, e, q)).None? && Idle1(At(op, e, p))
  }

  /** Every pair of slots at or below `p` and `q` is idle. */
  ghost predicate PairsIdle1(op: Op, e: Expr, p: Path, q: Path) {
    forall p', q' :: p <= p' && q <= q' ==> PairIdle1(op, e, p', q')
  }

  /** A slot at or below a connective is the connective or lies to one side of it. */
  lemma SidesOf(p: Path, p': Path)
    requires p <= p'
    ensures p' == p || p + [L] <= p' || p + [R] <= p'
  {
    if p' != p {
      assert p'[|p|] == L || p'[|p|] == R;
    }
  }

  lemma SplitPairs1(op: Op, e: Expr, p: Path, q: Path)
    requires InChain(op, e, p) && InChain(op, e, q)
    ensures IsOp(op, At(op, e, p)) ==>
              (PairsIdle1(op, e, p, q) <==> PairsIdle1(op, e, p + [L], q) && PairsIdle1(op, e, p + [R], q))
    ensures IsOp(op, At(op, e, q)) ==>
              (PairsIdle1(op, e, p, q) <==> PairsIdle1(op, e, p, q + [L]) && PairsIdle1(op, e, p, q + [R]))
  {
    forall p', q' | p <= p' && q <= q'
      ensures p' == p || p + [L] <= p' || p + [R] <= p'
      ensures q' == q || q + [L] <= q' || q + [R] <= q'
      ensures PairIdle1(op, e, p', q') || !PairIdle1(op, e, p', q')
    {
      SidesOf(p, p');
      SidesOf(q, q');
    }
  }

  /** There are no slots below an operand. */
  lemma {:induction false} NothingBelowOperand(op: Op, e: Expr, p: Path, p': Path)
    requires IsOperand(op, e, p) && p <= p' && p' != p
    ensures !InChain(op, e, p')
  {
    if p != [] {
      NothingBelowOperand(op, Child(e, p[0]), p[1..], p'[1..]);
    }
  }

  lemma SinglePair1(op: Op, e: Expr, p: Path, q: Path)
    requires IsOperand(op, e, p) && IsOperand(op, e, q)
    ensures PairsIdle1(op, e, p, q) <==> PairIdle1(op, e, p, q)
  {
    forall p', q' | p <= p' && q <= q' && (p' != p || q' != q)
      ensures PairIdle1(op, e, p', q')
    {
      if p' != p {
        NothingBelowOperand(op, e, p, p');
      } else {
        NothingBelowOperand(op, e, q, q');
      }
    }
  }

  lemma {:induction false} Dups1IdleIff(op: Op, e: Expr, p: Path, q: Path)
    requires IsOp(op, e) && InChain(op, e, p) && InChain(op, e, q)
    ensures Dups1(op, e, p, q).1 == 0 <==> PairsIdle1(op, e, p, q)
    decreases ChainSize(op, At(op, e, p)), ChainSize(op, At(op, e, q))
  {
    PassedNothing(op, e);
    if IsOp(op, At(op, e, p)) {
      PassedSlots(op, e, e, 0, p, L, q);
      PassedSlots(op, e, e, 0, p, R, q);
      Dups1IdleIff(op, e, p + [L], q);
      Dups1IdleIff(op, e, p + [R], q);
      SplitPairs1(op, e, p, q);
    } else if IsOp(op, At(op, e, q)) {
      PassedSlots(op, e, e, 0, q, L, p);
      PassedSlots(op, e, e, 0, q, R, p);
      Dups1IdleIff(op, e, p, q + [L]);
      Dups1IdleIff(op, e, p, q + [R]);
      SplitPairs1(op, e, p, q);
    } else {
      SinglePair1(op, e, p, q);
    }
  }

  // ----- When the absorbing pass is idle -----

  predicate Idle2(x: Expr) {
    x.Bin? ==> Dups2(x.op, x, [], []).1 == 0
  }

  ghost predicate PairIdle2(op: Op, e: Expr, p: Path, q: Path) {
    IsOperand(op, e, p) && InChain(op, e, q) && p != q && At(op, e, p).Bin? ==>
      !Absorbs(op, At(op, e, p), At(op, e, q)) && Idle2(At(op, e, p))
  }

  ghost predicate PairsIdle2(op: Op, e: Expr, p: Path, q: Path) {
    forall p', q' :: p <= p' && q <= q' ==> PairIdle2(op, e, p', q')
  }

  lemma SplitPairs2(op: Op, e: Expr, p: Path, q: Path)
    requires InChain(op, e, p) && InChain(op, e, q)
    ensures IsOp(op, At(op, e, p)) ==>
              (PairsIdle2(op, e, p, q) <==> PairsIdle2(op, e, p + [L], q) && PairsIdle2(op, e, p + [R], q))
  {
    forall p', q' | p <= p' && q <= q'
      ensures p' == p || p + [L] <= p' || p + [R] <= p'
      ensures PairIdle2(op, e, p', q') || !PairIdle2(op, e, p', q')
    {
      SidesOf(p, p');
    }
  }

  /** The pairs of an operand with the slots at or below `q`. */
  lemma OperandPairs2(op: Op, e: Expr, p: Path, q: Path)
    requires IsOperand(op, e, p) && InChain(op, e, q)
    ensures PairsIdle2(op, e, p, q) <==>
            PairIdle2(op, e, p, q) &&
            (IsOp(op, At(op, e, q)) ==> PairsIdle2(op, e, p, q + [L]) && PairsIdle2(op, e, p, q + [R]))
  {
    forall p', q' | p <= p' && q <= q'
      ensures p' == p || PairIdle2(op, e, p', q')
      ensures q' == q || q + [L] <= q' || q + [R] <= q'
      ensures q' == q || IsOp(op, At(op, e, q)) || PairIdle2(op, e, p', q')
    {
      SidesOf(q, q');
      if p' != p {
        NothingBelowOperand(op, e, p, p');
      } else if q' != q && !IsOp(op, At(op, e, q)) {
        NothingBelowOperand(op, e, q, q');
      }
    }
  }

  lemma {:induction false} Dups2IdleIff(op: Op, e: Expr, p: Path, q: Path)
    requires IsOp(op, e) && InChain(op, e, p) && InChain(op, e, q)
    ensures Dups2(op, e, p, q).1 == 0 <==> PairsIdle2(op, e, p, q)
    decreases ChainSize(op, At(op, e, p)), ChainSize(op, At(op, e, q))
  {
    PassedNothing(op, e);
    if IsOp(op, At(op, e, p)) {
      PassedSlots(op, e, e, 0, p, L, q);
      PassedSlots(op, e, e, 0, p, R, q);
      Dups2IdleIff(op, e, p + [L], q);
      Dups2IdleIff(op, e, p + [R], q);
      SplitPairs2(op, e, p, q);
    } else {
      OperandPairs2(op, e, p, q);
      if IsOp(op, At(op, e, q)) {
        PassedSlots(op, e, e, 0, q, L, p);
        PassedSlots(op, e, e, 0, q, R, p);
        Dups2IdleIff(op, e, p, q + [L]);
        Dups2IdleIff(op, e, p, q + [R]);
      }
      OperandIdle2(op, e, p, q);
    }
  }

  /** The visit to one operand is idle when the visits to its counterpart's sides and its own are. */
  lemma OperandIdle2(op: Op, e: Expr, p: Path, q: Path)
    requires IsOp(op, e) && IsOperand(op, e, p) && InChain(op, e, q)
    ensures Dups2(op, e, p, q).1 == 0 <==> Dups2Below(op, e, p, q).1 == 0 && PairIdle2(op, e, p, q)
  {
    var (e1, n1) := Dups2Below(op, e, p, q);
    if n1 == 0 && p != q && At(op, e, p).Bin? {
      var x := At(op, e, p);
      AtSize(op, e, p);
      var (x', n2) := Dups2(x.op, x, [], []);
      PassedInside(op, e, p, x', n2);
    }
  }

  // ----- The fixed points -----

  lemma {:induction false} OperandIsSmaller(op: Op, e: Expr, p: Path)
    requires IsOp(op, e) && IsOperand(op, e, p)
    ensures Size(At(op, e, p)) < Size(e)
  {
    AtSize(op, e, p);
  }

  /** Every chain has an operand on either side. */
  lemma {:induction false} SomeOperand(op: Op, e: Expr) returns (p: Path)
    ensures IsOperand(op, e, p)
  {
    if IsOp(op, e) {
      var q := SomeOperand(op, e.left);
      p := [L] + q;
      assert p[1..] == q;
    } else {
      p := [];
    }
  }

  lemma AnotherOperand(op: Op, e: Expr, p: Path) returns (q: Path)
    requires IsOp(op, e) && IsOperand(op, e, p)
    ensures IsOperand(op, e, q) && q != p
  {
    var d := if p[0] == L then R else L;
    var r := SomeOperand(op, Child(e, d));
    q := [d] + r;
    assert q[1..] == r;
  }

  /** A round rewrites nothing exactly when no rule applies anywhere. */
  lemma {:induction false} RoundIdleIff(e: Expr)
    ensures Round(e).1 == 0 <==> Irreducible(e)
    decreases Size(e)
  {
    if e.Bin? {
      var op := e.op;
      Dups1IdleIff(op, e, [], []);
      Dups2IdleIff(op, e, [], []);
      PassedNothing(op, e);
      forall p | IsOperand(op, e, p)
        ensures Size(At(op, e, p)) < Size(e)
        ensures Irreducible(At(op, e, p)) <==> Idle1(At(op, e, p)) && Idle2(At(op, e, p))
      {
        OperandIsSmaller(op, e, p);
        RoundIdleIff(At(op, e, p));
      }
      if Round(e).1 == 0 {
        IdleImpliesIrreducible(e);
      }
      if Irreducible(e) {
        assert PairsIdle1(op, e, [], []);
        assert PairsIdle2(op, e, [], []);
      }
    }
  }

  lemma IdleImpliesIrreducible(e: Expr)
    requires e.Bin?
    requires PairsIdle1(e.op, e, [], []) && PairsIdle2(e.op, e, [], [])
    requires forall p :: IsOperand(e.op, e, p) ==>
               (Irreducible(At(e.op, e, p)) <==> Idle1(At(e.op, e, p)) && Idle2(At(e.op, e, p)))
    ensures Irreducible(e)
  {
    var op := e.op;
    forall p, q | IsOperand(op, e, p) && IsOperand(op, e, q) && p != q
      ensures Join(op, At(op, e, p), At(op, e, q)).None?
    {
      assert [] <= p && [] <= q && PairIdle1(op, e, p, q);
    }
    forall p, q | IsOperand(op, e, p) && InChain(op, e, q) && p != q && At(op, e, p).Bin?
      ensures !Absorbs(op, At(op, e, p), At(op, e, q))
    {
      assert [] <= p && [] <= q && PairIdle2(op, e, p, q);
    }
    forall p | IsOperand(op, e, p)
      ensures Irreducible(At(op, e, p))
    {
      var q := AnotherOperand(op, e, p);
      assert [] <= p && [] <= q && PairIdle1(op, e, p, q) && PairIdle2(op, e, p, q);
    }
  }

  /** expr_eliminate_dups stops at an irreducible expression, and at once when it is given one. */
  lemma {:induction false} EliminateDupsIrreducible(e: Expr)
    ensures Irreducible(EliminateDups(e))
    ensures EliminateDups(e) == e <==> Irreducible(e)
    ensures EliminateDups(e) == e || YnFree(EliminateDups(e))
    ensures !Irreducible(e) ==> Size(EliminateDups(e)) < Size(e)
    decreases Size(e)
  {
    var (e1, n) := Round(e);
    RoundIdleIff(e);
    if n > 0 {
      EliminateYnNormal(e1);
      EliminateDupsIrreducible(EliminateYn(e1));
    }
  }
}
