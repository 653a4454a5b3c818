/** An expression whose value m expr_eliminate_dups turns into y. */
module ExprDecided {
  import opened Options
  import opened Tristate
  import opened Symbols
  import opened Expressions
  import opened ExprTransformation
  import opened ExprEquality
  import opened ExprJoining
  import opened ExprSlots
  import opened ExprDuplicates
  import opened ExprFixpoint

  const A: Symbol := Config("A", ThreeState)
  const B: Symbol := Config("B", ThreeState)

  const NOT_A: Expr := Not(Sym(A))
  const NOT_B: Expr := Not(Sym(B))
  const BOTH: Expr := Bin(And, Sym(A), Sym(B))
  const NOT_BOTH: Expr := Bin(Or, NOT_A, NOT_B)

  /** `A && B || !A || !B` */
  const EITHER_WAY: Expr := Bin(Or, BOTH, NOT_BOTH)

  lemma Slots()
    ensures At(Or, EITHER_WAY, [L]) == BOTH && IsOperand(Or, EITHER_WAY, [L])
    ensures InChain(Or, EITHER_WAY, [R]) && At(Or, EITHER_WAY, [R]) == NOT_BOTH
    ensures At(Or, EITHER_WAY, [R, L]) == NOT_A && IsOperand(Or, EITHER_WAY, [R, L])
    ensures At(Or, EITHER_WAY, [R, R]) == NOT_B && IsOperand(Or, EITHER_WAY, [R, R])
  {
    assert [R, L][1..] == [L] && [R, R][1..] == [R];
    assert [L][1..] == [] && [R][1..] == [];
    assert At(Or, NOT_BOTH, [L]) == NOT_A && At(Or, NOT_BOTH, [R]) == NOT_B;
  }

  lemma Paths()
    ensures [] + [L] == [L] && [] + [R] == [R] && [R] + [L] == [R, L] && [R] + [R] == [R, R]
    ensures At(Or, EITHER_WAY, []) == EITHER_WAY
  {
  }

  lemma NothingBelow(op: Op, e: Expr, p: Path)
    requires InChain(op, e, p) && !IsOp(op, e)
    ensures p == []
  {
  }

  lemma OnlySlots(p: Path)
    requires IsOperand(Or, EITHER_WAY, p)
    ensures p == [L] || p == [R, L] || p == [R, R]
  {
    assert p == [p[0]] + p[1..] && InChain(Or, Child(EITHER_WAY, p[0]), p[1..]);
    if p[0] == L {
      NothingBelow(Or, BOTH, p[1..]);
    } else {
      OnlySlotsOfPair(Or, NOT_A, NOT_B, p[1..]);
    }
  }

  lemma OnlySlotsOfPair(op: Op, l: Expr, r: Expr, p: Path)
    requires IsOperand(op, Bin(op, l, r), p) && !IsOp(op, l) && !IsOp(op, r)
    ensures (p == [L] && At(op, Bin(op, l, r), p) == l) || (p == [R] && At(op, Bin(op, l, r), p) == r)
  {
    assert p == [p[0]] + p[1..];
    NothingBelow(op, Child(Bin(op, l, r), p[0]), p[1..]);
  }

  // ----- The joining pass finds nothing -----

  lemma BothIdle1()
    ensures Idle1(BOTH)
  {
    forall p, q | [] <= p && [] <= q ensures PairIdle1(And, BOTH, p, q) {
      if IsOperand(And, BOTH, p) && IsOperand(And, BOTH, q) && p != q {
        OnlySlotsOfPair(And, Sym(A), Sym(B), p);
        OnlySlotsOfPair(And, Sym(A), Sym(B), q);
        assert Join(And, Sym(A), Sym(B)).None? && Join(And, Sym(B), Sym(A)).None?;
      }
    }
    Dups1IdleIff(And, BOTH, [], []);
  }

  lemma NoJoins()
    ensures Join(Or, BOTH, NOT_A).None? && Join(Or, NOT_A, BOTH).None?
    ensures Join(Or, BOTH, NOT_B).None? && Join(Or, NOT_B, BOTH).None?
    ensures Join(Or, NOT_A, NOT_B).None? && Join(Or, NOT_B, NOT_A).None?
  {
  }

  lemma JoiningIdle()
    ensures Dups1(Or, EITHER_WAY, [], []) == (EITHER_WAY, 0)
  {
    Slots();
    NoJoins();
    BothIdle1();
    hide Join, Dups1, At, InChain;
    forall p, q | [] <= p && [] <= q ensures PairIdle1(Or, EITHER_WAY, p, q) {
      if IsOperand(Or, EITHER_WAY, p) && IsOperand(Or, EITHER_WAY, q) && p != q {
        OnlySlots(p);
        OnlySlots(q);
      }
    }
    Dups1IdleIff(Or, EITHER_WAY, [], []);
  }

  // ----- The absorbing pass -----

  /** Only an operand that is a chain itself can be absorbed. */
  lemma {:induction false} AtomStays(op: Op, e: Expr, p: Path, q: Path)
    requires IsOp(op, e) && IsOperand(op, e, p) && InChain(op, e, q) && !At(op, e, p).Bin?
    ensures Dups2Below(op, e, p, q) == (e, 0) && Dups2(op, e, p, q) == (e, 0)
    decreases ChainSize(op, At(op, e, q))
  {
    if IsOp(op, At(op, e, q)) {
      PassedNothing(op, e);
      PassedSlots(op, e, e, 0, q, L, p);
      PassedSlots(op, e, e, 0, q, R, p);
      AtomStays(op, e, p, q + [L]);
      AtomStays(op, e, p, q + [R]);
    }
  }

  lemma BothIdle2()
    ensures Dups2(And, BOTH, [], []) == (BOTH, 0)
  {
    Paths();
    assert At(And, BOTH, [L]) == Sym(A) && At(And, BOTH, [R]) == Sym(B);
    AtomStays(And, BOTH, [L], []);
    AtomStays(And, BOTH, [R], []);
  }

  lemma Negated()
    ensures Transform(Not(BOTH)) == NOT_BOTH
  {
    assert Transform(BOTH) == BOTH;
    assert Transform(NOT_A) == NOT_A && Transform(NOT_B) == NOT_B;
    assert DeMorgan(And, Sym(A), Sym(B)) == NOT_BOTH;
    assert Transform(NOT_BOTH) == NOT_BOTH;
  }

  /** One part of the negation is not enough, both are. */
  lemma AbsorbedByBoth()
    ensures !Absorbs(Or, BOTH, NOT_A) && !Absorbs(Or, BOTH, NOT_B) && Absorbs(Or, BOTH, NOT_BOTH)
  {
    Negated();
    PartsDiffer();
    StruckOne();
    StruckBoth();
    hide Transform, ExtractEqTop;
  }

  lemma PartsDiffer()
    ensures ExprEq(NOT_A, NOT_A) && ExprEq(NOT_B, NOT_B) && !ExprEq(NOT_A, NOT_B) && !ExprEq(NOT_B, NOT_A)
    ensures var n := Sym(ConstNo);
            !ExprEq(NOT_A, n) && !ExprEq(NOT_B, n) && !ExprEq(n, NOT_A) && !ExprEq(n, NOT_B)
  {
    assert ExprEq(Sym(A), Sym(A)) && ExprEq(Sym(B), Sym(B)) && !ExprEq(Sym(A), Sym(B)) && !ExprEq(Sym(B), Sym(A));
  }

  lemma StruckOne()
    ensures ExtractEqTop(Or, NOT_BOTH, NOT_A).rest1 == NOT_B && ExtractEqTop(Or, NOT_BOTH, NOT_B).rest1 == NOT_A
  {
    PartsDiffer();
    hide ExprEq;
    var n := Sym(ConstNo);
    assert ExtractEq(Or, None, NOT_A, NOT_A) == Extraction(Some(NOT_A), n, n);
    assert ExtractEq(Or, Some(NOT_A), NOT_B, n) == Extraction(Some(NOT_A), NOT_B, n);
    assert ExtractEq(Or, None, NOT_BOTH, NOT_A).rest1 == Bin(Or, n, NOT_B);
    assert ExtractEq(Or, None, NOT_A, NOT_B) == Extraction(None, NOT_A, NOT_B);
    assert ExtractEq(Or, None, NOT_B, NOT_B) == Extraction(Some(NOT_B), n, n);
    assert ExtractEq(Or, None, NOT_BOTH, NOT_B).rest1 == Bin(Or, NOT_A, n);
  }

  lemma StruckBoth()
    ensures ExtractEqTop(Or, NOT_BOTH, NOT_BOTH).rest1 == Sym(ConstNo)
  {
    PartsDiffer();
    hide ExprEq;
    var n := Sym(ConstNo);
    assert ExtractEq(Or, None, NOT_A, NOT_BOTH) == Extraction(Some(NOT_A), n, Bin(Or, n, NOT_B));
    var y := ExtractEq(Or, Some(NOT_A), NOT_B, Bin(Or, n, NOT_B));
    assert y == Extraction(Some(Bin(Or, NOT_A, NOT_B)), n, Bin(Or, n, n));
    assert ExtractEq(Or, None, NOT_BOTH, NOT_BOTH).rest1 == Bin(Or, n, n);
  }

  lemma PutBack()
    ensures Put(Or, EITHER_WAY, [L], BOTH) == EITHER_WAY
    ensures Put(Or, EITHER_WAY, [L], Sym(ConstYes)) == Bin(Or, Sym(ConstYes), NOT_BOTH)
  {
    assert [L][1..] == [];
  }

  lemma VisitPart(q: Path)
    requires q == [R, L] || q == [R, R]
    ensures InChain(Or, EITHER_WAY, q) && Dups2(Or, EITHER_WAY, [L], q) == (EITHER_WAY, 0)
  {
    Slots();
    BothIdle2();
    AbsorbedByBoth();
    PutBack();
    hide Absorbs, At, InChain, Put;
    assert Dups2Below(Or, EITHER_WAY, [L], q) == (EITHER_WAY, 0);
  }

  lemma VisitParts()
    ensures InChain(Or, EITHER_WAY, [R])
    ensures Dups2(Or, EITHER_WAY, [L], [R]) == (Bin(Or, Sym(ConstYes), NOT_BOTH), 1)
  {
    hide Absorbs, At, InChain, Put, Dups2Below;
    Slots();
    PartsBelow();
    BothIdle2();
    AbsorbedByBoth();
    PutBack();
  }

  lemma PartsBelow()
    ensures IsOperand(Or, EITHER_WAY, [L]) && InChain(Or, EITHER_WAY, [R])
    ensures Dups2Below(Or, EITHER_WAY, [L], [R]) == (EITHER_WAY, 0)
  {
    hide At, InChain, Dups2, Passed, SameChain, ChainSize, Put, Absorbs;
    Slots();
    Paths();
    VisitPart([R, L]);
    VisitPart([R, R]);
  }

  lemma VisitItself()
    ensures InChain(Or, EITHER_WAY, [L]) && Dups2(Or, EITHER_WAY, [L], [L]) == (EITHER_WAY, 0)
  {
    Slots();
    hide At, InChain;
    assert Dups2Below(Or, EITHER_WAY, [L], [L]) == (EITHER_WAY, 0);
  }

  lemma VisitSides()
    ensures IsOperand(Or, EITHER_WAY, [L]) && Dups2Below(Or, EITHER_WAY, [L], []) == (Bin(Or, Sym(ConstYes), NOT_BOTH), 1)
  {
    hide At, InChain, Dups2, Passed, SameChain, ChainSize, Put, Absorbs;
    Slots();
    Paths();
    VisitItself();
    VisitParts();
  }

  /** The chain with y in the place of its first operand. */
  lemma VisitFirst()
    ensures InChain(Or, EITHER_WAY, [L]) && Dups2(Or, EITHER_WAY, [L], []) == (Bin(Or, Sym(ConstYes), NOT_BOTH), 1)
  {
    Slots();
    VisitSides();
    var e := Bin(Or, Sym(ConstYes), NOT_BOTH);
    assert InChain(Or, e, [L]) && At(Or, e, [L]) == Sym(ConstYes);
    hide At, InChain, Dups2Below, Absorbs, Put;
  }

  /** With A and B at m the expression is m, and what expr_eliminate_dups makes of it is y. */
  lemma EliminateDupsDecides(env: Env)
    requires BooleansDefinite(env) && env.tri(A) == MOD && env.tri(B) == MOD
    ensures Eval(EITHER_WAY, env) == MOD && Eval(EliminateDups(EITHER_WAY), env) == YES
  {
    hide Dups1, Dups2, Eval;
    Values(env);
    AbsorbingDecides(env);
    JoiningIdle();
    var (e2, n) := Dups2(Or, EITHER_WAY, [], []);
    assert Round(EITHER_WAY) == (e2, n);
    if n > 0 {
      EliminateYnNormal(e2);
      EliminateYnExact(e2, env);
      EliminateDupsRefines(EliminateYn(e2), env);
    }
  }

  lemma Values(env: Env)
    requires env.tri(A) == MOD && env.tri(B) == MOD
    ensures Eval(EITHER_WAY, env) == MOD && Eval(Bin(Or, Sym(ConstYes), NOT_BOTH), env) == YES
  {
    assert Eval(Sym(A), env) == MOD && Eval(Sym(B), env) == MOD;
    assert Eval(BOTH, env) == MOD && Eval(NOT_A, env) == MOD && Eval(NOT_B, env) == MOD;
    assert Eval(NOT_BOTH, env) == MOD;
  }

  /** After the first operand has become y, the rest of the pass cannot change that. */
  lemma AbsorbingDecides(env: Env)
    requires BooleansDefinite(env) && env.tri(A) == MOD && env.tri(B) == MOD
    ensures Eval(Dups2(Or, EITHER_WAY, [], []).0, env) == YES
  {
    Values(env);
    VisitFirst();
    var e := Bin(Or, Sym(ConstYes), NOT_BOTH);
    Paths();
    assert InChain(Or, e, [R]);
    Dups2Refines(Or, e, [R], [], env);
    hide At, Eval;
    assert Dups2(Or, EITHER_WAY, [], []).0 == Dups2(Or, e, [R], []).0;
  }
}
