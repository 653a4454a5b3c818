/** What expr_eliminate_dups leaves no trace of, said of the expressions themselves. */
module ExprComplete {
  import opened Options
  import opened Tristate
  import opened Symbols
  import opened Expressions
  import opened ExprEquality
  import opened ExprTransformation
  import opened ExprJoining
  import opened ExprSlots
  import opened ExprDuplicates
  import opened ExprFixpoint

  // ----- Pairs that are joined -----

  /** `s='y' || s='m'` and the like; `s || !s` for a boolean. */
  predicate MergesOr(a: Expr, b: Expr) {
    (a.Cmp? && b.Cmp? && a.rel == b.rel == Equal && a.lhs == b.lhs && TypeOf(a.lhs) == ThreeState &&
     a.rhs != b.rhs && IsTristateConst(a.rhs) && IsTristateConst(b.rhs)) ||
    (a.Sym? && TypeOf(a.s) == Boolean && b == Not(a))
  }

  /** `s && s='y'`, `s && s!='n'`, `s='b' && s!='c'`, `s!='y' && s!='n'` and the like. */
  predicate MergesAnd(a: Expr, b: Expr) {
    (a.Sym? && (TypeOf(a.s) == Boolean || TypeOf(a.s) == ThreeState) && (b == Cmp(Equal, a.s, ConstYes) || b == Cmp(Unequal, a.s, ConstNo))) ||
    (a.Cmp? && b.Cmp? && a.lhs == b.lhs && TypeOf(a.lhs) == ThreeState && a.rel == Equal && b.rel == Unequal && IsConst(a.rhs) && IsConst(b.rhs)) ||
    (a.Cmp? && b.Cmp? && a.lhs == b.lhs && TypeOf(a.lhs) == ThreeState && a.rel == b.rel == Unequal &&
     a.rhs != b.rhs && IsTristateConst(a.rhs) && IsTristateConst(b.rhs))
  }

  predicate IsLeaf(e: Expr) {
    e.Sym? || e.Cmp? || (e.Not? && e.e.Sym?)
  }

  /** Two operands of an `op` chain of which one would do. */
  predicate Mergeable(op: Op, a: Expr, b: Expr) {
    ExprEq(a, b) || (a == b && IsLeaf(a)) || (if op == Or then MergesOr(a, b) || MergesOr(b, a) else MergesAnd(a, b) || MergesAnd(b, a))
  }

  lemma {:induction false} ExprEqAtom(x: Expr, b: Expr)
    requires IsAtom(x)
    ensures ExprEq(x, b) <==> b == x
  {
    match x
    case Sym(_) =>
    case Not(_) =>
    case Cmp(_, _, _) =>
  }

  lemma MergeableJoins(op: Op, a: Expr, b: Expr)
    requires Mergeable(op, a, b)
    ensures Join(op, a, b).Some?
  {
    if a == b && IsLeaf(a) {
      assert a.Not? ==> ExprEq(a.e, b.e);
      assert ExprEq(a, b);
    } else if ExprEq(a, b) {
    } else if op == Or {
      assert Subject1(a) == Subject2(b);
    } else {
      assert Subject1(a) == Subject2(b);
    }
  }

  // ----- Operands that are absorbed -----

  /** `z` is an operand of the `op` chain `x`. */
  predicate IsPart(op: Op, x: Expr, z: Expr) {
    if IsOp(op, x) then IsPart(op, x.left, z) || IsPart(op, x.right, z) else x == z
  }

  /** The negation of an atom as expr_transform writes it. */
  function Negated(z: Expr): Expr {
    match z
    case Not(y) => y
    case Cmp(rel, l, r) => Cmp(Flip(rel), l, r)
    case Sym(s) => if s == ConstMod then z else Not(z)
    case Bin(_, _, _) => z
  }

  /** No atom occurs twice in the chain. */
  ghost predicate PartsDiffer(op: Op, x: Expr) {
    IsOp(op, x) ==> PartsDiffer(op, x.left) && PartsDiffer(op, x.right) && forall z :: IsPart(op, x.left, z) ==> !IsPart(op, x.right, z)
  }

  /** Only neutral operands are left. */
  predicate AllUnits(op: Op, x: Expr) {
    if IsOp(op, x) then AllUnits(op, x.left) && AllUnits(op, x.right) else x == UnitExpr(op)
  }

  lemma {:induction false} AllUnitsVanish(op: Op, x: Expr)
    requires AllUnits(op, x)
    ensures EliminateYn(x) == UnitExpr(op)
  {
    if IsOp(op, x) {
      AllUnitsVanish(op, x.left);
      AllUnitsVanish(op, x.right);
    }
  }

  /** What has been struck out stays so. */
  lemma {:induction false} ExtractUnit(op: Op, common: Option<Expr>, b: Expr)
    ensures var r := ExtractEq(op, common, UnitExpr(op), b);
            r.rest1 == UnitExpr(op) && r.rest2 == b && (common.Some? ==> r.common.Some?)
    decreases b
  {
    if IsOp(op, b) {
      ExtractUnit(op, common, b.left);
      ExtractUnit(op, ExtractEq(op, common, UnitExpr(op), b.left).common, b.right);
    } else if ExprEq(UnitExpr(op), b) {
      assert b == UnitExpr(op);
    }
  }

  /** An atom is struck out if it occurs in the chain, and other atoms of the chain stay. */
  lemma {:induction false} ExtractAtom(op: Op, common: Option<Expr>, x: Expr, b: Expr)
    requires IsAtom(x)
    ensures var r := ExtractEq(op, common, x, b);
            (if IsPart(op, b, x) then r.rest1 == UnitExpr(op) && r.common.Some? else r.rest1 == x) &&
            (common.Some? ==> r.common.Some?) &&
            forall z :: IsAtom(z) && z != x && IsPart(op, b, z) ==> IsPart(op, r.rest2, z)
    decreases b
  {
    if IsOp(op, b) {
      ExtractAtom(op, common, x, b.left);
      var y := ExtractEq(op, common, x, b.left);
      if y.rest1 == x {
        ExtractAtom(op, y.common, x, b.right);
      } else {
        ExtractUnit(op, y.common, b.right);
      }
    } else {
      ExprEqAtom(x, b);
    }
  }

  /** A chain of different atoms that all occur in `b` is struck out altogether. */
  lemma {:induction false} ExtractChain(op: Op, common: Option<Expr>, a: Expr, b: Expr)
    requires IsAtomChain(op, a) && PartsDiffer(op, a)
    requires forall z :: IsPart(op, a, z) ==> IsPart(op, b, z)
    ensures var r := ExtractEq(op, common, a, b);
            AllUnits(op, r.rest1) && r.common.Some? &&
            forall z :: IsAtom(z) && !IsPart(op, a, z) && IsPart(op, b, z) ==> IsPart(op, r.rest2, z)
    decreases a
  {
    if IsOp(op, a) {
      ExtractChain(op, common, a.left, b);
      var y := ExtractEq(op, common, a.left, b);
      PartsAreAtoms(op, a.right);
      ExtractChain(op, y.common, a.right, y.rest2);
    } else {
      ExtractAtom(op, common, a, b);
    }
  }

  lemma {:induction false} PartsAreAtoms(op: Op, a: Expr)
    requires IsAtomChain(op, a)
    ensures forall z :: IsPart(op, a, z) ==> IsAtom(z)
  {
    if IsOp(op, a) {
      PartsAreAtoms(op, a.left);
      PartsAreAtoms(op, a.right);
    }
  }

  /** The negation of a chain of the other connective, operand by operand. */
  function NegatedChain(op: Op, x: Expr): Expr {
    if IsOp(Dual(op), x) then Bin(op, NegatedChain(op, x.left), NegatedChain(op, x.right)) else Negated(x)
  }

  lemma {:induction false} TransformNegates(op: Op, x: Expr)
    requires IsNnf(x) && IsAtomChain(Dual(op), x)
    ensures Transform(Not(x)) == NegatedChain(op, x)
  {
    NnfUnchanged(x);
    if IsOp(Dual(op), x) {
      TransformNegates(op, x.left);
      TransformNegates(op, x.right);
      assert Transform(Not(x)) == Transform(DeMorgan(Dual(op), x.left, x.right));
    } else if x.Sym? {
      assert Transform(x) == x;
    }
  }

  lemma {:induction false} NegatedParts(op: Op, x: Expr)
    requires IsNnf(x) && IsAtomChain(Dual(op), x)
    ensures IsAtomChain(op, NegatedChain(op, x))
    ensures forall w :: IsPart(op, NegatedChain(op, x), w) ==> exists z :: IsPart(Dual(op), x, z) && IsAtom(z) && IsNnf(z) && w == Negated(z)
    ensures PartsDiffer(Dual(op), x) ==> PartsDiffer(op, NegatedChain(op, x))
  {
    if IsOp(Dual(op), x) {
      NegatedParts(op, x.left);
      NegatedParts(op, x.right);
      if PartsDiffer(Dual(op), x) {
        forall w | IsPart(op, NegatedChain(op, x.left), w) ensures !IsPart(op, NegatedChain(op, x.right), w) {
          if IsPart(op, NegatedChain(op, x.right), w) {
            var z1 :| IsPart(Dual(op), x.left, z1) && IsAtom(z1) && IsNnf(z1) && w == Negated(z1);
            var z2 :| IsPart(Dual(op), x.right, z2) && IsAtom(z2) && IsNnf(z2) && w == Negated(z2);
            NegatedOnce(z1, z2);
          }
        }
      }
    } else {
      assert IsPart(Dual(op), x, x);
    }
  }

  lemma NegatedOnce(a: Expr, b: Expr)
    requires IsAtom(a) && IsAtom(b) && IsNnf(a) && IsNnf(b) && Negated(a) == Negated(b)
    ensures a == b
  {
  }

  /** An operand is absorbed when the negations of all its parts are operands of the chain. */
  lemma AbsorbComplete(op: Op, x: Expr, y: Expr)
    requires IsNnf(x) && IsOp(Dual(op), x) && IsAtomChain(Dual(op), x) && PartsDiffer(Dual(op), x)
    requires forall z :: IsPart(Dual(op), x, z) ==> IsPart(op, y, Negated(z))
    ensures Absorbs(op, x, y)
  {
    var a := NegatedChain(op, x);
    TransformNegates(op, x);
    NegatedParts(op, x);
    ExtractChain(op, None, a, y);
    AllUnitsVanish(op, ExtractEq(op, None, a, y).rest1);
  }

  // ----- What is left -----

  lemma {:induction false} PartSlot(op: Op, x: Expr, z: Expr) returns (p: Path)
    requires IsPart(op, x, z)
    ensures InChain(op, x, p) && At(op, x, p) == z && (!IsOp(op, z) ==> IsOperand(op, x, p))
  {
    if IsOp(op, x) {
      var d := if IsPart(op, x.left, z) then L else R;
      var t := PartSlot(op, Child(x, d), z);
      p := [d] + t;
      assert p[1..] == t;
    } else {
      p := [];
    }
  }

  /** Operands that differ from slot to slot. */
  ghost predicate OperandsDiffer(op: Op, x: Expr) {
    forall p, q :: IsOperand(op, x, p) && IsOperand(op, x, q) && p != q ==> At(op, x, p) != At(op, x, q)
  }

  lemma {:induction false} SlotsPartsDiffer(op: Op, x: Expr)
    requires IsAtomChain(op, x) && OperandsDiffer(op, x)
    ensures PartsDiffer(op, x)
  {
    if IsOp(op, x) {
      ChildDiffers(op, x, L);
      ChildDiffers(op, x, R);
      SlotsPartsDiffer(op, x.left);
      SlotsPartsDiffer(op, x.right);
      forall z | IsPart(op, x.left, z) ensures !IsPart(op, x.right, z) {
        if IsPart(op, x.right, z) {
          SidesDiffer(op, x, z, z);
        }
      }
    }
  }

  lemma SidesDiffer(op: Op, x: Expr, y: Expr, z: Expr)
    requires IsOp(op, x) && IsAtomChain(op, x) && OperandsDiffer(op, x) && IsPart(op, x.left, y) && IsPart(op, x.right, z)
    ensures y != z
  {
    PartsAreAtoms(op, x.left);
    PartsAreAtoms(op, x.right);
    var p := PartSlot(op, x.left, y);
    var q := PartSlot(op, x.right, z);
    BelowChild(op, x, L, p);
    BelowChild(op, x, R, q);
    assert ([L] + p)[0] != ([R] + q)[0];
  }

  lemma BelowChild(op: Op, x: Expr, d: Dir, p: Path)
    requires IsOp(op, x) && InChain(op, Child(x, d), p)
    ensures InChain(op, x, [d] + p) && At(op, x, [d] + p) == At(op, Child(x, d), p) && ([d] + p)[0] == d
    ensures IsOperand(op, Child(x, d), p) ==> IsOperand(op, x, [d] + p)
  {
    assert ([d] + p)[1..] == p;
  }

  lemma ChildDiffers(op: Op, x: Expr, d: Dir)
    requires IsOp(op, x) && OperandsDiffer(op, x)
    ensures OperandsDiffer(op, Child(x, d))
  {
    forall p, q | IsOperand(op, Child(x, d), p) && IsOperand(op, Child(x, d), q) && p != q
      ensures At(op, Child(x, d), p) != At(op, Child(x, d), q)
    {
      BelowChild(op, x, d, p);
      BelowChild(op, x, d, q);
      var (p', q') := ([d] + p, [d] + q);
      assert p'[1..] == p && q'[1..] == q;
      assert At(op, x, p') != At(op, x, q');
    }
  }

  /** The operand `x` of an `op` chain has a part whose negation is not an operand of the chain `y`. */
  ghost predicate NotAbsorbed(op: Op, x: Expr, y: Expr) {
    exists z :: IsPart(Dual(op), x, z) && !IsPart(op, y, Negated(z))
  }

  /**
   * No two operands of a chain are equal or can be merged, and no operand that is a chain of atoms has the
   * negations of all its parts in the chain around it; and so on inside the operands.
   */
  ghost predicate Simplified(e: Expr)
    decreases Size(e)
  {
    e.Bin? ==>
      (forall p, q :: IsOperand(e.op, e, p) && IsOperand(e.op, e, q) && p != q ==>
        !Mergeable(e.op, At(e.op, e, p), At(e.op, e, q))) &&
      (forall p :: IsOperand(e.op, e, p) && IsOp(Dual(e.op), At(e.op, e, p)) && IsNnf(At(e.op, e, p)) && IsAtomChain(Dual(e.op), At(e.op, e, p)) ==>
        NotAbsorbed(e.op, At(e.op, e, p), e)) &&
      (forall p :: IsOperand(e.op, e, p) && Size(At(e.op, e, p)) < Size(e) ==> Simplified(At(e.op, e, p)))
  }

  lemma {:induction false} IrreducibleSimplified(e: Expr)
    requires Irreducible(e)
    ensures Simplified(e)
    decreases Size(e)
  {
    if e.Bin? {
      forall p, q | IsOperand(e.op, e, p) && IsOperand(e.op, e, q) && p != q
        ensures !Mergeable(e.op, At(e.op, e, p), At(e.op, e, q))
      {
        if Mergeable(e.op, At(e.op, e, p), At(e.op, e, q)) {
          MergeableJoins(e.op, At(e.op, e, p), At(e.op, e, q));
        }
      }
      forall p | IsOperand(e.op, e, p) && IsOp(Dual(e.op), At(e.op, e, p)) && IsNnf(At(e.op, e, p)) && IsAtomChain(Dual(e.op), At(e.op, e, p))
        ensures NotAbsorbed(e.op, At(e.op, e, p), e)
      {
        AtSize(e.op, e, p);
        StaysForAReason(e, p);
      }
      forall p | IsOperand(e.op, e, p) && Size(At(e.op, e, p)) < Size(e) ensures Simplified(At(e.op, e, p)) {
        IrreducibleSimplified(At(e.op, e, p));
      }
    }
  }

  lemma StaysForAReason(e: Expr, p: Path)
    requires Irreducible(e) && e.Bin? && IsOperand(e.op, e, p) && IsOp(Dual(e.op), At(e.op, e, p))
    requires IsNnf(At(e.op, e, p)) && IsAtomChain(Dual(e.op), At(e.op, e, p))
    ensures NotAbsorbed(e.op, At(e.op, e, p), e)
  {
    var (op, x) := (e.op, At(e.op, e, p));
    AtSize(op, e, p);
    assert Irreducible(x);
    assert OperandsDiffer(x.op, x) by {
      forall r, t | IsOperand(x.op, x, r) && IsOperand(x.op, x, t) && r != t ensures At(x.op, x, r) != At(x.op, x, t) {
        OperandIsAtom(x.op, x, r);
        if At(x.op, x, r) == At(x.op, x, t) {
          ExprEqAtom(At(x.op, x, r), At(x.op, x, t));
        }
      }
    }
    SlotsPartsDiffer(x.op, x);
    assert InChain(op, e, []) && At(op, e, []) == e && p != [];
    if !NotAbsorbed(op, x, e) {
      AbsorbComplete(op, x, e);
    }
  }

  lemma {:induction false} OperandIsAtom(op: Op, x: Expr, p: Path)
    requires IsAtomChain(op, x) && IsOperand(op, x, p)
    ensures IsAtom(At(op, x, p))
  {
    if p != [] {
      OperandIsAtom(op, Child(x, p[0]), p[1..]);
    }
  }

  /** Nothing of the kind is left after expr_eliminate_dups. */
  lemma EliminateDupsSimplified(e: Expr)
    ensures Simplified(EliminateDups(e))
  {
    EliminateDupsIrreducible(e);
    IrreducibleSimplified(EliminateDups(e));
  }
}
