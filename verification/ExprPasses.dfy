/** The passes of expr_eliminate_dups as they run: on nodes, through slots, counting their rewrites. */
module ExprPasses {
  import opened Tristate
  import opened Symbols
  import opened Expressions
  import opened ExprJoining
  import opened ExprSlots
  import opened ExprDuplicates
  import opened ExprStore

  /** The nodes, the variable that points to the expression, and the global trans_count. */
  class Simplifier {
    var cells: Cells
    var root: Ref
    /** The node that malloc returns next. */
    var top: Ref
    var transCount: nat

    ghost predicate Fresh()
      reads `cells, `top
    {
      forall r :: r in cells ==> r < top
    }

    /** The `op` chain `t` hangs in the slot `s`. */
    ghost predicate Chain(op: Op, s: Slot, t: Tree)
      reads `cells, `top, `root
    {
      Fresh() && Hangs(cells, root, s, t) && IsOp(op, ExprIn(t))
    }

    // ----- Nodes -----

    method New(cell: Cell) returns (r: Ref)
      requires Fresh()
      modifies `cells, `top
      ensures Fresh() && r !in old(cells) && cells == old(cells)[r := cell]
    {
      r := top;
      cells := cells[r := cell];
      top := top + 1;
    }

    /** An expression is allocated. */
    method Alloc(x: Expr) returns (r: Ref, ghost u: Tree)
      requires Fresh()
      modifies `cells, `top
      ensures Fresh() && NewTree(old(cells), cells, u, x) && r == u.id
      decreases x
    {
      match x {
        case Sym(s) =>
          r := New(SymCell(s));
          u := Leaf(r, x);
        case Cmp(rel, a, b) =>
          r := New(CmpCell(rel, a, b));
          u := Leaf(r, x);
        case Not(y) =>
          ghost var c := cells;
          var q, t := Alloc(y);
          ghost var c1 := cells;
          r := New(NotCell(q));
          u := Neg(r, t);
          NewNeg(c, c1, cells, r, t, y);
        case Bin(op, y, z) =>
          ghost var c := cells;
          var q1, t1 := Alloc(y);
          ghost var c1 := cells;
          var q2, t2 := Alloc(z);
          ghost var c2 := cells;
          r := New(BinCell(op, q1, q2));
          u := Pair(r, op, t1, t2);
          NewPair(c, c1, c2, cells, r, op, t1, t2, y, z);
      }
    }

    /** The expression at a node. */
    method Get(r: Ref, ghost t: Tree) returns (x: Expr)
      requires Holds(cells, t) && t.id == r
      ensures x == ExprIn(t)
      decreases t
    {
      match cells[r] {
        case SymCell(s) => x := Sym(s);
        case CmpCell(rel, a, b) => x := Cmp(rel, a, b);
        case NotCell(q) =>
          x := Get(q, t.t);
          x := Not(x);
        case BinCell(op, q1, q2) =>
          var x1 := Get(q1, t.l);
          var x2 := Get(q2, t.r);
          x := Bin(op, x1, x2);
      }
    }

    /** `*ep = expr_alloc_symbol(..)` and the like: the operand in the slot `e1` becomes a new expression. */
    method Overwrite(op: Op, e1: Slot, x: Expr, ghost s: Slot, ghost t: Tree, ghost p: Path) returns (ghost t': Tree)
      requires Chain(op, s, t) && IsOperand(op, ExprIn(t), p) && HasPath(t, p) && e1 == SlotOf(t, p, s) && !IsOp(op, x)
      modifies `cells, `top
      ensures Chain(op, s, t') && Rewritten(op, old(cells), cells, root, s, t, t')
      ensures ExprIn(t') == Put(op, ExprIn(t), p, x)
    {
      hide Holds, Apart, Put, At, InChain;
      ghost var c := cells;
      var r, u := Alloc(x);
      WrittenNew(op, c, cells, root, s, t, p, u, x);
      t' := Replace(t, p, u);
      cells := Redirect(cells, e1, r);
      ChainStays(op, c, cells, root, s, t, t');
    }

    // ----- expr_eliminate_dups1 -----

    /** expr_eliminate_dups1 on the slots `e1` and `e2` of the chain `t` in the slot `s`. */
    method RunDups1(op: Op, e1: Slot, e2: Slot, ghost s: Slot, ghost t: Tree, ghost p: Path, ghost q: Path) returns (ghost t': Tree)
      requires Chain(op, s, t) && InChain(op, ExprIn(t), p) && InChain(op, ExprIn(t), q) && HasPath(t, p) && HasPath(t, q)
      requires e1 == SlotOf(t, p, s) && e2 == SlotOf(t, q, s)
      modifies this
      ensures root == old(root) && transCount >= old(transCount)
      ensures Chain(op, s, t') && Rewritten(op, old(cells), cells, root, s, t, t')
      ensures (ExprIn(t'), transCount - old(transCount)) == Dups1(op, ExprIn(t), p, q)
      decreases Size(ExprIn(t)), ChainSize(op, At(op, ExprIn(t), p)), ChainSize(op, At(op, ExprIn(t), q)), 2
    {
      hide Join, At, InChain, Size, ChainSize, Passed, Holds, Apart, Spine, Only, Sub, SlotOf, Rewritten, Hangs;
      SlotRead(op, cells, root, s, t, p);
      SlotRead(op, cells, root, s, t, q);
      SlotPoints(cells, root, s, t, p);
      SlotPoints(cells, root, s, t, q);
      var r1, r2 := Pointed(cells, root, e1), Pointed(cells, root, e2);
      if cells[r1].BinCell? && cells[r1].op == op {
        t' := RunSides(op, r1, e2, s, t, p, q);
      } else if cells[r2].BinCell? && cells[r2].op == op {
        t' := RunOtherSides(op, e1, r2, s, t, p, q);
      } else {
        PointersDiffer(cells, root, s, t, p, q);
        t' := t;
        RewrittenRefl(op, cells, root, s, t);
        if r1 != r2 {
          t' := RunPair(op, e1, e2, s, t, p, q);
        }
      }
    }

    /** `e1` is a connective of the chain: its two sides in turn. */
    method RunSides(op: Op, r1: Ref, e2: Slot, ghost s: Slot, ghost t: Tree, ghost p: Path, ghost q: Path) returns (ghost t': Tree)
      requires Chain(op, s, t) && InChain(op, ExprIn(t), p) && InChain(op, ExprIn(t), q) && HasPath(t, p) && HasPath(t, q)
      requires r1 == Sub(t, p).id && e2 == SlotOf(t, q, s) && IsOp(op, At(op, ExprIn(t), p))
      modifies this
      ensures root == old(root) && transCount >= old(transCount)
      ensures Chain(op, s, t') && Rewritten(op, old(cells), cells, root, s, t, t')
      ensures (ExprIn(t'), transCount - old(transCount)) == Dups1(op, ExprIn(t), p, q)
      decreases Size(ExprIn(t)), ChainSize(op, At(op, ExprIn(t), p)), ChainSize(op, At(op, ExprIn(t), q)), 1
    {
      ghost var (c, e, n) := (cells, ExprIn(t), transCount);
      hide Join, At, InChain, Size, ChainSize, Passed, Holds, Apart, Spine, Only, Sub, SlotOf, Rewritten, Hangs;
      PassedNothing(op, e);
      PassedSlots(op, e, e, 0, p, L, q);
      SlotBelow(op, cells, root, s, t, p, L);
      ghost var t1 := RunDups1(op, Side(r1, L), e2, s, t, p + [L], q);
      PassedSlots(op, e, ExprIn(t1), transCount - n, p, R, q);
      PassedSmaller(op, e, ExprIn(t1), transCount - n);
      SlotBelow(op, c, root, s, t, p, R);
      SlotStays(op, c, cells, root, s, t, t1, p + [R]);
      SlotStays(op, c, cells, root, s, t, t1, q);
      ghost var c1 := cells;
      t' := RunDups1(op, Side(r1, R), e2, s, t1, p + [R], q);
      RewrittenTwice(op, c, c1, cells, root, s, t, t1, t');
    }

    /** `e2` is a connective of the chain, and `e1` is not. */
    method RunOtherSides(op: Op, e1: Slot, r2: Ref, ghost s: Slot, ghost t: Tree, ghost p: Path, ghost q: Path) returns (ghost t': Tree)
      requires Chain(op, s, t) && InChain(op, ExprIn(t), p) && InChain(op, ExprIn(t), q) && HasPath(t, p) && HasPath(t, q)
      requires e1 == SlotOf(t, p, s) && r2 == Sub(t, q).id && !IsOp(op, At(op, ExprIn(t), p)) && IsOp(op, At(op, ExprIn(t), q))
      modifies this
      ensures root == old(root) && transCount >= old(transCount)
      ensures Chain(op, s, t') && Rewritten(op, old(cells), cells, root, s, t, t')
      ensures (ExprIn(t'), transCount - old(transCount)) == Dups1(op, ExprIn(t), p, q)
      decreases Size(ExprIn(t)), ChainSize(op, At(op, ExprIn(t), p)), ChainSize(op, At(op, ExprIn(t), q)), 1
    {
      ghost var (c, e, n) := (cells, ExprIn(t), transCount);
      hide Join, At, InChain, Size, ChainSize, Passed, Holds, Apart, Spine, Only, Sub, SlotOf, Rewritten, Hangs;
      PassedNothing(op, e);
      PassedSlots(op, e, e, 0, q, L, p);
      SlotBelow(op, cells, root, s, t, q, L);
      ghost var t1 := RunDups1(op, e1, Side(r2, L), s, t, p, q + [L]);
      PassedSlots(op, e, ExprIn(t1), transCount - n, q, R, p);
      PassedSmaller(op, e, ExprIn(t1), transCount - n);
      SlotBelow(op, c, root, s, t, q, R);
      SlotStays(op, c, cells, root, s, t, t1, q + [R]);
      SlotStays(op, c, cells, root, s, t, t1, p);
      ghost var c1 := cells;
      t' := RunDups1(op, e1, Side(r2, R), s, t1, p, q + [R]);
      RewrittenTwice(op, c, c1, cells, root, s, t, t1, t');
    }

    /** Two different operands: the pass over the first, then the join. */
    method RunPair(op: Op, e1: Slot, e2: Slot, ghost s: Slot, ghost t: Tree, ghost p: Path, ghost q: Path) returns (ghost t': Tree)
      requires Chain(op, s, t) && IsOperand(op, ExprIn(t), p) && IsOperand(op, ExprIn(t), q) && HasPath(t, p) && HasPath(t, q)
      requires e1 == SlotOf(t, p, s) && e2 == SlotOf(t, q, s) && p != q
      modifies this
      ensures root == old(root) && transCount >= old(transCount)
      ensures Chain(op, s, t') && Rewritten(op, old(cells), cells, root, s, t, t')
      ensures (ExprIn(t'), transCount - old(transCount)) == Dups1(op, ExprIn(t), p, q)
      decreases Size(ExprIn(t)), 0, 1
    {
      ghost var (c, e, n) := (cells, ExprIn(t), transCount);
      hide Join, At, InChain, Size, ChainSize, Passed, Holds, Apart, Spine, Only, Sub, SlotOf, Rewritten, Hangs;
      ghost var t1 := RunDups1Inside(op, e1, s, t, p);
      PassedOperands(op, e, ExprIn(t1), transCount - n, p, q);
      SlotStays(op, c, cells, root, s, t, t1, p);
      SlotStays(op, c, cells, root, s, t, t1, q);
      ghost var c1 := cells;
      t' := RunJoin(op, e1, e2, s, t1, p, q);
      RewrittenTwice(op, c, c1, cells, root, s, t, t1, t');
    }

    /** `expr_eliminate_dups1(e1->type, &e1, &e1)`, if `e1` is a chain itself. */
    method RunDups1Inside(op: Op, e1: Slot, ghost s: Slot, ghost t: Tree, ghost p: Path) returns (ghost t': Tree)
      requires Chain(op, s, t) && IsOperand(op, ExprIn(t), p) && HasPath(t, p) && e1 == SlotOf(t, p, s)
      modifies this
      ensures root == old(root) && transCount >= old(transCount)
      ensures Chain(op, s, t') && Rewritten(op, old(cells), cells, root, s, t, t')
      ensures (ExprIn(t'), transCount - old(transCount)) == Dups1Inside(op, ExprIn(t), p)
      decreases Size(ExprIn(t)), 0, 0
    {
      ghost var c := cells;
      hide Holds, Apart, Put, Passed, Spine, Only;
      SlotRead(op, cells, root, s, t, p);
      t' := t;
      var cell := cells[Pointed(cells, root, e1)];
      if cell.BinCell? {
        ghost var u := Sub(t, p);
        AtSize(op, ExprIn(t), p);
        ghost var u' := RunDups1(cell.op, e1, e1, e1, u, [], []);
        WrittenInside(op, c, cells, root, s, t, p, u', cell.op);
        t' := Replace(t, p, u');
        ChainStays(op, c, cells, root, s, t, t');
      } else {
        RewrittenRefl(op, cells, root, s, t);
      }
    }

    /** The switch at the end of expr_eliminate_dups1. */
    method RunJoin(op: Op, e1: Slot, e2: Slot, ghost s: Slot, ghost t: Tree, ghost p: Path, ghost q: Path) returns (ghost t': Tree)
      requires Chain(op, s, t) && IsOperand(op, ExprIn(t), p) && IsOperand(op, ExprIn(t), q) && p != q
      requires HasPath(t, p) && HasPath(t, q) && e1 == SlotOf(t, p, s) && e2 == SlotOf(t, q, s)
      modifies this
      ensures root == old(root) && transCount >= old(transCount)
      ensures Chain(op, s, t') && Rewritten(op, old(cells), cells, root, s, t, t')
      ensures (ExprIn(t'), transCount - old(transCount)) == JoinOperands(op, ExprIn(t), p, q)
    {
      ghost var (c, e) := (cells, ExprIn(t));
      hide Holds, Apart, Put, Spine, Only, Join;
      SlotRead(op, cells, root, s, t, p);
      SlotRead(op, cells, root, s, t, q);
      var x1 := Get(Pointed(cells, root, e1), Sub(t, p));
      var x2 := Get(Pointed(cells, root, e2), Sub(t, q));
      var tmp := Join(op, x1, x2);
      t' := t;
      if tmp.Some? {
        JoinShape(op, x1, x2);
        PutOperand(op, e, p, UnitExpr(op));
        PutElsewhere(op, e, p, UnitExpr(op), q);
        t' := Overwrite(op, e1, UnitExpr(op), s, t, p);
        ghost var (c1, t1) := (cells, t');
        SlotStays(op, c, c1, root, s, t, t1, q);
        t' := Overwrite(op, e2, tmp.value, s, t1, q);
        RewrittenTwice(op, c, c1, cells, root, s, t, t1, t');
        transCount := transCount + 1;
      } else {
        RewrittenRefl(op, cells, root, s, t);
      }
    }

    // ----- expr_eliminate_dups2 -----

    /** expr_eliminate_dups2 on the slots `e1` and `e2` of the chain `t` in the slot `s`. */
    method RunDups2(op: Op, e1: Slot, e2: Slot, ghost s: Slot, ghost t: Tree, ghost p: Path, ghost q: Path) returns (ghost t': Tree)
      requires Chain(op, s, t) && InChain(op, ExprIn(t), p) && InChain(op, ExprIn(t), q) && HasPath(t, p) && HasPath(t, q)
      requires e1 == SlotOf(t, p, s) && e2 == SlotOf(t, q, s)
      modifies this
      ensures root == old(root) && transCount >= old(transCount)
      ensures Chain(op, s, t') && Rewritten(op, old(cells), cells, root, s, t, t')
      ensures (ExprIn(t'), transCount - old(transCount)) == Dups2(op, ExprIn(t), p, q)
      decreases Size(ExprIn(t)), ChainSize(op, At(op, ExprIn(t), p)), ChainSize(op, At(op, ExprIn(t), q)), 3
    {
      hide Absorbs, At, InChain, Size, ChainSize, Passed, Holds, Apart, Spine, Only, Sub, SlotOf, Rewritten, Hangs, Dups2Below;
      SlotRead(op, cells, root, s, t, p);
      SlotPoints(cells, root, s, t, p);
      var r1 := Pointed(cells, root, e1);
      if cells[r1].BinCell? && cells[r1].op == op {
        t' := RunSides2(op, r1, e2, s, t, p, q);
      } else {
        ghost var (c, e, n) := (cells, ExprIn(t), transCount);
        t' := RunDups2Below(op, e1, e2, s, t, p, q);
        ghost var (c1, t1) := (cells, t');
        PassedNothing(op, e);
        PassedOperand(op, e, ExprIn(t1), transCount - n, p, q);
        SlotStays(op, c, c1, root, s, t, t1, p);
        SlotStays(op, c, c1, root, s, t, t1, q);
        SlotRead(op, cells, root, s, t1, p);
        SlotPoints(cells, root, s, t1, p);
        SlotPoints(cells, root, s, t1, q);
        PointersDiffer(cells, root, s, t1, p, q);
        if Pointed(cells, root, e1) != Pointed(cells, root, e2) && cells[Pointed(cells, root, e1)].BinCell? {
          t' := RunAbsorb(op, e1, e2, s, t1, p, q);
          RewrittenTwice(op, c, c1, cells, root, s, t, t1, t');
        }
      }
    }

    method RunSides2(op: Op, r1: Ref, e2: Slot, ghost s: Slot, ghost t: Tree, ghost p: Path, ghost q: Path) returns (ghost t': Tree)
      requires Chain(op, s, t) && InChain(op, ExprIn(t), p) && InChain(op, ExprIn(t), q) && HasPath(t, p) && HasPath(t, q)
      requires r1 == Sub(t, p).id && e2 == SlotOf(t, q, s) && IsOp(op, At(op, ExprIn(t), p))
      modifies this
      ensures root == old(root) && transCount >= old(transCount)
      ensures Chain(op, s, t') && Rewritten(op, old(cells), cells, root, s, t, t')
      ensures (ExprIn(t'), transCount - old(transCount)) == Dups2(op, ExprIn(t), p, q)
      decreases Size(ExprIn(t)), ChainSize(op, At(op, ExprIn(t), p)), ChainSize(op, At(op, ExprIn(t), q)), 2
    {
      ghost var (c, e, n) := (cells, ExprIn(t), transCount);
      hide Absorbs, At, InChain, Size, ChainSize, Passed, Holds, Apart, Spine, Only, Sub, SlotOf, Rewritten, Hangs;
      PassedNothing(op, e);
      PassedSlots(op, e, e, 0, p, L, q);
      SlotBelow(op, cells, root, s, t, p, L);
      ghost var t1 := RunDups2(op, Side(r1, L), e2, s, t, p + [L], q);
      PassedSlots(op, e, ExprIn(t1), transCount - n, p, R, q);
      PassedSmaller(op, e, ExprIn(t1), transCount - n);
      SlotBelow(op, c, root, s, t, p, R);
      SlotStays(op, c, cells, root, s, t, t1, p + [R]);
      SlotStays(op, c, cells, root, s, t, t1, q);
      ghost var c1 := cells;
      t' := RunDups2(op, Side(r1, R), e2, s, t1, p + [R], q);
      RewrittenTwice(op, c, c1, cells, root, s, t, t1, t');
    }

    /** The visits to the two sides of `e2`, when it is a connective of the chain. */
    method RunDups2Below(op: Op, e1: Slot, e2: Slot, ghost s: Slot, ghost t: Tree, ghost p: Path, ghost q: Path) returns (ghost t': Tree)
      requires Chain(op, s, t) && IsOperand(op, ExprIn(t), p) && InChain(op, ExprIn(t), q) && HasPath(t, p) && HasPath(t, q)
      requires e1 == SlotOf(t, p, s) && e2 == SlotOf(t, q, s)
      modifies this
      ensures root == old(root) && transCount >= old(transCount)
      ensures Chain(op, s, t') && Rewritten(op, old(cells), cells, root, s, t, t')
      ensures (ExprIn(t'), transCount - old(transCount)) == Dups2Below(op, ExprIn(t), p, q)
      decreases Size(ExprIn(t)), ChainSize(op, At(op, ExprIn(t), p)), ChainSize(op, At(op, ExprIn(t), q)), 1
    {
      ghost var (c, e, n) := (cells, ExprIn(t), transCount);
      hide Absorbs, At, InChain, Size, ChainSize, Passed, Holds, Apart, Spine, Only, Sub, SlotOf, Rewritten, Hangs;
      PassedNothing(op, e);
      SlotRead(op, cells, root, s, t, q);
      SlotPoints(cells, root, s, t, q);
      var r2 := Pointed(cells, root, e2);
      t' := t;
      if cells[r2].BinCell? && cells[r2].op == op {
        PassedSlots(op, e, e, 0, q, L, p);
        SlotBelow(op, cells, root, s, t, q, L);
        ghost var t1 := RunDups2(op, e1, Side(r2, L), s, t, p, q + [L]);
        PassedSlots(op, e, ExprIn(t1), transCount - n, q, R, p);
        PassedSmaller(op, e, ExprIn(t1), transCount - n);
        SlotBelow(op, c, root, s, t, q, R);
        SlotStays(op, c, cells, root, s, t, t1, q + [R]);
        SlotStays(op, c, cells, root, s, t, t1, p);
        ghost var c1 := cells;
        t' := RunDups2(op, e1, Side(r2, R), s, t1, p, q + [R]);
        RewrittenTwice(op, c, c1, cells, root, s, t, t1, t');
      } else {
        RewrittenRefl(op, cells, root, s, t);
      }
    }

    /** The switch of expr_eliminate_dups2: first inside the operand `e1`, then against `e2`. */
    method RunAbsorb(op: Op, e1: Slot, e2: Slot, ghost s: Slot, ghost t: Tree, ghost p: Path, ghost q: Path) returns (ghost t': Tree)
      requires Chain(op, s, t) && IsOperand(op, ExprIn(t), p) && InChain(op, ExprIn(t), q) && HasPath(t, p) && HasPath(t, q)
      requires e1 == SlotOf(t, p, s) && e2 == SlotOf(t, q, s) && At(op, ExprIn(t), p).Bin?
      modifies this
      ensures root == old(root) && transCount >= old(transCount)
      ensures Chain(op, s, t') && Rewritten(op, old(cells), cells, root, s, t, t')
      ensures var x := At(op, ExprIn(t), p);
              var (x', k) := Dups2(x.op, x, [], []);
              var e2 := Put(op, ExprIn(t), p, x');
              InChain(op, e2, q) && InChain(op, e2, p) &&
              (ExprIn(t'), transCount - old(transCount)) ==
                if Absorbs(op, x', At(op, e2, q)) then (Put(op, e2, p, ZeroExpr(op)), k + 1) else (e2, k)
      decreases Size(ExprIn(t)), 0, 0
    {
      ghost var (c, e) := (cells, ExprIn(t));
      hide Absorbs, Holds, Apart, Put, Passed, Spine, Only;
      SlotRead(op, cells, root, s, t, p);
      var cell := cells[Pointed(cells, root, e1)];
      ghost var u := Sub(t, p);
      AtSize(op, e, p);
      ghost var u' := RunDups2(cell.op, e1, e1, e1, u, [], []);
      PassedInside(op, e, p, ExprIn(u'), transCount - old(transCount));
      WrittenInside(op, c, cells, root, s, t, p, u', cell.op);
      ghost var (c1, t1) := (cells, Replace(t, p, u'));
      ChainStays(op, c, cells, root, s, t, t1);
      SlotStays(op, c, cells, root, s, t, t1, p);
      SlotStays(op, c, cells, root, s, t, t1, q);
      SlotRead(op, cells, root, s, t1, p);
      SlotRead(op, cells, root, s, t1, q);
      var x1 := Get(Pointed(cells, root, e1), Sub(t1, p));
      var x2 := Get(Pointed(cells, root, e2), Sub(t1, q));
      t' := t1;
      if Absorbs(op, x1, x2) {
        t' := Overwrite(op, e1, ZeroExpr(op), s, t1, p);
        RewrittenTwice(op, c, c1, cells, root, s, t, t1, t');
        transCount := transCount + 1;
      }
    }

    // ----- expr_eliminate_yn -----

    /** The expression is rewritten in its nodes; the top node stays. */
    method RunEliminateYn(r: Ref, ghost t: Tree) returns (ghost t': Tree)
      requires Holds(cells, t) && Apart(t) && t.id == r
      modifies `cells
      ensures InPlace(old(cells), cells, t, t') && ExprIn(t') == EliminateYn(ExprIn(t))
      decreases t
    {
      ghost var c := cells;
      hide Apart;
      t' := t;
      if cells[r].BinCell? {
        Parts(cells, t);
        var BinCell(op, left, right) := cells[r];
        ghost var l := RunEliminateYn(left, t.l);
        ghost var c1 := cells;
        RightStays(c, c1, t, l);
        ghost var x := RunEliminateYn(right, t.r);
        BothInPlace(c, c1, cells, t, l, x);
        t' := DropYn(r, op, left, right, c, t, Pair(r, op, l, x));
      } else {
        NoConnective(cells, t);
      }
    }

    /** The switch on the operands of a connective. */
    method DropYn(r: Ref, op: Op, left: Ref, right: Ref, ghost c: Cells, ghost t: Tree, ghost u: Tree) returns (ghost t': Tree)
      requires u.Pair? && u.id == r && u.op == op && u.l.id == left && u.r.id == right && InPlace(c, cells, t, u)
      modifies `cells
      ensures InPlace(c, cells, t, t')
      ensures var (x, y) := (ExprIn(u.l), ExprIn(u.r));
              ExprIn(t') == if x == ZeroExpr(op) then ZeroExpr(op)
                            else if x == UnitExpr(op) then y
                            else if y == ZeroExpr(op) then ZeroExpr(op)
                            else if y == UnitExpr(op) then x
                            else Bin(op, x, y)
    {
      var (zero, unit) := (ZeroExpr(op).s, UnitExpr(op).s);
      OperandSymbols(cells, u, zero, unit);
      t' := u;
      if cells[left] == SymCell(zero) {
        SymbolTaken(c, cells, t, u, zero);
        t' := Leaf(r, Sym(zero));
        cells := cells[r := SymCell(zero)];
      } else if cells[left] == SymCell(unit) {
        OperandTaken(c, cells, t, u, u.r);
        t' := WithId(u.r, r);
        cells := cells[r := cells[right]];
      } else if cells[right] == SymCell(zero) {
        SymbolTaken(c, cells, t, u, zero);
        t' := Leaf(r, Sym(zero));
        cells := cells[r := SymCell(zero)];
      } else if cells[right] == SymCell(unit) {
        OperandTaken(c, cells, t, u, u.l);
        t' := WithId(u.l, r);
        cells := cells[r := cells[left]];
      }
    }

    // ----- expr_eliminate_dups -----

    /** One turn of the loop, for the expression the variable points to. */
    method RunRound(ghost t: Tree) returns (ghost t': Tree)
      requires Fresh() && Hangs(cells, root, Variable, t)
      modifies this
      ensures Fresh() && root == old(root) && Hangs(cells, root, Variable, t') && (ExprIn(t'), transCount) == Round(ExprIn(t))
    {
      hide Holds, Apart, Passed, Dups1, Dups2, Spine;
      transCount := 0;
      t' := t;
      SlotRead(And, cells, root, Variable, t, []);
      var cell := cells[root];
      if cell.BinCell? {
        t' := RunDups1(cell.op, Variable, Variable, Variable, t, [], []);
        PassedSmaller(cell.op, ExprIn(t), ExprIn(t'), transCount);
        t' := RunDups2(cell.op, Variable, Variable, Variable, t', [], []);
      }
    }

    /** Both passes until neither finds anything; the variable and trans_count are as before. */
    method Run(ghost t: Tree) returns (ghost t': Tree)
      requires Fresh() && Hangs(cells, root, Variable, t)
      modifies this
      ensures Fresh() && root == old(root) && Hangs(cells, root, Variable, t') && transCount == old(transCount)
      ensures ExprIn(t') == EliminateDups(ExprIn(t))
    {
      hide Holds, Apart, Round, YnFree, EliminateYn;
      var oldCount := transCount;
      t' := t;
      while true
        invariant Fresh() && root == old(root) && Hangs(cells, root, Variable, t')
        invariant EliminateDups(ExprIn(t')) == EliminateDups(ExprIn(t))
        decreases Size(ExprIn(t'))
      {
        t' := RunRound(t');
        if transCount == 0 {
          break;
        }
        EliminateYnNormal(ExprIn(t'));
        t' := RunEliminateYn(root, t');
      }
      transCount := oldCount;
    }

    constructor ()
      ensures Fresh() && cells == map[] && transCount == 0
    {
      cells, root, top, transCount := map[], 0, 0, 0;
    }

    /** From an expression that has just been built to what is left of it. */
    method Simplify(x: Expr) returns (y: Expr)
      requires Fresh()
      modifies this
      ensures Fresh() && y == EliminateDups(x) && transCount == old(transCount)
    {
      ghost var t;
      root, t := Alloc(x);
      t := Run(t);
      y := Get(root, t);
    }
  }

  lemma NewNeg(c: Cells, c1: Cells, c2: Cells, r: Ref, t: Tree, y: Expr)
    requires NewTree(c, c1, t, y) && r !in c1 && c2 == c1[r := NotCell(t.id)]
    ensures NewTree(c, c2, Neg(r, t), Not(y))
  {
    HeldRefs(c1, t);
    HoldsFrame(c1, c2, t);
  }

  lemma NewPair(c: Cells, c1: Cells, c2: Cells, c3: Cells, r: Ref, op: Op, t1: Tree, t2: Tree, y: Expr, z: Expr)
    requires NewTree(c, c1, t1, y) && NewTree(c1, c2, t2, z) && r !in c2 && c3 == c2[r := BinCell(op, t1.id, t2.id)]
    ensures NewTree(c, c3, Pair(r, op, t1, t2), Bin(op, y, z))
  {
    HeldRefs(c1, t1);
    HeldRefs(c2, t2);
    HoldsFrame(c1, c3, t1);
    HoldsFrame(c2, c3, t2);
  }

  lemma ChainStays(op: Op, c: Cells, c': Cells, root: Ref, s: Slot, t: Tree, t': Tree)
    requires Rewritten(op, c, c', root, s, t, t') && IsOp(op, ExprIn(t)) && Hangs(c, root, s, t)
    ensures IsOp(op, ExprIn(t')) && Hangs(c', root, s, t')
  {
  }

  lemma SlotPoints(c: Cells, root: Ref, s: Slot, t: Tree, p: Path)
    requires Hangs(c, root, s, t) && HasPath(t, p)
    ensures SlotOk(c, SlotOf(t, p, s)) && Pointed(c, root, SlotOf(t, p, s)) == Sub(t, p).id
  {
    SubHangs(c, root, s, t, p);
  }

  lemma PointersDiffer(c: Cells, root: Ref, s: Slot, t: Tree, p: Path, q: Path)
    requires Hangs(c, root, s, t) && HasPath(t, p) && HasPath(t, q)
    ensures SlotOk(c, SlotOf(t, p, s)) && SlotOk(c, SlotOf(t, q, s))
    ensures Pointed(c, root, SlotOf(t, p, s)) == Pointed(c, root, SlotOf(t, q, s)) <==> p == q
  {
    SubHangs(c, root, s, t, p);
    SubHangs(c, root, s, t, q);
    SlotsDiffer(t, p, q);
  }

  lemma PassedSmaller(op: Op, e: Expr, e': Expr, n: int)
    requires n >= 0 && Passed(op, e, e', n) && IsOp(op, e)
    ensures Size(e') <= Size(e) && IsOp(op, e')
  {
  }

  lemma PassedOperand(op: Op, e: Expr, e': Expr, n: int, p: Path, q: Path)
    requires n >= 0 && Passed(op, e, e', n) && IsOp(op, e) && IsOperand(op, e, p) && InChain(op, e, q)
    ensures IsOp(op, e') && IsOperand(op, e', p) && InChain(op, e', q) && Size(e') <= Size(e)
  {
    SameChainSlots(op, e, e', p);
    SameChainSlots(op, e, e', q);
  }

  lemma PassedOperands(op: Op, e: Expr, e': Expr, n: int, p: Path, q: Path)
    requires n >= 0 && Passed(op, e, e', n) && IsOp(op, e) && IsOperand(op, e, p) && IsOperand(op, e, q)
    ensures IsOp(op, e') && IsOperand(op, e', p) && IsOperand(op, e', q)
  {
    PassedOperand(op, e, e', n, p, q);
    PassedOperand(op, e, e', n, q, p);
  }

  lemma Parts(c: Cells, t: Tree)
    requires Holds(c, t) && Apart(t) && c[t.id].BinCell?
    ensures t.Pair? && c[t.id] == BinCell(t.op, t.l.id, t.r.id) && Holds(c, t.l) && Holds(c, t.r) && Apart(t.l) && Apart(t.r)
  {
  }

  lemma NoConnective(c: Cells, t: Tree)
    requires Holds(c, t) && Apart(t) && !c[t.id].BinCell?
    ensures InPlace(c, c, t, t) && EliminateYn(ExprIn(t)) == ExprIn(t)
  {
  }

  lemma RightStays(c: Cells, c1: Cells, t: Tree, l: Tree)
    requires t.Pair? && Holds(c, t) && Apart(t) && InPlace(c, c1, t.l, l)
    ensures Holds(c1, t.r)
  {
    HeldRefs(c, t.r);
    HoldsFrame(c, c1, t.r);
  }

  lemma OperandSymbols(c: Cells, u: Tree, zero: Symbol, unit: Symbol)
    requires u.Pair? && Holds(c, u) && Apart(u)
    ensures u.id in c && u.l.id in c && u.r.id in c
    ensures (c[u.l.id] == SymCell(zero) <==> ExprIn(u.l) == Sym(zero)) && (c[u.l.id] == SymCell(unit) <==> ExprIn(u.l) == Sym(unit))
    ensures (c[u.r.id] == SymCell(zero) <==> ExprIn(u.r) == Sym(zero)) && (c[u.r.id] == SymCell(unit) <==> ExprIn(u.r) == Sym(unit))
  {
    HeldSymbol(c, u.l, zero);
    HeldSymbol(c, u.l, unit);
    HeldSymbol(c, u.r, zero);
    HeldSymbol(c, u.r, unit);
  }
}
