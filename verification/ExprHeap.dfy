/** The rewriting passes of config/expr.c on expression nodes in memory, which they overwrite. */
module ExprHeap {
  import opened Tristate
  import opened Symbols
  import opened Expressions
  import opened ExprEquality
  import opened ExprTransformation
  import opened ExprComparison

  datatype Kind = KSym | KNot | KCmp(rel: Rel) | KBin(op: Op)

  /** struct expr; `left` and `lsym` share a union in the original, and so do `right` and `rsym`. */
  class Node {
    var kind: Kind
    var left: Node?
    var right: Node?
    var lsym: Symbol
    var rsym: Symbol
    /** The node and at least all nodes below it. */
    ghost var repr: set<Node>

    /** The tree below this node is `x`, without sharing. */
    ghost predicate Is(x: Expr)
      reads this, repr
      decreases x
    {
      this in repr &&
      match x
      case Sym(s) => kind == KSym && lsym == s
      case Cmp(rel, l, r) => kind == KCmp(rel) && lsym == l && rsym == r
      case Not(y) =>
        kind == KNot && left != null && left in repr && left.repr <= repr && this !in left.repr && left.Is(y)
      case Bin(op, a, b) =>
        kind == KBin(op) && left != null && left in repr && left.repr <= repr && this !in left.repr && left.Is(a) &&
        right != null && right in repr && right.repr <= repr && this !in right.repr && right.Is(b) &&
        left.repr !! right.repr
    }

    /** expr_alloc_symbol. */
    constructor Symbol(s: Symbol)
      ensures Is(Sym(s)) && fresh(repr)
    {
      kind, left, right, lsym, rsym := KSym, null, null, s, s;
      repr := {this};
    }

    /** expr_alloc_one of E_NOT. */
    constructor Negation(e: Node, ghost x: Expr)
      requires e.Is(x)
      ensures Is(Not(x)) && repr == {this} + e.repr && fresh(this)
    {
      kind, left, right, lsym, rsym := KNot, e, null, ConstNo, ConstNo;
      repr := {this} + e.repr;
    }

    /** expr_alloc_two. */
    constructor Connective(op: Op, a: Node, b: Node, ghost x: Expr, ghost y: Expr)
      requires a.Is(x) && b.Is(y) && a.repr !! b.repr
      ensures Is(Bin(op, x, y)) && repr == {this} + a.repr + b.repr && fresh(this)
    {
      kind, left, right, lsym, rsym := KBin(op), a, b, ConstNo, ConstNo;
      repr := {this} + a.repr + b.repr;
    }

    /** expr_alloc_comp. */
    constructor Comparison(rel: Rel, l: Symbol, r: Symbol)
      ensures Is(Cmp(rel, l, r)) && fresh(repr)
    {
      kind, left, right, lsym, rsym := KCmp(rel), null, null, l, r;
      repr := {this};
    }

    /** The node becomes the symbol `s`. */
    method BecomeSymbol(s: Symbol)
      requires this in repr
      modifies this
      ensures Is(Sym(s)) && repr == old(repr)
    {
      kind, lsym := KSym, s;
      left, right := null, null;
    }

    /** `*e = *c` for the node `c` below `e`. */
    method BecomeCopy(c: Node, ghost x: Expr)
      requires this in repr && c in repr && c.repr <= repr && this !in c.repr && c.Is(x)
      modifies this
      ensures Is(x) && repr == old(repr)
    {
      kind, left, right, lsym, rsym := c.kind, c.left, c.right, c.lsym, c.rsym;
    }

    /** The node stands for a given symbol. */
    predicate IsSymbol(s: Symbol)
      reads this
    {
      kind == KSym && lsym == s
    }
  }

  /** expr_copy. */
  method Copy(e: Node, ghost x: Expr) returns (r: Node)
    requires e.Is(x)
    ensures r.Is(x) && fresh(r.repr)
    decreases x
  {
    if e.kind.KSym? {
      r := new Node.Symbol(e.lsym);
    } else if e.kind.KCmp? {
      r := new Node.Comparison(e.kind.rel, e.lsym, e.rsym);
    } else if e.kind.KNot? {
      var l := Copy(e.left, x.e);
      r := new Node.Negation(l, x.e);
    } else {
      var l := Copy(e.left, x.left);
      var q := Copy(e.right, x.right);
      r := new Node.Connective(e.kind.op, l, q, x.left, x.right);
    }
  }

  /** expr_trans_bool in place. */
  method TransBoolNode(e: Node, ghost x: Expr)
    requires e.Is(x)
    modifies e.repr
    ensures e.Is(TransBool(x)) && e.repr == old(e.repr)
    decreases x
  {
    match e.kind
    case KBin(_) =>
      TransBoolNode(e.left, x.left);
      TransBoolNode(e.right, x.right);
    case KNot =>
      TransBoolNode(e.left, x.e);
    case KCmp(rel) =>
      if rel == Unequal && TypeOf(e.lsym) == ThreeState && e.rsym == ConstNo {
        e.BecomeSymbol(e.lsym);
      }
    case KSym =>
  }

  /** expr_eliminate_yn in place. */
  method EliminateYnNode(e: Node, ghost x: Expr)
    requires e.Is(x)
    modifies e.repr
    ensures e.Is(EliminateYn(x)) && e.repr == old(e.repr)
    decreases x
  {
    if e.kind.KBin? {
      ConnectiveParts(e, e.kind.op, x);
      EliminateYnNode(e.left, x.left);
      EliminateYnNode(e.right, x.right);
      DropYn(e, e.kind.op, x.left, x.right);
    }
  }

  /** The switch on the operands of a connective, which are free of y and n below the top. */
  method DropYn(e: Node, op: Op, ghost x: Expr, ghost y: Expr)
    requires e.Is(Bin(op, EliminateYn(x), EliminateYn(y)))
    modifies e
    ensures e.Is(EliminateYn(Bin(op, x, y))) && e.repr == old(e.repr)
  {
    ghost var (a, b) := (EliminateYn(x), EliminateYn(y));
    var unit, zero := if op == And then ConstYes else ConstNo, if op == And then ConstNo else ConstYes;
    if e.left.IsSymbol(zero) {
      e.BecomeSymbol(zero);
    } else if e.left.IsSymbol(unit) {
      e.BecomeCopy(e.right, b);
    } else if e.right.IsSymbol(zero) {
      e.BecomeSymbol(zero);
    } else if e.right.IsSymbol(unit) {
      e.BecomeCopy(e.left, a);
    }
  }

  /** A comparison of a boolean symbol with n, m or y is overwritten. */
  method TransformComparison(e: Node, rel: Rel, ghost x: Expr)
    requires e.Is(x) && x.Cmp? && rel == x.rel
    modifies e
    ensures e.Is(TransformCmp(x.rel, x.lhs, x.rhs)) && fresh(e.repr - old(e.repr))
  {
    if TypeOf(e.lsym) == Boolean {
      if e.rsym == ConstMod {
        e.BecomeSymbol(if rel == Equal then ConstNo else ConstYes);
      } else if e.rsym == if rel == Equal then ConstYes else ConstNo {
        e.BecomeSymbol(e.lsym);
      } else if e.rsym == ConstYes || e.rsym == ConstNo {
        var n := new Node.Symbol(e.lsym);
        e.kind, e.left, e.right := KNot, n, null;
        e.repr := {e} + n.repr;
      }
    }
  }

  /** `!(a op b)` in `e` becomes `!a op' !b`, the node of the connective becoming the first negation. */
  method PushNegation(e: Node, ghost op: Op, ghost a: Expr, ghost b: Expr)
    requires e.Is(Not(Bin(op, a, b)))
    modifies e.repr
    ensures e.Is(DeMorgan(op, a, b)) && fresh(e.repr - old(e.repr))
  {
    var t := e.left;
    ConnectiveParts(t, op, Bin(op, a, b));
    var dual := Dual(t.kind.op);
    var n := new Node.Negation(t.right, b);
    BecomeNegation(t, op, a, b);
    e.kind := KBin(dual);
    Connect(e, dual, t, n, Not(a), Not(b));
  }

  /** The node of a connective becomes the negation of its first operand. */
  method BecomeNegation(t: Node, ghost op: Op, ghost a: Expr, ghost b: Expr)
    requires t.Is(Bin(op, a, b))
    modifies t
    ensures t.Is(Not(a)) && t.left == old(t.left) && t.repr == {t} + t.left.repr
  {
    t.kind, t.right := KNot, null;
    t.repr := {t} + t.left.repr;
  }

  /** expr_transform in place; the result may be a node below `e`. */
  method TransformNode(e: Node, ghost x: Expr) returns (r: Node)
    requires e.Is(x)
    modifies e.repr
    ensures r.Is(Transform(x)) && fresh(r.repr - old(e.repr))
    decreases Weight(x)
  {
    r := e;
    if e.kind.KCmp? {
      TransformComparison(e, e.kind.rel, x);
    } else if e.kind.KBin? {
      TransformOperands(e, x.op, x.left, x.right);
    } else if e.kind.KNot? {
      var l := TransformNode(e.left, x.e);
      e.left := l;
      e.repr := {e} + l.repr;
      r := TransformNegation(e, Transform(x.e), x);
    }
  }

  method TransformOperands(e: Node, ghost op: Op, ghost a: Expr, ghost b: Expr)
    requires e.Is(Bin(op, a, b))
    modifies e.repr
    ensures e.Is(Bin(op, Transform(a), Transform(b))) && fresh(e.repr - old(e.repr))
    decreases Weight(Bin(op, a, b)), 0
  {
    var l := TransformNode(e.left, a);
    e.left := l;
    var q := TransformNode(e.right, b);
    e.right := q;
    e.repr := {e} + l.repr + q.repr;
  }

  /** The second switch of expr_transform, for a negation whose operand `y` has been transformed. */
  method TransformNegation(e: Node, ghost y: Expr, ghost x: Expr) returns (r: Node)
    requires x.Not? && y == Transform(x.e) && e.Is(Not(y))
    modifies e.repr
    ensures r.Is(Transform(x)) && fresh(r.repr - old(e.repr))
    decreases Weight(x), 0
  {
    r := e;
    var t := e.left;
    if t.kind.KNot? {
      r := TransformNode(t.left, y.e);
    } else if t.kind.KCmp? {
      t.kind := KCmp(Flip(t.kind.rel));
      r := t;
    } else if t.kind.KBin? {
      PushNegation(e, y.op, y.left, y.right);
      r := TransformNode(e, DeMorgan(y.op, y.left, y.right));
    } else if t.lsym == ConstYes || t.lsym == ConstMod || t.lsym == ConstNo {
      t.lsym := if t.lsym == ConstYes then ConstNo else if t.lsym == ConstNo then ConstYes else ConstMod;
      r := t;
    }
  }

  /** expr_eq: equal or not, without changing either expression. */
  method ExprEqNodes(a: Node, b: Node, ghost x: Expr, ghost y: Expr) returns (res: bool)
    requires a.Is(x) && b.Is(y)
    ensures res == ExprEq(x, y)
    decreases Size(x) + Size(y), 1
  {
    if a.kind.KCmp? && b.kind.KCmp? {
      res := a.kind == b.kind && a.lsym == b.lsym && a.rsym == b.rsym;
    } else if a.kind.KSym? && b.kind.KSym? {
      res := a.lsym == b.lsym;
    } else if a.kind.KNot? && b.kind.KNot? {
      res := ExprEqNodes(a.left, b.left, x.e, y.e);
    } else if a.kind.KBin? && a.kind == b.kind {
      res := ChainsEq(a.kind.op, a, b, x, y);
    } else {
      res := false;
    }
  }

  /** Two chains are equal if on copies of them everything can be struck out. */
  method ChainsEq(op: Op, a: Node, b: Node, ghost x: Expr, ghost y: Expr) returns (res: bool)
    requires a.Is(x) && b.Is(y) && IsOp(op, x) && IsOp(op, y)
    ensures res == ExprEq(x, y)
    decreases Size(x) + Size(y), 1, 0
  {
    ghost var (x1, y1) := EliminateEq(op, x, y);
    ChainsResult(op, x, y);
    hide Node.Is, EliminateYn, EliminateEq, ExprEq;
    var c, d := StrikeCopies(op, a, b, x, y);
    EliminateYnNode(c, x1);
    EliminateYnNode(d, y1);
    res := SameSymbol(c, d, EliminateYn(x1), EliminateYn(y1));
  }

  method StrikeCopies(op: Op, a: Node, b: Node, ghost x: Expr, ghost y: Expr) returns (c: Node, d: Node)
    requires a.Is(x) && b.Is(y) && IsOp(op, x) && IsOp(op, y)
    ensures c.Is(EliminateEq(op, x, y).0) && d.Is(EliminateEq(op, x, y).1)
    ensures fresh(c.repr) && fresh(d.repr) && c.repr !! d.repr
    decreases Size(x) + Size(y), 0, 2
  {
    hide Node.Is, EliminateEq;
    c := Copy(a, x);
    d := Copy(b, y);
    c, d := EliminateEqNodes(op, c, d, x, y);
  }

  lemma ChainsResult(op: Op, x: Expr, y: Expr)
    requires IsOp(op, x) && IsOp(op, y)
    ensures var (x1, y1) := EliminateEq(op, x, y);
            var (a, b) := (EliminateYn(x1), EliminateYn(y1));
            ExprEq(x, y) <==> a.Sym? && b.Sym? && a.s == b.s
  {
  }

  method SameSymbol(c: Node, d: Node, ghost x: Expr, ghost y: Expr) returns (res: bool)
    requires c.Is(x) && d.Is(y)
    ensures res <==> x.Sym? && y.Sym? && x.s == y.s
  {
    res := c.kind.KSym? && d.kind.KSym? && c.lsym == d.lsym;
  }

  /** __expr_eliminate_eq on two separate trees: equal operands are replaced in both. */
  method EliminateEqNodes(op: Op, a: Node, b: Node, ghost x: Expr, ghost y: Expr) returns (a': Node, b': Node)
    requires a.Is(x) && b.Is(y) && a.repr !! b.repr
    modifies a.repr, b.repr
    ensures a'.Is(EliminateEq(op, x, y).0) && b'.Is(EliminateEq(op, x, y).1) && a'.repr !! b'.repr
    ensures fresh(a'.repr - old(a.repr)) && fresh(b'.repr - old(b.repr))
    decreases Size(x) + Size(y), if IsOp(op, x) || IsOp(op, y) then 0 else 2, 1
  {
    a', b' := a, b;
    if a.kind == KBin(op) {
      b' := StrikeLeft(op, a, b, x, y);
    } else if b.kind == KBin(op) {
      a' := StrikeRight(op, a, b, x, y);
    } else if a.kind.KSym? && b.kind.KSym? && a.lsym == b.lsym && HasYesOrNoFlag(a.lsym) {
    } else {
      var same := ExprEqNodes(a, b, x, y);
      if same {
        a' := new Node.Symbol(if op == And then ConstYes else ConstNo);
        b' := new Node.Symbol(if op == And then ConstYes else ConstNo);
      }
    }
  }

  /** Two operands `p` and `q` of one chain, in turn, against `b`. */
  method StrikeOnce(op: Op, p: Node, q: Node, b: Node, ghost x: Expr, ghost y: Expr, ghost z: Expr) returns (p': Node, b': Node)
    requires p.Is(x) && q.Is(y) && b.Is(z) && p.repr !! b.repr && q.repr !! b.repr && p.repr !! q.repr
    modifies p.repr, b.repr
    ensures p'.Is(EliminateEq(op, x, z).0) && b'.Is(EliminateEq(op, x, z).1) && q.Is(y) && q.repr == old(q.repr)
    ensures p'.repr !! b'.repr && q.repr !! b'.repr && p'.repr !! q.repr
    ensures fresh(p'.repr - old(p.repr)) && fresh(b'.repr - old(b.repr))
    decreases Size(x) + Size(z), 3
  {
    p', b' := EliminateEqNodes(op, p, b, x, z);
  }

  method StrikeOther(op: Op, a: Node, p: Node, q: Node, ghost x: Expr, ghost y: Expr, ghost z: Expr) returns (a': Node, p': Node)
    requires a.Is(x) && p.Is(y) && q.Is(z) && a.repr !! p.repr && a.repr !! q.repr && p.repr !! q.repr
    modifies a.repr, p.repr
    ensures a'.Is(EliminateEq(op, x, y).0) && p'.Is(EliminateEq(op, x, y).1) && q.Is(z) && q.repr == old(q.repr)
    ensures a'.repr !! p'.repr && a'.repr !! q.repr && p'.repr !! q.repr
    ensures fresh(a'.repr - old(a.repr)) && fresh(p'.repr - old(p.repr))
    decreases Size(x) + Size(y), 3
  {
    a', p' := EliminateEqNodes(op, a, p, x, y);
  }

  lemma LeftResult(op: Op, x: Expr, y: Expr)
    requires IsOp(op, x)
    ensures var (l, y1) := EliminateEq(op, x.left, y);
            var (r, y2) := EliminateEq(op, x.right, y1);
            EliminateEq(op, x, y) == (Bin(op, l, r), y2)
  {
  }

  lemma RightResult(op: Op, x: Expr, y: Expr)
    requires !IsOp(op, x) && IsOp(op, y)
    ensures var (x1, l) := EliminateEq(op, x, y.left);
            var (x2, r) := EliminateEq(op, x1, y.right);
            EliminateEq(op, x, y) == (x2, Bin(op, l, r))
  {
  }

  /** The nodes below a connective are apart from it and from each other. */
  lemma ConnectiveParts(a: Node, op: Op, x: Expr)
    requires a.Is(x) && IsOp(op, x)
    ensures a.kind == KBin(op) && a in a.repr && a.left != null && a.right != null
    ensures a !in a.left.repr + a.right.repr && a.left.repr + a.right.repr <= a.repr && a.left.repr !! a.right.repr
    ensures a.left.Is(x.left) && a.right.Is(x.right)
  {
  }

  /** Both operands of the chain `a` against `b`. */
  method StrikeLeft(op: Op, a: Node, b: Node, ghost x: Expr, ghost y: Expr) returns (b': Node)
    requires a.Is(x) && b.Is(y) && a.repr !! b.repr && IsOp(op, x)
    modifies a.repr, b.repr
    ensures a.Is(EliminateEq(op, x, y).0) && b'.Is(EliminateEq(op, x, y).1) && a.repr !! b'.repr
    ensures fresh(a.repr - old(a.repr)) && fresh(b'.repr - old(b.repr))
    decreases Size(x) + Size(y), 0, 0
  {
    ghost var (l1, y1) := EliminateEq(op, x.left, y);
    ghost var (r1, y2) := EliminateEq(op, x.right, y1);
    LeftResult(op, x, y);
    ConnectiveParts(a, op, x);
    hide EliminateEq, Node.Is;
    var p, q := a.left, a.right;
    var l, r;
    l, r, b' := StrikeBoth(op, p, q, b, x.left, x.right, y);
    Connect(a, op, l, r, l1, r1);
  }

  /** `p` and then `q` against `b`. */
  method StrikeBoth(op: Op, p: Node, q: Node, b: Node, ghost x: Expr, ghost y: Expr, ghost z: Expr)
    returns (p': Node, q': Node, b': Node)
    requires p.Is(x) && q.Is(y) && b.Is(z) && p.repr !! b.repr && q.repr !! b.repr && p.repr !! q.repr
    modifies p.repr, q.repr, b.repr
    ensures var (x1, z1) := EliminateEq(op, x, z);
            var (y1, z2) := EliminateEq(op, y, z1);
            p'.Is(x1) && q'.Is(y1) && b'.Is(z2)
    ensures p'.repr !! b'.repr && q'.repr !! b'.repr && p'.repr !! q'.repr
    ensures fresh(p'.repr - old(p.repr)) && fresh(q'.repr - old(q.repr)) && fresh(b'.repr - old(b.repr))
    decreases Size(x) + Size(y) + Size(z), 3
  {
    hide EliminateEq, Node.Is;
    var c;
    p', c := StrikeOnce(op, p, q, b, x, y, z);
    q', b' := StrikeOnce(op, q, p', c, y, EliminateEq(op, x, z).0, EliminateEq(op, x, z).1);
  }

  /** The operands of a connective are replaced. */
  method Connect(a: Node, op: Op, l: Node, r: Node, ghost x: Expr, ghost y: Expr)
    requires a.kind == KBin(op) && l.Is(x) && r.Is(y) && l.repr !! r.repr && a !in l.repr + r.repr
    modifies a
    ensures a.Is(Bin(op, x, y)) && a.repr == {a} + l.repr + r.repr
  {
    a.left, a.right := l, r;
    a.repr := {a} + l.repr + r.repr;
  }

  /** `a` against both operands of the chain `b`. */
  method StrikeRight(op: Op, a: Node, b: Node, ghost x: Expr, ghost y: Expr) returns (a': Node)
    requires a.Is(x) && b.Is(y) && a.repr !! b.repr && !IsOp(op, x) && IsOp(op, y)
    modifies a.repr, b.repr
    ensures a'.Is(EliminateEq(op, x, y).0) && b.Is(EliminateEq(op, x, y).1) && a'.repr !! b.repr
    ensures fresh(a'.repr - old(a.repr)) && fresh(b.repr - old(b.repr))
    decreases Size(x) + Size(y), 0, 0
  {
    ghost var (x1, l1) := EliminateEq(op, x, y.left);
    ghost var (x2, r1) := EliminateEq(op, x1, y.right);
    RightResult(op, x, y);
    ConnectiveParts(b, op, y);
    hide EliminateEq, Node.Is;
    var p, q := b.left, b.right;
    var l, r;
    a', l, r := StrikeOthers(op, a, p, q, x, y.left, y.right);
    Connect(b, op, l, r, l1, r1);
  }

  /** `a` against `p` and what is left of it against `q`. */
  method StrikeOthers(op: Op, a: Node, p: Node, q: Node, ghost x: Expr, ghost y: Expr, ghost z: Expr)
    returns (a': Node, p': Node, q': Node)
    requires a.Is(x) && p.Is(y) && q.Is(z) && a.repr !! p.repr && a.repr !! q.repr && p.repr !! q.repr
    modifies a.repr, p.repr, q.repr
    ensures var (x1, y1) := EliminateEq(op, x, y);
            var (x2, z1) := EliminateEq(op, x1, z);
            a'.Is(x2) && p'.Is(y1) && q'.Is(z1)
    ensures a'.repr !! p'.repr && a'.repr !! q'.repr && p'.repr !! q'.repr
    ensures fresh(a'.repr - old(a.repr)) && fresh(p'.repr - old(p.repr)) && fresh(q'.repr - old(q.repr))
    decreases Size(x) + Size(y) + Size(z), 3
  {
    hide EliminateEq, Node.Is;
    var c;
    c, p' := StrikeOther(op, a, p, q, x, y, z);
    a', q' := StrikeOther(op, c, q, p', EliminateEq(op, x, y).0, z, EliminateEq(op, x, y).1);
  }
}
