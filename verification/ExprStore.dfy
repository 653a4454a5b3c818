/** Expressions as nodes in memory, and the slots that point to them. */
module ExprStore {
  import opened Tristate
  import opened Symbols
  import opened Expressions
  import opened ExprSlots

  type Ref = nat

  /** struct expr; the union holds what the type says. */
  datatype Cell = SymCell(s: Symbol) | NotCell(e: Ref) | CmpCell(rel: Rel, l: Symbol, r: Symbol) | BinCell(op: Op, left: Ref, right: Ref)

  type Cells = map<Ref, Cell>

  /** `struct expr **`: the address of the caller's variable or of a field of a node. */
  datatype Slot = Variable | Side(owner: Ref, d: Dir)

  predicate SlotOk(c: Cells, s: Slot) {
    s.Side? ==> s.owner in c && c[s.owner].BinCell?
  }

  /** What the slot points to; `root` is the value of the caller's variable. */
  function Pointed(c: Cells, root: Ref, s: Slot): Ref
    requires SlotOk(c, s)
  {
    if s.Variable? then root else if s.d == L then c[s.owner].left else c[s.owner].right
  }

  /** The field of a node is overwritten. */
  function Redirect(c: Cells, s: Slot, r: Ref): Cells
    requires SlotOk(c, s)
  {
    if s.Variable? then c
    else c[s.owner := if s.d == L then c[s.owner].(left := r) else c[s.owner].(right := r)]
  }

  /** An expression together with the nodes that hold it. */
  datatype Tree = Leaf(id: Ref, x: Expr) | Neg(id: Ref, t: Tree) | Pair(id: Ref, op: Op, l: Tree, r: Tree)

  function ExprIn(t: Tree): Expr {
    match t
    case Leaf(_, x) => x
    case Neg(_, u) => Not(ExprIn(u))
    case Pair(_, op, l, r) => Bin(op, ExprIn(l), ExprIn(r))
  }

  function Refs(t: Tree): set<Ref> {
    match t
    case Leaf(id, _) => {id}
    case Neg(id, u) => {id} + Refs(u)
    case Pair(id, _, l, r) => {id} + Refs(l) + Refs(r)
  }

  /** No node occurs twice. */
  predicate Apart(t: Tree) {
    match t
    case Leaf(_, x) => x.Sym? || x.Cmp?
    case Neg(id, u) => id !in Refs(u) && Apart(u)
    case Pair(id, _, l, r) => id !in Refs(l) && id !in Refs(r) && Refs(l) !! Refs(r) && Apart(l) && Apart(r)
  }

  predicate Holds(c: Cells, t: Tree) {
    t.id in c &&
    match t
    case Leaf(id, x) => if x.Sym? then c[id] == SymCell(x.s) else x.Cmp? && c[id] == CmpCell(x.rel, x.lhs, x.rhs)
    case Neg(id, u) => c[id] == NotCell(u.id) && Holds(c, u)
    case Pair(id, op, l, r) => c[id] == BinCell(op, l.id, r.id) && Holds(c, l) && Holds(c, r)
  }

  lemma {:induction false} HoldsFrame(c: Cells, c': Cells, t: Tree)
    requires Holds(c, t) && forall r :: r in Refs(t) && r in c ==> r in c' && c'[r] == c[r]
    ensures Holds(c', t)
  {
    match t {
      case Leaf(_, _) =>
      case Neg(_, u) => HoldsFrame(c, c', u);
      case Pair(_, _, l, r) => HoldsFrame(c, c', l); HoldsFrame(c, c', r);
    }
  }

  lemma {:induction false} HeldRefs(c: Cells, t: Tree)
    requires Holds(c, t)
    ensures t.id in Refs(t) && Refs(t) <= c.Keys
  {
    match t {
      case Leaf(_, _) =>
      case Neg(_, u) => HeldRefs(c, u);
      case Pair(_, _, l, r) => HeldRefs(c, l); HeldRefs(c, r);
    }
  }

  /** The slot `s` points to `t`, and is not part of it. */
  predicate Hangs(c: Cells, root: Ref, s: Slot, t: Tree) {
    SlotOk(c, s) && Pointed(c, root, s) == t.id && Holds(c, t) && Apart(t) && (s.Side? ==> s.owner !in Refs(t))
  }

  // ----- Paths -----

  function Kid(t: Tree, d: Dir): Tree
    requires t.Pair?
  {
    if d == L then t.l else t.r
  }

  predicate HasPath(t: Tree, p: Path) {
    p == [] || (t.Pair? && HasPath(Kid(t, p[0]), p[1..]))
  }

  function Sub(t: Tree, p: Path): Tree
    requires HasPath(t, p)
  {
    if p == [] then t else Sub(Kid(t, p[0]), p[1..])
  }

  /** The slot at the end of a path, when `s` is the one at its start. */
  function SlotOf(t: Tree, p: Path, s: Slot): Slot
    requires HasPath(t, p)
  {
    if p == [] then s else SlotOf(Kid(t, p[0]), p[1..], Side(t.id, p[0]))
  }

  function Replace(t: Tree, p: Path, u: Tree): Tree
    requires HasPath(t, p)
  {
    if p == [] then u
    else if p[0] == L then t.(l := Replace(t.l, p[1..], u))
    else t.(r := Replace(t.r, p[1..], u))
  }

  lemma {:induction false} PathOfSlot(op: Op, t: Tree, p: Path)
    requires InChain(op, ExprIn(t), p) && Apart(t)
    ensures HasPath(t, p) && ExprIn(Sub(t, p)) == At(op, ExprIn(t), p)
  {
    if p != [] {
      PathOfSlot(op, Kid(t, p[0]), p[1..]);
    }
  }

  lemma {:induction false} SubHangs(c: Cells, root: Ref, s: Slot, t: Tree, p: Path)
    requires Hangs(c, root, s, t) && HasPath(t, p)
    ensures Hangs(c, root, SlotOf(t, p, s), Sub(t, p)) && Refs(Sub(t, p)) <= Refs(t)
    ensures p != [] ==> SlotOf(t, p, s).Side? && SlotOf(t, p, s).owner in Refs(t) && t.id !in Refs(Sub(t, p))
    decreases t
  {
    if p != [] {
      SubHangs(c, root, Side(t.id, p[0]), Kid(t, p[0]), p[1..]);
    }
  }

  lemma {:induction false} Below(t: Tree, p: Path, s: Slot, d: Dir)
    requires HasPath(t, p) && Sub(t, p).Pair?
    ensures HasPath(t, p + [d]) && Sub(t, p + [d]) == Kid(Sub(t, p), d) && SlotOf(t, p + [d], s) == Side(Sub(t, p).id, d)
  {
    if p == [] {
      assert (p + [d])[1..] == [];
    } else {
      Below(Kid(t, p[0]), p[1..], Side(t.id, p[0]), d);
      assert (p + [d])[1..] == p[1..] + [d];
    }
  }

  /** Different slots point to different nodes. */
  lemma {:induction false} SlotsDiffer(t: Tree, p: Path, q: Path)
    requires Apart(t) && HasPath(t, p) && HasPath(t, q)
    ensures Sub(t, p).id == Sub(t, q).id <==> p == q
  {
    SubInside(t, p);
    SubInside(t, q);
    if p != [] && q != [] {
      if p[0] == q[0] {
        SlotsDiffer(Kid(t, p[0]), p[1..], q[1..]);
        assert p == [p[0]] + p[1..] && q == [q[0]] + q[1..];
      } else {
        SubInside(Kid(t, p[0]), p[1..]);
        SubInside(Kid(t, q[0]), q[1..]);
      }
    }
  }

  lemma {:induction false} SubInside(t: Tree, p: Path)
    requires Apart(t) && HasPath(t, p)
    ensures Sub(t, p).id in Refs(t) && (p != [] ==> Sub(t, p).id != t.id) && Apart(Sub(t, p))
  {
    if p != [] {
      SubInside(Kid(t, p[0]), p[1..]);
    }
  }

  // ----- What a pass keeps -----

  /** The connectives of the chain are the same nodes. */
  predicate Spine(op: Op, t: Tree, t': Tree) {
    if t.Pair? && t.op == op then t'.Pair? && t'.op == op && t'.id == t.id && Spine(op, t.l, t'.l) && Spine(op, t.r, t'.r)
    else !(t'.Pair? && t'.op == op)
  }

  lemma {:induction false} SpineRefl(op: Op, t: Tree)
    ensures Spine(op, t, t)
  {
    if t.Pair? && t.op == op {
      SpineRefl(op, t.l);
      SpineRefl(op, t.r);
    }
  }

  lemma {:induction false} SpineTwice(op: Op, a: Tree, b: Tree, c: Tree)
    requires Spine(op, a, b) && Spine(op, b, c)
    ensures Spine(op, a, c)
  {
    if a.Pair? && a.op == op {
      SpineTwice(op, a.l, b.l, c.l);
      SpineTwice(op, a.r, b.r, c.r);
    }
  }

  /** So the slots of the chain are the same. */
  lemma {:induction false} SpineSlots(op: Op, t: Tree, t': Tree, p: Path, s: Slot)
    requires Spine(op, t, t') && InChain(op, ExprIn(t), p) && Apart(t) && Apart(t')
    ensures InChain(op, ExprIn(t'), p) && HasPath(t, p) && HasPath(t', p) && SlotOf(t', p, s) == SlotOf(t, p, s)
    ensures IsOp(op, At(op, ExprIn(t), p)) ==> Sub(t', p).id == Sub(t, p).id
    ensures IsOp(op, At(op, ExprIn(t), p)) <==> IsOp(op, At(op, ExprIn(t'), p))
  {
    if p != [] {
      SpineSlots(op, Kid(t, p[0]), Kid(t', p[0]), p[1..], Side(t.id, p[0]));
    }
  }

  /** Nothing outside `t` has changed, and `t'` is made of nodes of `t` and new ones. */
  predicate Only(c: Cells, c': Cells, t: Tree, t': Tree) {
    c.Keys <= c'.Keys && (forall r :: r in c && r !in Refs(t) ==> c'[r] == c[r]) &&
    forall r :: r in Refs(t') ==> r in Refs(t) || r !in c
  }

  lemma OnlyTwice(a: Cells, b: Cells, c: Cells, t: Tree, u: Tree, w: Tree)
    requires Only(a, b, t, u) && Only(b, c, u, w)
    ensures Only(a, c, t, w)
  {
  }

  // ----- Another operand in a slot -----

  /** `c'` differs from `c`, around the operand at `p`, only in what the slot of the operand points to. */
  predicate Around(c: Cells, c': Cells, t: Tree, p: Path, s: Slot, u: Tree)
    requires HasPath(t, p) && SlotOk(c, SlotOf(t, p, s))
  {
    (forall r :: r in Refs(t) && r !in Refs(Sub(t, p)) && r in c ==> r in c' && c'[r] == Redirect(c, SlotOf(t, p, s), u.id)[r]) &&
    (forall r :: r in Refs(u) ==> r in Refs(Sub(t, p)) || r !in c)
  }

  lemma {:induction false} Replaced(op: Op, c: Cells, c': Cells, root: Ref, s: Slot, t: Tree, p: Path, u: Tree)
    requires Hangs(c, root, s, t) && HasPath(t, p) && InChain(op, ExprIn(t), p) && p != []
    requires !IsOp(op, At(op, ExprIn(t), p)) && !IsOp(op, ExprIn(u)) && Holds(c', u) && Apart(u)
    requires SlotOk(c, SlotOf(t, p, s)) && Around(c, c', t, p, s, u)
    ensures var t' := Replace(t, p, u);
            Holds(c', t') && Apart(t') && t'.id == t.id && Spine(op, t, t') &&
            ExprIn(t') == Put(op, ExprIn(t), p, ExprIn(u)) &&
            forall r :: r in Refs(t') ==> r in Refs(u) || (r in Refs(t) && r !in Refs(Sub(t, p)))
    decreases t
  {
    var (d, k) := (p[0], Kid(t, p[0]));
    HeldRefs(c, t);
    HeldRefs(c, k);
    SubHangs(c, root, Side(t.id, d), k, p[1..]);
    assert SlotOf(t, p, s) == SlotOf(k, p[1..], Side(t.id, d)) && Sub(t, p) == Sub(k, p[1..]);
    OtherKid(op, c, c', t, p, s, u);
    if p[1..] != [] {
      hide At;
      Replaced(op, c, c', root, Side(t.id, d), k, p[1..], u);
    }
  }

  /** The other operand of the connective is not touched. */
  lemma OtherKid(op: Op, c: Cells, c': Cells, t: Tree, p: Path, s: Slot, u: Tree)
    requires t.Pair? && p != [] && HasPath(t, p) && Holds(c, t) && Apart(t) && Refs(Sub(t, p)) <= Refs(Kid(t, p[0])) && Refs(t) <= c.Keys
    requires SlotOk(c, SlotOf(t, p, s)) && SlotOf(t, p, s).Side? && SlotOf(t, p, s).owner in {t.id} + Refs(Kid(t, p[0]))
    requires Around(c, c', t, p, s, u)
    ensures var other := if p[0] == L then t.r else t.l; Holds(c', other) && Spine(op, other, other)
  {
    var other := if p[0] == L then t.r else t.l;
    hide Sub, SlotOf;
    HoldsFrame(c, c', other);
    SpineRefl(op, other);
  }

  /** A new tree for `x`; everything else is as before. */
  predicate NewTree(c: Cells, c': Cells, u: Tree, x: Expr) {
    Holds(c', u) && Apart(u) && ExprIn(u) == x && c.Keys <= c'.Keys && (forall r :: r in c ==> c'[r] == c[r]) &&
    forall r :: r in Refs(u) ==> r !in c
  }

  /** A pass over the `op` chain `t` in slot `s` has left `t'` there. */
  predicate Rewritten(op: Op, c: Cells, c': Cells, root: Ref, s: Slot, t: Tree, t': Tree) {
    Hangs(c', root, s, t') && Only(c, c', t, t') && Spine(op, t, t')
  }

  lemma RewrittenRefl(op: Op, c: Cells, root: Ref, s: Slot, t: Tree)
    requires Hangs(c, root, s, t)
    ensures Rewritten(op, c, c, root, s, t, t)
  {
    SpineRefl(op, t);
  }

  lemma RewrittenTwice(op: Op, c: Cells, c1: Cells, c2: Cells, root: Ref, s: Slot, t: Tree, t1: Tree, t2: Tree)
    requires Rewritten(op, c, c1, root, s, t, t1) && Rewritten(op, c1, c2, root, s, t1, t2)
    ensures Rewritten(op, c, c2, root, s, t, t2)
  {
    OnlyTwice(c, c1, c2, t, t1, t2);
    SpineTwice(op, t, t1, t2);
  }

  /** The slot at `p` can be read: it points to the part of the expression at `p`. */
  lemma SlotRead(op: Op, c: Cells, root: Ref, s: Slot, t: Tree, p: Path)
    requires Hangs(c, root, s, t) && InChain(op, ExprIn(t), p)
    ensures HasPath(t, p) && Hangs(c, root, SlotOf(t, p, s), Sub(t, p)) && ExprIn(Sub(t, p)) == At(op, ExprIn(t), p)
    ensures Sub(t, p).id in c && (Sub(t, p).Pair? <==> At(op, ExprIn(t), p).Bin?)
    ensures var cell := c[Sub(t, p).id];
            (cell.BinCell? <==> At(op, ExprIn(t), p).Bin?) && (cell.BinCell? ==> cell.op == At(op, ExprIn(t), p).op == Sub(t, p).op)
  {
    PathOfSlot(op, t, p);
    SubHangs(c, root, s, t, p);
  }

  /** A node of the chain has slots below it. */
  lemma SlotBelow(op: Op, c: Cells, root: Ref, s: Slot, t: Tree, p: Path, d: Dir)
    requires Hangs(c, root, s, t) && InChain(op, ExprIn(t), p) && IsOp(op, At(op, ExprIn(t), p))
    ensures InChain(op, ExprIn(t), p + [d]) && HasPath(t, p) && HasPath(t, p + [d])
    ensures SlotOf(t, p + [d], s) == Side(Sub(t, p).id, d)
  {
    PathOfSlot(op, t, p);
    Descend(op, ExprIn(t), p, d);
    SubHangs(c, root, s, t, p);
    Below(t, p, s, d);
  }

  /** After a pass the slots of the chain are where they were. */
  lemma SlotStays(op: Op, c: Cells, c': Cells, root: Ref, s: Slot, t: Tree, t': Tree, p: Path)
    requires Hangs(c, root, s, t) && Rewritten(op, c, c', root, s, t, t') && InChain(op, ExprIn(t), p)
    ensures InChain(op, ExprIn(t'), p) && HasPath(t, p) && HasPath(t', p) && SlotOf(t', p, s) == SlotOf(t, p, s)
    ensures IsOp(op, At(op, ExprIn(t), p)) <==> IsOp(op, At(op, ExprIn(t'), p))
    ensures IsOp(op, At(op, ExprIn(t), p)) ==> Sub(t', p).id == Sub(t, p).id
  {
    SpineSlots(op, t, t', p, s);
  }

  /** The operand at `p` is replaced by the new tree `u`. */
  lemma WrittenNew(op: Op, c: Cells, c1: Cells, root: Ref, s: Slot, t: Tree, p: Path, u: Tree, x: Expr)
    requires Hangs(c, root, s, t) && IsOp(op, ExprIn(t)) && IsOperand(op, ExprIn(t), p) && !IsOp(op, x) && NewTree(c, c1, u, x)
    ensures HasPath(t, p) && SlotOk(c1, SlotOf(t, p, s)) && p != []
    ensures var c' := Redirect(c1, SlotOf(t, p, s), u.id);
            Rewritten(op, c, c', root, s, t, Replace(t, p, u)) && ExprIn(Replace(t, p, u)) == Put(op, ExprIn(t), p, x)
  {
    SlotRead(op, c, root, s, t, p);
    SubHangs(c, root, s, t, p);
    HeldRefs(c, t);
    hide Holds, Apart, Spine, At, Put, Replace, NewTree, Sub, SlotOf;
    NewAround(c, c1, root, s, t, p, u, x);
    Replaced(op, c, Redirect(c1, SlotOf(t, p, s), u.id), root, s, t, p, u);
  }

  /** What writing a new tree into a slot changes. */
  lemma NewAround(c: Cells, c1: Cells, root: Ref, s: Slot, t: Tree, p: Path, u: Tree, x: Expr)
    requires Hangs(c, root, s, t) && HasPath(t, p) && p != [] && NewTree(c, c1, u, x)
    ensures SlotOk(c, SlotOf(t, p, s)) && SlotOk(c1, SlotOf(t, p, s))
    ensures var c' := Redirect(c1, SlotOf(t, p, s), u.id);
            Around(c, c', t, p, s, u) && Holds(c', u) && Apart(u) && ExprIn(u) == x && c.Keys <= c'.Keys &&
            (forall r :: r in c && r !in Refs(t) ==> c'[r] == c[r]) && forall r :: r in Refs(u) ==> r !in c
  {
    SubHangs(c, root, s, t, p);
    HeldRefs(c, t);
    HeldRefs(c1, u);
    NewField(c, c1, SlotOf(t, p, s), u.id);
    hide Sub, SlotOf, Redirect, SlotOk, Holds, Apart;
    HoldsFrame(c1, Redirect(c1, SlotOf(t, p, s), u.id), u);
  }

  lemma NewField(c: Cells, c1: Cells, s: Slot, r: Ref)
    requires SlotOk(c, s) && s.Side? && c.Keys <= c1.Keys && forall k :: k in c ==> c1[k] == c[k]
    ensures SlotOk(c1, s) && Redirect(c1, s, r).Keys == c1.Keys && Redirect(c, s, r).Keys == c.Keys
    ensures forall k :: k in c ==> Redirect(c1, s, r)[k] == Redirect(c, s, r)[k]
    ensures forall k :: k in c1 && k != s.owner ==> Redirect(c1, s, r)[k] == c1[k]
  {
  }

  /** The operand at `p` has been rewritten in its place to `u`. */
  lemma WrittenInside(op: Op, c: Cells, c': Cells, root: Ref, s: Slot, t: Tree, p: Path, u: Tree, inner: Op)
    requires Hangs(c, root, s, t) && IsOp(op, ExprIn(t)) && IsOperand(op, ExprIn(t), p) && HasPath(t, p) && inner != op
    requires Sub(t, p).Pair? && Sub(t, p).op == inner && Rewritten(inner, c, c', root, SlotOf(t, p, s), Sub(t, p), u)
    ensures p != [] && Rewritten(op, c, c', root, s, t, Replace(t, p, u)) && ExprIn(Replace(t, p, u)) == Put(op, ExprIn(t), p, ExprIn(u))
  {
    SlotRead(op, c, root, s, t, p);
    SubHangs(c, root, s, t, p);
    HeldRefs(c, t);
    assert u.id == Sub(t, p).id;
    assert Redirect(c, SlotOf(t, p, s), u.id) == c;
    hide Holds, Apart, At, Put, IsOperand;
    Replaced(op, c, c', root, s, t, p, u);
  }

  // ----- A node that becomes another one -----

  function WithId(t: Tree, id: Ref): Tree {
    t.(id := id)
  }

  /** `*e = *c`: the node takes over what `c` holds. */
  lemma CopiedCell(c: Cells, t: Tree, id: Ref)
    requires Holds(c, t) && Apart(t) && id !in Refs(t)
    ensures var (c', t') := (c[id := c[t.id]], WithId(t, id));
            Holds(c', t') && Apart(t') && ExprIn(t') == ExprIn(t) && Refs(t') <= Refs(t) + {id}
  {
    var c' := c[id := c[t.id]];
    match t {
      case Leaf(_, _) =>
      case Neg(_, u) => HoldsFrame(c, c', u);
      case Pair(_, _, l, r) => HoldsFrame(c, c', l); HoldsFrame(c, c', r);
    }
  }

  /** `t` in its place has become `t'`. */
  predicate InPlace(c: Cells, c': Cells, t: Tree, t': Tree) {
    Holds(c', t') && Apart(t') && t'.id == t.id && Refs(t') <= Refs(t) && c'.Keys == c.Keys &&
    forall r :: r in c && r !in Refs(t) ==> c'[r] == c[r]
  }

  /** Both operands have been rewritten in their places. */
  lemma BothInPlace(c: Cells, c1: Cells, c2: Cells, t: Tree, l: Tree, r: Tree)
    requires t.Pair? && Holds(c, t) && Apart(t) && InPlace(c, c1, t.l, l) && InPlace(c1, c2, t.r, r)
    ensures InPlace(c, c2, t, Pair(t.id, t.op, l, r))
  {
    HeldRefs(c, t);
    HeldRefs(c, t.l);
    HeldRefs(c, t.r);
    HoldsFrame(c1, c2, l);
  }

  /** The node of a connective takes over what one of its operands holds. */
  lemma OperandTaken(c: Cells, c': Cells, t: Tree, u: Tree, x: Tree)
    requires u.Pair? && InPlace(c, c', t, u) && (x == u.l || x == u.r)
    ensures x.id in c'
    ensures InPlace(c, c'[u.id := c'[x.id]], t, WithId(x, u.id)) && ExprIn(WithId(x, u.id)) == ExprIn(x)
  {
    HeldRefs(c', u);
    CopiedCell(c', x, u.id);
  }

  lemma SymbolTaken(c: Cells, c': Cells, t: Tree, u: Tree, s: Symbol)
    requires InPlace(c, c', t, u)
    ensures InPlace(c, c'[u.id := SymCell(s)], t, Leaf(u.id, Sym(s)))
  {
    HeldRefs(c', u);
  }

  lemma HeldSymbol(c: Cells, t: Tree, s: Symbol)
    requires Holds(c, t) && Apart(t)
    ensures t.id in c && (c[t.id] == SymCell(s) <==> ExprIn(t) == Sym(s))
  {
  }
}
