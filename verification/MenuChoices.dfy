/** What menu_finalize makes of the conditions of choice values. */
module MenuChoices {
  import opened Options
  import opened Tristate
  import opened Symbols
  import opened Expressions
  import opened ExprEquality
  import opened ExprTransformation
  import opened ExprJoining
  import opened ExprSlots
  import opened ExprDuplicates
  import opened ExprComparison
  import opened SymbolSpec
  import opened MenuForest
  import opened MenuDeps
  import opened MenuSteps
  import opened MenuTrace
  import opened MenuSubmenu

  // ----- Simplification keeps a guard -----

  /** The operand at slot `p` of the conjunction is a guard. */
  predicate GuardAt(e: Expr, c: Symbol, p: Path) {
    IsOperand(And, e, p) && IsGuard(At(And, e, p), c)
  }

  lemma {:induction false} UnderSlot(e: Expr, c: Symbol) returns (p: Path)
    requires Under(e, c)
    ensures GuardAt(e, c, p)
  {
    if IsGuard(e, c) {
      p := [];
    } else {
      var d := if Under(e.left, c) then L else R;
      var t := UnderSlot(Child(e, d), c);
      p := [d] + t;
      assert p[1..] == t;
    }
  }

  lemma {:induction false} SlotUnder(e: Expr, c: Symbol, p: Path)
    requires GuardAt(e, c, p)
    ensures Under(e, c)
  {
    if p != [] {
      SlotUnder(Child(e, p[0]), c, p[1..]);
    }
  }

  /** Joining a guard with something gives a guard. */
  lemma JoinGuard(a: Expr, b: Expr, c: Symbol)
    requires c.Choice? && Join(And, a, b).Some? && (IsGuard(a, c) || IsGuard(b, c))
    ensures IsGuard(Join(And, a, b).value, c)
  {
  }

  lemma PutGuard(e: Expr, c: Symbol, p: Path, x: Expr, r: Path)
    requires IsOperand(And, e, p) && !IsOp(And, x) && GuardAt(e, c, r) && (p != r || IsGuard(x, c))
    ensures GuardAt(Put(And, e, p, x), c, r)
  {
    PutOperand(And, e, p, x);
    if p != r {
      PutElsewhere(And, e, p, x, r);
    }
  }

  lemma JoinOperandsGuard(e: Expr, c: Symbol, p: Path, q: Path, r: Path) returns (r': Path)
    requires c.Choice? && IsOp(And, e) && IsOperand(And, e, p) && IsOperand(And, e, q) && p != q && GuardAt(e, c, r)
    ensures GuardAt(JoinOperands(And, e, p, q).0, c, r')
  {
    var j := Join(And, At(And, e, p), At(And, e, q));
    r' := r;
    if j.Some? {
      JoinShape(And, At(And, e, p), At(And, e, q));
      PutOperand(And, e, p, UnitExpr(And));
      PutElsewhere(And, e, p, UnitExpr(And), q);
      var e1 := Put(And, e, p, UnitExpr(And));
      PutOperand(And, e1, q, j.value);
      if r == p || r == q {
        JoinGuard(At(And, e, p), At(And, e, q), c);
        r' := q;
      } else {
        PutGuard(e, c, p, UnitExpr(And), r);
        PutGuard(e1, c, q, j.value, r);
      }
    }
  }

  lemma {:induction false} Dups1Guard(e: Expr, c: Symbol, p: Path, q: Path, r: Path) returns (r': Path)
    requires c.Choice? && IsOp(And, e) && InChain(And, e, p) && InChain(And, e, q) && GuardAt(e, c, r)
    ensures GuardAt(Dups1(And, e, p, q).0, c, r')
    decreases ChainSize(And, At(And, e, p)), ChainSize(And, At(And, e, q))
  {
    PassedNothing(And, e);
    if IsOp(And, At(And, e, p)) {
      PassedSlots(And, e, e, 0, p, L, q);
      var (e1, n1) := Dups1(And, e, p + [L], q);
      PassedSlots(And, e, e1, n1, p, R, q);
      r' := Dups1Guard(e, c, p + [L], q, r);
      r' := Dups1Guard(e1, c, p + [R], q, r');
    } else if IsOp(And, At(And, e, q)) {
      PassedSlots(And, e, e, 0, q, L, p);
      var (e1, n1) := Dups1(And, e, p, q + [L]);
      PassedSlots(And, e, e1, n1, q, R, p);
      r' := Dups1Guard(e, c, p, q + [L], r);
      r' := Dups1Guard(e1, c, p, q + [R], r');
    } else {
      r' := r;
      if p != q {
        var (e1, n1) := Dups1Inside(And, e, p);
        InsideGuard(e, c, p, r);
        SameChainSlots(And, e, e1, p);
        SameChainSlots(And, e, e1, q);
        r' := JoinOperandsGuard(e1, c, p, q, r);
      }
    }
  }

  /** A pass over an operand that is a chain does not touch the guard. */
  lemma InsideGuard(e: Expr, c: Symbol, p: Path, r: Path)
    requires IsOp(And, e) && IsOperand(And, e, p) && GuardAt(e, c, r)
    ensures GuardAt(Dups1Inside(And, e, p).0, c, r)
  {
    var x := At(And, e, p);
    if x.Bin? {
      PutGuard(e, c, p, Dups1(x.op, x, [], []).0, r);
    }
  }

  lemma {:induction false} Dups2Guard(e: Expr, c: Symbol, p: Path, q: Path, r: Path)
    requires IsOp(And, e) && InChain(And, e, p) && InChain(And, e, q) && GuardAt(e, c, r)
    ensures GuardAt(Dups2(And, e, p, q).0, c, r)
    decreases ChainSize(And, At(And, e, p)), ChainSize(And, At(And, e, q)), 1
  {
    PassedNothing(And, e);
    if IsOp(And, At(And, e, p)) {
      PassedSlots(And, e, e, 0, p, L, q);
      var (e1, n1) := Dups2(And, e, p + [L], q);
      PassedSlots(And, e, e1, n1, p, R, q);
      Dups2Guard(e, c, p + [L], q, r);
      Dups2Guard(e1, c, p + [R], q, r);
    } else {
      var (e1, n1) := Dups2Below(And, e, p, q);
      Dups2BelowGuard(e, c, p, q, r);
      SameChainSlots(And, e, e1, p);
      SameChainSlots(And, e, e1, q);
      if p != q && At(And, e1, p).Bin? {
        AbsorbGuard(e1, c, p, q, r);
      }
    }
  }

  /** What is absorbed is a chain, not the guard. */
  lemma AbsorbGuard(e: Expr, c: Symbol, p: Path, q: Path, r: Path)
    requires IsOp(And, e) && IsOperand(And, e, p) && InChain(And, e, q) && At(And, e, p).Bin? && GuardAt(e, c, r)
    ensures var x := At(And, e, p);
            var e' := Put(And, e, p, Dups2(x.op, x, [], []).0);
            GuardAt(e', c, r) && IsOperand(And, e', p) && GuardAt(Put(And, e', p, ZeroExpr(And)), c, r)
  {
    var x := At(And, e, p);
    var (x', n) := Dups2(x.op, x, [], []);
    PassedInside(And, e, p, x', n);
    PutGuard(e, c, p, x', r);
    PutGuard(Put(And, e, p, x'), c, p, ZeroExpr(And), r);
  }

  lemma {:induction false} Dups2BelowGuard(e: Expr, c: Symbol, p: Path, q: Path, r: Path)
    requires IsOp(And, e) && IsOperand(And, e, p) && InChain(And, e, q) && GuardAt(e, c, r)
    ensures GuardAt(Dups2Below(And, e, p, q).0, c, r)
    decreases ChainSize(And, At(And, e, p)), ChainSize(And, At(And, e, q)), 0
  {
    PassedNothing(And, e);
    if IsOp(And, At(And, e, q)) {
      PassedSlots(And, e, e, 0, q, L, p);
      var (e1, n1) := Dups2(And, e, p, q + [L]);
      PassedSlots(And, e, e1, n1, q, R, p);
      Dups2Guard(e, c, p, q + [L], r);
      Dups2Guard(e1, c, p, q + [R], r);
    }
  }

  lemma {:induction false} EliminateYnUnder(e: Expr, c: Symbol)
    requires c.Choice? && Under(e, c)
    ensures Under(EliminateYn(e), c)
  {
    if !IsGuard(e, c) {
      if Under(e.left, c) {
        EliminateYnUnder(e.left, c);
      } else {
        EliminateYnUnder(e.right, c);
      }
    }
  }

  /** What expr_eliminate_dups makes of a guarded condition is guarded. */
  lemma {:induction false} EliminateDupsUnder(e: Expr, c: Symbol)
    requires c.Choice? && Under(e, c)
    ensures Under(EliminateDups(e), c)
    decreases Size(e)
  {
    if e.Bin? {
      var r := UnderSlot(e, c);
      var (e1, n1) := Dups1(And, e, [], []);
      r := Dups1Guard(e, c, [], [], r);
      Dups2Guard(e1, c, [], [], r);
      var (e2, n) := Round(e);
      SlotUnder(e2, c, r);
      if n > 0 {
        EliminateYnNormal(e2);
        EliminateYnUnder(e2, c);
        EliminateDupsUnder(EliminateYn(e2), c);
      }
    }
  }

  lemma {:induction false} TransBoolUnder(e: Expr, c: Symbol)
    requires c.Choice? && Under(e, c)
    ensures Under(TransBool(e), c)
  {
    if !IsGuard(e, c) {
      if Under(e.left, c) {
        TransBoolUnder(e.left, c);
      } else {
        TransBoolUnder(e.right, c);
      }
    }
  }

  // ----- Pushed conditions -----

  lemma SimplifyUnder(a: Option<Expr>, b: Option<Expr>, c: Symbol)
    requires c.Choice? && OptUnder(a, c)
    ensures OptUnder(SimplifyOpt(AllocAnd(a, b)), c)
  {
    var e := AllocAnd(a, b).value;
    assert Under(e, c);
    EliminateDupsUnder(e, c);
  }

  lemma PushVisibleUnder(sym: Option<Symbol>, basedep: Option<Expr>, visible: Option<Expr>, c: Symbol)
    requires c.Choice? && OptUnder(basedep, c)
    ensures OptUnder(PushVisible(sym, basedep, visible), c)
  {
    SimplifyUnder(basedep, TransformOpt(visible), c);
    TransBoolUnder(SimplifyOpt(AllocAnd(basedep, TransformOpt(visible))).value, c);
  }

  /** All conditions of the entry are guarded by `c`. */
  predicate EntryUnder(e: MenuEntry, c: Symbol) {
    OptUnder(e.dep, c) && forall x :: x in e.props ==> OptUnder(x.visible, c)
  }

  lemma {:induction false} PushPropsUnder(sym: Option<Symbol>, basedep: Option<Expr>, props: seq<Property>, c: Symbol)
    requires c.Choice? && OptUnder(basedep, c)
    ensures forall x :: x in PushProps(sym, basedep, props) ==> OptUnder(x.visible, c)
  {
    if props != [] {
      PushPropsUnder(sym, basedep, props[..|props| - 1], c);
      PushVisibleUnder(sym, basedep, props[|props| - 1].visible, c);
    }
  }

  lemma PushEntryUnder(parentdep: Option<Expr>, e: MenuEntry, c: Symbol)
    requires c.Choice? && OptUnder(parentdep, c)
    ensures EntryUnder(PushEntry(parentdep, e), c)
  {
    SimplifyUnder(parentdep, TransformOpt(e.dep), c);
    PushPropsUnder(e.sym, PushDep(parentdep, e.dep), e.props, c);
  }

  // ----- In the tree -----

  lemma {:induction false} PushedFrom(e: Entries, e': Entries, f: Forest, up: Id, parentdep: Option<Expr>, c: Id, p: Id)
    requires AllPushed(e, e', f, parentdep) && ChildOf(f, up, c, p) && up !in PreOrder(f) && Distinct(PreOrder(f))
    ensures c in e && c in e' && EntryOk(e'[c])
    ensures p == up ==> e'[c] == PushEntry(parentdep, e[c])
    ensures p != up ==> p in e' && EntryOk(e'[p]) && e'[c] == PushEntry(ParentDep(e'[p]), e[c])
    decreases f
  {
    var Node(id, l, n) := f;
    assert id in PreOrder(f);
    DistinctNode(f);
    hide PushEntry;
    if id == c && up == p {
    } else if ChildOf(l, id, c, p) {
      InsideOrTop(l, id, c, p);
      PushedFrom(e, e', l, id, ParentDep(e'[id]), c, p);
    } else {
      PushedFrom(e, e', n, up, parentdep, c, p);
    }
  }

  /** What a parent passes on guards its children. */
  lemma ChildUnder(s: State, s': State, root: Id, l: Forest, c: Id, m: Id, g: Symbol)
    requires Reshaped(s, s', root, l) && c in PreOrder(l) && c in s.h.parent && s.h.parent[c] == Some(m)
    requires g.Choice? && m in s'.entries && EntryOk(s'.entries[m]) && OptUnder(ParentDep(s'.entries[m]), g)
    ensures c in s'.entries && EntryUnder(s'.entries[c], g)
  {
    OwnerOf(s, root, l, c, m);
    StartedRoot(s, root, l);
    hide Started, Chain, ChildOf, Traced, PushEntry, EntryUnder;
    PushedFrom(s.entries, s'.entries, l, root, ParentDep(s'.entries[root]), c, m);
    PushEntryUnder(ParentDep(s'.entries[m]), s.entries[c], g);
  }

  /** Entries without a prompt, which are not choices, hand the guard on. */
  lemma {:induction false} ClimbUnder(s: State, s': State, root: Id, l: Forest, c: Id, q: Id, n: nat, g: Symbol)
    requires Reshaped(s, s', root, l) && c in PreOrder(l) && Climbs(Origin(s.h.parent, Bare(s.entries)), c, q, n)
    requires forall i {:trigger i in s.entries} :: i in s.entries && s.entries[i].prompt.None? ==> !IsChoice(s.entries[i])
    requires g.Choice? && q in PreOrder(l) && q in s'.entries && EntryUnder(s'.entries[q], g)
    ensures c in s'.entries && EntryUnder(s'.entries[c], g)
    decreases n
  {
    if n > 0 {
      var m := s.h.parent[c].value;
      OwnerOf(s, root, l, c, m);
      StartedRoot(s, root, l);
      RootClimbs(s, root, l, m, q, n - 1);
      ClimbUnder(s, s', root, l, m, q, n - 1, g);
      PassesDep(s, s', root, l, m);
      ChildUnder(s, s', root, l, c, m, g);
    }
  }

  /** Nothing is above the root. */
  lemma RootClimbs(s: State, root: Id, l: Forest, m: Id, q: Id, n: nat)
    requires Started(s, Node(root, l, Nil), None) && InTree(root, l, m) && q in PreOrder(l)
    requires Climbs(Origin(s.h.parent, Bare(s.entries)), m, q, n)
    ensures m in PreOrder(l)
  {
    StartedRoot(s, root, l);
  }

  lemma PassesDep(s: State, s': State, root: Id, l: Forest, m: Id)
    requires Reshaped(s, s', root, l) && m in PreOrder(l) && m in Bare(s.entries) && !IsChoice(s.entries[m])
    ensures m in s'.entries && EntryOk(s'.entries[m]) && ParentDep(s'.entries[m]) == s'.entries[m].dep
  {
    PushedKind(s.entries, s'.entries, l, ParentDep(s'.entries[root]), m);
    PushedSymbol(s.entries, s'.entries, l, ParentDep(s'.entries[root]), m);
  }

  lemma {:induction false} PushedSymbol(e: Entries, e': Entries, f: Forest, parentdep: Option<Expr>, c: Id)
    requires AllPushed(e, e', f, parentdep) && c in PreOrder(f)
    ensures c in e && c in e' && e'[c].sym == e[c].sym
    decreases f
  {
    var Node(id, l, n) := f;
    InPreOrder(f);
    hide PreOrder;
    if c == id {
      hide PushDep, AllPushed;
    } else if c in PreOrder(l) {
      PushedSymbol(e, e', l, ParentDep(e'[id]), c);
    } else {
      PushedSymbol(e, e', n, parentdep, c);
    }
  }

  /**
   * Every condition of a choice value, of its prompts and of its defaults, is guarded by the choice, as
   * SymbolSpec.ValueOk asks for: also where the value is in a menu without prompt inside the choice.
   */
  lemma ChoiceValuesUnder(s: State, s': State, root: Id, l: Forest, c: Id, p: Id)
    requires Reshaped(s, s', root, l) && c in PreOrder(l) && c in s'.h.parent && s'.h.parent[c] == Some(p)
    requires p in PreOrder(l) && p in s'.entries && IsChoice(s'.entries[p]) && forall q :: (q, p) !in s'.taken
    requires forall i {:trigger i in s.entries} :: i in s.entries && s.entries[i].prompt.None? ==> !IsChoice(s.entries[i])
    ensures c in s'.entries && EntryUnder(s'.entries[c], s'.entries[p].sym.value)
  {
    var (o, g) := (Origin(s.h.parent, Bare(s.entries)), s'.entries[p].sym.value);
    assert Placed(o, s'.taken, c, Some(p));
    var q: Id, n: nat :| Climbs(o, c, q, n) && Settled(o, s'.taken, q, Some(p));
    ClimbInTree(s, root, l, c, q, n);
    PushedKind(s.entries, s'.entries, l, ParentDep(s'.entries[root]), p);
    assert Under(Sym(g), g);
    ChildUnder(s, s', root, l, q, p, g);
    ClimbUnder(s, s', root, l, c, q, n, g);
  }

  lemma {:induction false} ClimbInTree(s: State, root: Id, l: Forest, c: Id, q: Id, n: nat)
    requires Started(s, Node(root, l, Nil), None) && InTree(root, l, c)
    requires Climbs(Origin(s.h.parent, Bare(s.entries)), c, q, n) && q in s.h.parent && s.h.parent[q].Some?
    ensures q in PreOrder(l)
    decreases n
  {
    StartedRoot(s, root, l);
    if n > 0 {
      OwnerOf(s, root, l, c, s.h.parent[c].value);
      ClimbInTree(s, root, l, s.h.parent[c].value, q, n - 1);
    }
  }
}
