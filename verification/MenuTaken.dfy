/** Which entries menu_finalize puts below which: what must be in a submenu is in it. */
module MenuTaken {
  import opened Options
  import opened Symbols
  import opened Expressions
  import opened ExprComparison
  import opened MenuForest
  import opened MenuDeps
  import opened MenuSteps
  import opened MenuConditions
  import opened MenuReshape
  import opened MenuFront
  import opened MenuTrace
  import opened MenuDefined

  /** The forest `g` is the rest of some list of `f`. */
  predicate Occurs(f: Forest, g: Forest) {
    f == g || (f.Node? && (Occurs(f.list, g) || Occurs(f.next, g)))
  }

  /** In `f` the entries `t` are below `p`. */
  predicate Holds(f: Forest, p: Id, t: seq<Id>) {
    f.Node? && ((f.id == p && forall i :: i in t ==> i in PreOrder(f.list)) || Holds(f.list, p, t) || Holds(f.next, p, t))
  }

  /**
   * The entry at the front of `g` has a prompt, and `x` is either its list or, if it has none, some
   * entries right behind it, each shown under a condition that makes it belong below the symbol.
   */
  ghost predicate Owns(e: Entries, g: Forest, x: Forest) {
    g.Node? && g.id in e && EntryOk(e[g.id]) && e[g.id].prompt.Some? && x.Node? &&
    if g.list.Node? then x == g.list
    else (exists y :: g.next == Append(x, y)) && e[g.id].sym.Some? && Follow(e, x, e[g.id].sym.value, e[g.id].props[e[g.id].prompt.value].visible)
  }

  ghost predicate Follow(e: Entries, x: Forest, s: Symbol, base: Option<Expr>) {
    forall i {:trigger i in Top(x)} :: i in Top(x) ==>
      i in e && EntryOk(e[i]) &&
      GoesBelow(if e[i].prompt.Some? then e[i].props[e[i].prompt.value].visible else e[i].dep, s, base)
  }

  ghost predicate Prompted(e: Entries, p: Id) {
    p in e && e[p].prompt.Some?
  }

  lemma {:induction false} HoldsAppend(f: Forest, g: Forest, p: Id, t: seq<Id>)
    ensures Holds(Append(f, g), p, t) <==> Holds(f, p, t) || Holds(g, p, t)
  {
    if f.Node? {
      HoldsAppend(f.next, g, p, t);
    }
  }

  /** Lists of entries without a prompt are moved up, others stay. */
  lemma {:induction false} LiftHolds(e: Entries, x: Forest, b: Forest, p: Id, t: seq<Id>)
    requires Prompted(e, p) && (Holds(x, p, t) || Holds(b, p, t))
    ensures Holds(LiftAll(e, x, b), p, t)
    decreases |PreOrder(b)|
  {
    if b.Node? {
      LiftedShorter(e, b);
      LiftStep(e, x, b);
      var b' := Lifted(e, b);
      var y := Node(b.id, b'.list, Nil);
      HoldsAppend(b.list, b.next, p, t);
      HoldsAppend(x, y, p, t);
      hide LiftAll, PreOrder, Append;
      assert Holds(b, p, t) ==> Holds(y, p, t) || Holds(b'.next, p, t);
      LiftHolds(e, Append(x, y), b'.next, p, t);
    } else {
      LiftEnds(e, x);
    }
  }

  /** A list that begins with both `x` and `f1`. */
  lemma {:induction false} OneLonger(x: Forest, y: Forest, f1: Forest, r: Forest) returns (k: Forest)
    requires Append(x, y) == Append(f1, r)
    ensures (x == Append(f1, k) && r == Append(k, y)) || (f1 == Append(x, k) && y == Append(k, r))
  {
    if x.Nil? {
      k := f1;
    } else if f1.Nil? {
      k := x;
    } else {
      k := OneLonger(x.next, y, f1.next, r);
    }
  }

  lemma {:induction false} TopAppend(f: Forest, g: Forest)
    ensures Top(Append(f, g)) == Top(f) + Top(g)
  {
    if f.Node? {
      TopAppend(f.next, g);
    }
  }

  /** The entries of `x` are those of `f1` and of `k`, or some of those of `f1`. */
  lemma FollowParts(e: Entries, x: Forest, y: Forest, f1: Forest, r: Forest, s: Symbol, base: Option<Expr>) returns (k: Forest, y': Forest)
    requires Append(x, y) == Append(f1, r) && Follow(e, x, s, base)
    ensures r == Append(k, y') && Follow(e, k, s, base) && forall i :: i in PreOrder(x) ==> i in PreOrder(f1) || i in PreOrder(k)
  {
    hide PreOrder, GoesBelow, Append, Top;
    k := OneLonger(x, y, f1, r);
    y' := y;
    if x == Append(f1, k) && r == Append(k, y) {
      TopAppend(f1, k);
      AppendPreOrder(f1, k);
      assert forall i :: i in Top(k) ==> i in Top(x);
    } else {
      AppendPreOrder(x, k);
      k, y' := Nil, r;
      NothingFollows(e, r, s, base);
    }
  }

  lemma NothingFollows(e: Entries, r: Forest, s: Symbol, base: Option<Expr>)
    ensures Follow(e, Nil, s, base) && r == Append(Nil, r)
  {
  }

  /** All the following entries that belong below are taken in. */
  lemma {:induction false} TakeCovers(e: Entries, e': Entries, s: Symbol, base: Option<Expr>, a: Forest, b: Forest, x: Forest, y: Forest)
    requires TakeIn(e, s, base, a, b).Kept? && Done(e, e', b) && Distinct(PreOrder(b))
    requires b == Append(x, y) && Follow(e', x, s, base)
    ensures forall i :: i in PreOrder(a) || i in PreOrder(x) ==> i in PreOrder(TakeIn(e, s, base, a, b).done)
    decreases |PreOrder(b)|
  {
    hide PreOrder, FinalizeTree, Judge, GoesBelow, Distinct, AllPushed, Front;
    if x.Nil? {
      var l1 := TakeFront(e, s, base, a, b);
      FrontOrder(e, a, b, l1, TakeIn(e, s, base, a, b));
    } else {
      assert b.id == x.id && x.id in Top(x);
      JudgeIff(ShownUnder(e[b.id]), s, base);
      var f1 := TreeFront(e, b);
      var Kept(e1, g, r) := FinalizeTree(e, b);
      hide Done;
      FrontBehind(e, e', b, f1, FinalizeTree(e, b));
      var k, y' := FollowParts(e', x, y, f1, r, s, base);
      AppendPreOrder(a, g);
      TakeCovers(e1, e', s, base, Append(a, g), r, k, y');
    }
  }

  lemma FrontOrder(e: Entries, a: Forest, b: Forest, l1: Forest, r: Outcome)
    requires Front(e, PreOrder(a), b, l1, r)
    ensures r.Kept? && forall i :: i in PreOrder(a) || i in PreOrder(Nil) ==> i in PreOrder(r.done)
  {
  }

  lemma KindPrompted(e: Entries, t: seq<Id>, f: Forest, f1: Forest, r: Outcome, p: Id)
    requires Front(e, t, f, f1, r) && Prompted(e, p)
    ensures r.Kept? && Prompted(r.entries, p)
  {
  }

  lemma FrontIds(e: Entries, t: seq<Id>, f: Forest, f1: Forest, r: Outcome)
    requires Front(e, t, f, f1, r)
    ensures r.Kept? && forall i :: i in PreOrder(f1) ==> i in PreOrder(r.done)
  {
  }

  /** What occurs among the entries to come is there afterwards, or still to come. */
  lemma {:induction false} TreeHolds(e: Entries, e': Entries, f: Forest, g: Forest, x: Forest)
    requires FinalizeTree(e, f).Kept? && Done(e, e', f) && Distinct(PreOrder(f))
    requires Occurs(f, g) && Owns(e', g, x) && Prompted(e, g.id)
    ensures var r := FinalizeTree(e, f); Holds(r.done, g.id, PreOrder(x)) || Occurs(r.rest, g)
    decreases |PreOrder(f)|, 1
  {
    hide PreOrder, LiftAll, PushTop, Front, Distinct, AllPushed, Follow, FinalizeList, TakeIn;
    Shorter(f);
    DistinctNode(f);
    if f.list.Node? {
      var parentdep := ParentDep(e[f.id]);
      var e1 := PushTop(e, f.list, parentdep);
      PushedDone(e, e', f.list, parentdep);
      PushKind(e, f.list, parentdep);
      ListFront(e1, Nil, f.list);
      var r := FinalizeList(e1, Nil, f.list);
      LiftOrder(r.entries, Nil, r.done);
      if f == g {
        FrontIds(e1, PreOrder(Nil), f.list, f.list, r);
      } else if Occurs(f.list, g) {
        ListHolds(e1, e', Nil, f.list, g, x);
        KindPrompted(e1, PreOrder(Nil), f.list, f.list, r, g.id);
        LiftHolds(r.entries, Nil, r.done, g.id, PreOrder(x));
      }
    } else if e[f.id].sym.Some? && e[f.id].prompt.Some? {
      var (sym, base) := (e[f.id].sym.value, ShownUnder(e[f.id]));
      var r := TakeIn(e, sym, base, Nil, f.next);
      LiftOrder(r.entries, Nil, r.done);
      if f == g {
        var y :| f.next == Append(x, y);
        TakeCovers(e, e', sym, base, Nil, f.next, x, y);
      } else if Occurs(f.next, g) {
        var l1 := TakeFront(e, sym, base, Nil, f.next);
        TakeHolds(e, e', sym, base, Nil, f.next, g, x);
        KindPrompted(e, PreOrder(Nil), f.next, l1, r, g.id);
        if Holds(r.done, g.id, PreOrder(x)) {
          LiftHolds(r.entries, Nil, r.done, g.id, PreOrder(x));
        }
      }
    }
  }

  lemma {:induction false} ListHolds(e: Entries, e': Entries, a: Forest, b: Forest, g: Forest, x: Forest)
    requires FinalizeList(e, a, b).Kept? && Done(e, e', b) && Distinct(PreOrder(b))
    requires Owns(e', g, x) && Prompted(e, g.id) && (Holds(a, g.id, PreOrder(x)) || Occurs(b, g))
    ensures Holds(FinalizeList(e, a, b).done, g.id, PreOrder(x))
    decreases |PreOrder(b)|, 2
  {
    hide PreOrder, FinalizeTree, Front, Distinct, AllPushed, Owns, Done, Holds;
    if b.Node? {
      var f1 := TreeFront(e, b);
      var m := FinalizeTree(e, b);
      FrontBehind(e, e', b, f1, m);
      OwnsNode(e', g, x);
      KindPrompted(e, [], b, f1, m, g.id);
      if Occurs(b, g) {
        TreeHolds(e, e', b, g, x);
      }
      HoldsAppend(a, m.done, g.id, PreOrder(x));
      ListHolds(m.entries, e', Append(a, m.done), m.rest, g, x);
    } else {
      OwnsNode(e', g, x);
    }
  }

  lemma OwnsNode(e: Entries, g: Forest, x: Forest)
    requires Owns(e, g, x)
    ensures g.Node?
  {
  }

  lemma {:induction false} TakeHolds(e: Entries, e': Entries, s: Symbol, base: Option<Expr>, a: Forest, b: Forest, g: Forest, x: Forest)
    requires TakeIn(e, s, base, a, b).Kept? && Done(e, e', b) && Distinct(PreOrder(b))
    requires Owns(e', g, x) && Prompted(e, g.id) && (Holds(a, g.id, PreOrder(x)) || Occurs(b, g))
    ensures var r := TakeIn(e, s, base, a, b); Holds(r.done, g.id, PreOrder(x)) || Occurs(r.rest, g)
    decreases |PreOrder(b)|, 2
  {
    hide PreOrder, FinalizeTree, Front, Distinct, AllPushed, Owns, Done, Holds, Judge;
    if b.Node? && Judge(ShownUnder(e[b.id]), s, base) == Belongs {
      var f1 := TreeFront(e, b);
      var m := FinalizeTree(e, b);
      FrontBehind(e, e', b, f1, m);
      OwnsNode(e', g, x);
      KindPrompted(e, [], b, f1, m, g.id);
      if Occurs(b, g) {
        TreeHolds(e, e', b, g, x);
      }
      HoldsAppend(a, m.done, g.id, PreOrder(x));
      TakeHolds(m.entries, e', s, base, Append(a, m.done), m.rest, g, x);
    }
  }

  /**
   * The converse of soundness.  Wherever an entry with a prompt stands in the tree, menu_finalize leaves
   * its list below it; and if it has none and a symbol, all that are next to it, one after the other, and
   * have a condition that makes them belong below are below it afterwards, with all they hold.
   */
  lemma MustBeBelow(e: Entries, e': Entries, root: Id, l: Forest, g: Forest, x: Forest)
    requires root in e && EntryOk(e[root]) && root in e' && e'[root] == e[root] && Distinct(PreOrder(Node(root, l, Nil)))
    requires AllPushed(e, e', l, ParentDep(e[root])) && FinalizeTree(e, Node(root, l, Nil)).Kept?
    requires Occurs(l, g) && Owns(e', g, x) && Prompted(e, g.id)
    ensures Holds(FinalizeTree(e, Node(root, l, Nil)).done, g.id, PreOrder(x))
  {
    hide Distinct, PreOrder, FinalizeTree, Owns;
    TreeHolds(e, e', Node(root, l, Nil), g, x);
    TreeRest(e, root, l);
    OwnsNode(e', g, x);
  }

  lemma TreeRest(e: Entries, root: Id, l: Forest)
    requires FinalizeTree(e, Node(root, l, Nil)).Kept?
    ensures FinalizeTree(e, Node(root, l, Nil)).rest.Nil?
  {
    var f1 := TreeFront(e, Node(root, l, Nil));
    hide FinalizeTree;
  }

  /** And only an entry is taken in whose condition mentions the symbol. */
  lemma TakenMentions(e: Entries, c: Id, p: Id)
    requires TakenPair(e, c, p)
    ensures ShownUnder(e[c]).Some? && e[p].sym.value in SymbolsOf(ShownUnder(e[c]).value)
  {
    JudgeIff(ShownUnder(e[c]), e[p].sym.value, ShownUnder(e[p]));
    hide Judge;
  }

  // ----- No list of an entry without a prompt is left -----

  /** Entries with a list have a prompt. */
  predicate NoBareLists(e: Entries, f: Forest) {
    f.Node? ==> f.id in e && (f.list.Node? ==> e[f.id].prompt.Some?) && NoBareLists(e, f.list) && NoBareLists(e, f.next)
  }

  /** The same for the lists of the top entries. */
  predicate NoBareInside(e: Entries, f: Forest) {
    f.Node? ==> f.id in e && NoBareLists(e, f.list) && NoBareInside(e, f.next)
  }

  lemma {:induction false} BareAppend(e: Entries, f: Forest, g: Forest)
    ensures NoBareLists(e, Append(f, g)) <==> NoBareLists(e, f) && NoBareLists(e, g)
    ensures NoBareInside(e, Append(f, g)) <==> NoBareInside(e, f) && NoBareInside(e, g)
    ensures NoBareLists(e, f) ==> NoBareInside(e, f)
  {
    if f.Node? {
      BareAppend(e, f.next, g);
    }
  }

  lemma {:induction false} BareKind(e: Entries, e': Entries, f: Forest)
    requires SameKind(e, e')
    ensures NoBareLists(e, f) ==> NoBareLists(e', f)
    ensures NoBareInside(e, f) ==> NoBareInside(e', f)
  {
    if f.Node? {
      BareKind(e, e', f.list);
      BareKind(e, e', f.next);
    }
  }

  lemma {:induction false} LiftBare(e: Entries, x: Forest, b: Forest)
    requires NoBareLists(e, x) && NoBareInside(e, b)
    ensures NoBareLists(e, LiftAll(e, x, b))
    decreases |PreOrder(b)|
  {
    if b.Node? {
      LiftedShorter(e, b);
      LiftStep(e, x, b);
      var b' := Lifted(e, b);
      var y := Node(b.id, b'.list, Nil);
      hide LiftAll, PreOrder;
      BareAppend(e, b.list, b.next);
      BareAppend(e, x, y);
      LiftBare(e, Append(x, y), b'.next);
    } else {
      LiftEnds(e, x);
    }
  }

  lemma {:induction false} TreeBare(e: Entries, f: Forest)
    requires FinalizeTree(e, f).Kept?
    ensures var r := FinalizeTree(e, f); NoBareInside(r.entries, r.done)
    decreases |PreOrder(f)|, 1
  {
    hide PreOrder, LiftAll, PushTop, Front, FinalizeList, TakeIn;
    Shorter(f);
    var f1 := TreeFront(e, f);
    FrontKind(e, [], f, f1, FinalizeTree(e, f));
    if f.list.Node? {
      var e1 := PushTop(e, f.list, ParentDep(e[f.id]));
      ListBare(e1, Nil, f.list);
      var r := FinalizeList(e1, Nil, f.list);
      LiftBare(r.entries, Nil, r.done);
    } else if e[f.id].sym.Some? && e[f.id].prompt.Some? {
      var (sym, base) := (e[f.id].sym.value, ShownUnder(e[f.id]));
      TakeBare(e, sym, base, Nil, f.next);
      var r := TakeIn(e, sym, base, Nil, f.next);
      LiftBare(r.entries, Nil, r.done);
    }
  }

  lemma FrontKind(e: Entries, t: seq<Id>, f: Forest, f1: Forest, r: Outcome)
    requires Front(e, t, f, f1, r)
    ensures r.Kept? && SameKind(e, r.entries)
  {
  }

  lemma {:induction false} ListBare(e: Entries, a: Forest, b: Forest)
    requires FinalizeList(e, a, b).Kept? && NoBareInside(e, a)
    ensures var r := FinalizeList(e, a, b); NoBareInside(r.entries, r.done)
    decreases |PreOrder(b)|, 2
  {
    hide PreOrder, FinalizeTree, Front, NoBareInside;
    if b.Node? {
      var f1 := TreeFront(e, b);
      var m := FinalizeTree(e, b);
      FrontKind(e, [], b, f1, m);
      TreeBare(e, b);
      BareKind(e, m.entries, a);
      BareAppend(m.entries, a, m.done);
      ListBare(m.entries, Append(a, m.done), m.rest);
    }
  }

  lemma {:induction false} TakeBare(e: Entries, s: Symbol, base: Option<Expr>, a: Forest, b: Forest)
    requires TakeIn(e, s, base, a, b).Kept? && NoBareInside(e, a)
    ensures var r := TakeIn(e, s, base, a, b); NoBareInside(r.entries, r.done)
    decreases |PreOrder(b)|, 2
  {
    hide PreOrder, FinalizeTree, Front, NoBareInside, Judge;
    if b.Node? && Judge(ShownUnder(e[b.id]), s, base) == Belongs {
      var f1 := TreeFront(e, b);
      var m := FinalizeTree(e, b);
      FrontKind(e, [], b, f1, m);
      TreeBare(e, b);
      BareKind(e, m.entries, a);
      BareAppend(m.entries, a, m.done);
      TakeBare(m.entries, s, base, Append(a, m.done), m.rest);
    }
  }

  /** After the run only entries with a prompt have a list; the root may be without. */
  lemma BareListsGone(e: Entries, root: Id, l: Forest)
    requires FinalizeTree(e, Node(root, l, Nil)).Kept?
    ensures var r := FinalizeTree(e, Node(root, l, Nil));
            r.done.id == root && r.done.next.Nil? && NoBareLists(r.entries, r.done.list)
  {
    TreeBare(e, Node(root, l, Nil));
  }
}
