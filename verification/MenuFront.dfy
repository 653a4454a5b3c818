/** What menu_finalize leaves as it was: the order of the entries, their symbols, and all that it has not come to. */
module MenuFront {
  import opened Options
  import opened Symbols
  import opened Expressions
  import opened MenuForest
  import opened MenuDeps
  import opened MenuSteps
  import opened MenuReshape

  /** The entries stand for the same symbols, and have a prompt or not as before. */
  ghost predicate SameKind(e: Entries, e': Entries) {
    e'.Keys == e.Keys && forall i :: i in e ==> e'[i].sym == e[i].sym && e'[i].prompt == e[i].prompt
  }

  lemma {:induction false} LiftOrder(e: Entries, x: Forest, b: Forest)
    ensures PreOrder(LiftAll(e, x, b)) == PreOrder(x) + PreOrder(b)
    decreases |PreOrder(b)|
  {
    if b.Node? {
      LiftedShorter(e, b);
      var b' := Lifted(e, b);
      LiftedOrder(e, b);
      var y := Node(b.id, b'.list, Nil);
      LiftStep(e, x, b);
      LiftOrder(e, Append(x, y), b'.next);
      AppendPreOrder(x, y);
      hide LiftAll, Append, Lifted, PreOrder;
      assert PreOrder(x) + PreOrder(y) + PreOrder(b'.next) == PreOrder(x) + (PreOrder(y) + PreOrder(b'.next));
    } else {
      LiftEnds(e, x);
    }
  }

  lemma NodeOrder(m: Id, l: Forest, n: Forest)
    ensures PreOrder(Node(m, l, n)) == [m] + PreOrder(l) + PreOrder(n) && PreOrder(Nil) == []
  {
  }

  lemma LiftedOrder(e: Entries, b: Forest)
    requires b.Node?
    ensures var b' := Lifted(e, b); b'.Node? && PreOrder(Node(b.id, b'.list, Nil)) + PreOrder(b'.next) == PreOrder(b)
  {
    hide Append, PreOrder;
    var (l, n) := (PreOrder(b.list), PreOrder(b.next));
    NodeOrder(b.id, b.list, b.next);
    if Lifted(e, b) == b {
      SinglePreOrder(b.id, b.list);
    } else {
      SinglePreOrder(b.id, Nil);
      NodeOrder(b.id, Nil, Nil);
      AppendPreOrder(b.list, b.next);
      assert [b.id] + [] + (l + n) == [b.id] + l + n;
    }
  }

  /**
   * The entries `f1` at the front of `f` have been dealt with; in the outcome they are behind those of `t`
   * in the same order.
   */
  ghost predicate Front(e: Entries, t: seq<Id>, f: Forest, f1: Forest, r: Outcome) {
    r.Kept? && f == Append(f1, r.rest) && PreOrder(r.done) == t + PreOrder(f1) &&
    SameOutside(e, r.entries, PreOrder(f1)) && SameKind(e, r.entries)
  }

  lemma FrontThen(e: Entries, a: Forest, f: Forest, f1: Forest, m: Outcome, f2: Forest, r: Outcome)
    requires Front(e, [], f, f1, m) && Front(m.entries, PreOrder(Append(a, m.done)), m.rest, f2, r)
    ensures Front(e, PreOrder(a), f, Append(f1, f2), r)
  {
    hide Append, PreOrder, SameOutside, SameKind;
    AppendTwice(f1, f2, r.rest);
    AppendPreOrder(f1, f2);
    AppendPreOrder(a, m.done);
    KindTwice(e, m.entries, r.entries);
    InEither(PreOrder(f1), PreOrder(f2));
    SameTwice(e, m.entries, r.entries, PreOrder(f1), PreOrder(f2), PreOrder(Append(f1, f2)));
    assert PreOrder(a) + ([] + PreOrder(f1)) + PreOrder(f2) == PreOrder(a) + (PreOrder(f1) + PreOrder(f2));
  }

  lemma FrontNone(e: Entries, a: Forest, b: Forest)
    ensures Front(e, PreOrder(a), b, Nil, Kept(e, a, b))
  {
  }

  lemma PushKind(e: Entries, f: Forest, parentdep: Option<Expr>)
    ensures SameKind(e, PushTop(e, f, parentdep)) && SameOutside(e, PushTop(e, f, parentdep), PreOrder(f))
  {
    TopInside(f);
    hide PushDep, PushProps, Top, PreOrder;
  }

  lemma KindTwice(a: Entries, b: Entries, c: Entries)
    requires SameKind(a, b) && SameKind(b, c)
    ensures SameKind(a, c)
  {
  }

  /** The entry at the front with what is below it. */
  lemma {:induction false} TreeFront(e: Entries, f: Forest) returns (f1: Forest)
    requires FinalizeTree(e, f).Kept?
    ensures Front(e, [], f, f1, FinalizeTree(e, f)) && f.id in e && f1.Node? && f1.id == f.id
    decreases |PreOrder(f)|, 1
  {
    hide PreOrder, LiftAll, PushTop, Front;
    Shorter(f);
    f1 := f;
    if f.list.Node? {
      var parentdep := ParentDep(e[f.id]);
      var e1 := PushTop(e, f.list, parentdep);
      PushKind(e, f.list, parentdep);
      ListFront(e1, Nil, f.list);
      f1 := FrontOfList(e, e1, f, FinalizeList(e1, Nil, f.list));
    } else if e[f.id].sym.Some? && e[f.id].prompt.Some? {
      var (sym, base) := (e[f.id].sym.value, ShownUnder(e[f.id]));
      var l1 := TakeFront(e, sym, base, Nil, f.next);
      f1 := FrontOfTaken(e, f, l1, TakeIn(e, sym, base, Nil, f.next));
    } else {
      f1 := Node(f.id, Nil, Nil);
      FrontAlone(e, f, f1);
    }
  }

  lemma FrontAlone(e: Entries, f: Forest, f1: Forest)
    requires f.Node? && f.list.Nil? && f1 == Node(f.id, Nil, Nil)
    ensures Front(e, [], f, f1, Kept(e, f1, f.next))
  {
  }

  lemma FrontOfList(e: Entries, e1: Entries, f: Forest, r: Outcome) returns (f1: Forest)
    requires f.Node? && SameKind(e, e1) && SameOutside(e, e1, PreOrder(f.list))
    requires Front(e1, PreOrder(Nil), f.list, f.list, r) && r.rest.Nil?
    ensures f1.Node? && f1.id == f.id && Front(e, [], f, f1, Kept(r.entries, Node(f.id, LiftAll(r.entries, Nil, r.done), Nil), f.next))
  {
    f1 := Node(f.id, f.list, Nil);
    var l := LiftAll(r.entries, Nil, r.done);
    assert Append(f1, f.next) == f;
    LiftOrder(r.entries, Nil, r.done);
    SinglePreOrder(f.id, l);
    SinglePreOrder(f.id, f.list);
    InEither([f.id], PreOrder(f.list));
    SameTwice(e, e1, r.entries, PreOrder(f.list), PreOrder(f.list), PreOrder(f1));
    KindTwice(e, e1, r.entries);
    assert PreOrder(Nil) == [];
    hide Append, PreOrder, SameOutside, SameKind, LiftAll;
  }

  lemma FrontOfTaken(e: Entries, f: Forest, l1: Forest, r: Outcome) returns (f1: Forest)
    requires f.Node? && f.list.Nil? && Front(e, PreOrder(Nil), f.next, l1, r)
    ensures f1.Node? && f1.id == f.id && Front(e, [], f, f1, Kept(r.entries, Node(f.id, LiftAll(r.entries, Nil, r.done), Nil), r.rest))
  {
    f1 := Node(f.id, Nil, l1);
    var l := LiftAll(r.entries, Nil, r.done);
    MenuSteps.TakenFront(f, l1, r.rest);
    LiftOrder(r.entries, Nil, r.done);
    SinglePreOrder(f.id, l);
    InEither([f.id], PreOrder(l1));
    SameTwice(e, e, r.entries, PreOrder(l1), PreOrder(l1), PreOrder(f1));
    assert PreOrder(Nil) == [];
    hide Append, PreOrder, SameOutside, SameKind, LiftAll;
  }

  lemma {:induction false} ListFront(e: Entries, a: Forest, b: Forest)
    requires FinalizeList(e, a, b).Kept?
    ensures Front(e, PreOrder(a), b, b, FinalizeList(e, a, b)) && FinalizeList(e, a, b).rest.Nil?
    decreases |PreOrder(b)|, 2
  {
    hide PreOrder, FinalizeTree, Front;
    if b.Node? {
      var f1 := TreeFront(e, b);
      var Kept(e1, g, r) := FinalizeTree(e, b);
      ListFront(e1, Append(a, g), r);
      FrontThen(e, a, b, f1, FinalizeTree(e, b), r, FinalizeList(e1, Append(a, g), r));
      FrontIs(e, [], b, f1, FinalizeTree(e, b));
    } else {
      FrontNone(e, a, b);
    }
  }

  lemma FrontIs(e: Entries, t: seq<Id>, f: Forest, f1: Forest, r: Outcome)
    requires Front(e, t, f, f1, r)
    ensures r.Kept? && f == Append(f1, r.rest)
  {
  }

  lemma {:induction false} TakeFront(e: Entries, sym: Symbol, base: Option<Expr>, a: Forest, b: Forest) returns (l1: Forest)
    requires TakeIn(e, sym, base, a, b).Kept?
    ensures Front(e, PreOrder(a), b, l1, TakeIn(e, sym, base, a, b))
    decreases |PreOrder(b)|, 2
  {
    hide PreOrder, FinalizeTree, Judge, Front;
    l1 := Nil;
    if b.Node? && Judge(ShownUnder(e[b.id]), sym, base) == Belongs {
      var f1 := TreeFront(e, b);
      var Kept(e1, g, r) := FinalizeTree(e, b);
      var l2 := TakeFront(e1, sym, base, Append(a, g), r);
      l1 := Append(f1, l2);
      FrontThen(e, a, b, f1, FinalizeTree(e, b), l2, TakeIn(e1, sym, base, Append(a, g), r));
    } else {
      FrontNone(e, a, b);
    }
  }
}
