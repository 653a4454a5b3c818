/** When menu_finalize goes through: the calls of expr_eliminate_eq that it makes, and one it should not make. */
module MenuDefined {
  import opened Options
  import opened Tristate
  import opened Symbols
  import opened Expressions
  import opened ExprTransformation
  import opened ExprDuplicates
  import opened ExprComparison
  import opened MenuForest
  import opened MenuDeps
  import opened MenuSteps
  import opened MenuReshape
  import opened MenuFront

  /** No entry with its final condition gives an undefined test for another one. */
  ghost predicate AllDefined(e: Entries) {
    forall c, p {:trigger ShownUnder(e[c]), ShownUnder(e[p])} ::
      c in e && p in e && EntryOk(e[c]) && EntryOk(e[p]) && e[p].sym.Some? ==>
      Judge(ShownUnder(e[c]), e[p].sym.value, ShownUnder(e[p])) != Undefined
  }

  /** The conditions of the top entries of `f` are final, and those of the other entries follow from them. */
  lemma PushedDone(e: Entries, e': Entries, f: Forest, parentdep: Option<Expr>)
    requires AllPushed(e, e', f, parentdep) && Distinct(PreOrder(f))
    ensures Done(PushTop(e, f, parentdep), e', f)
    decreases f
  {
    if f.Node? {
      PushTopStep(e, f, parentdep);
      var e1 := e[f.id := PushEntry(parentdep, e[f.id])];
      DistinctNode(f);
      hide PushEntry, Distinct, PushTop;
      AllPushedFrame(e, e1, e', e', f.next, parentdep);
      PushedDone(e1, e', f.next, parentdep);
      TopInside(f.next);
      PushTopAt(e1, f.next, parentdep);
      AllPushedFrame(e, PushTop(e1, f.next, parentdep), e', e', f.list, ParentDep(e'[f.id]));
    }
  }

  lemma PushTopAt(e: Entries, f: Forest, parentdep: Option<Expr>)
    ensures PushTop(e, f, parentdep).Keys == e.Keys
    ensures forall i :: i in e && i !in Top(f) ==> PushTop(e, f, parentdep)[i] == e[i]
  {
  }

  lemma {:induction false} DoneBehind(e: Entries, e': Entries, f: Forest, g: Forest)
    requires Done(e, e', Append(f, g))
    ensures Done(e, e', g)
    decreases f
  {
    if f.Node? {
      DoneBehind(e, e', f.next, g);
    }
  }

  /** After the entries `f1` at the front have been dealt with, the rest is as it was. */
  lemma Behind(e: Entries, e': Entries, e1: Entries, f1: Forest, r: Forest)
    requires Done(e, e', Append(f1, r)) && SameOutside(e, e1, PreOrder(f1)) && Distinct(PreOrder(Append(f1, r)))
    ensures Done(e1, e', r) && Distinct(PreOrder(r))
  {
    DoneBehind(e, e', f1, r);
    AppendPreOrder(f1, r);
    DistinctParts(PreOrder(f1), PreOrder(r));
    DoneStart(e, e1, e', r);
  }

  // ----- No test is undefined: the run goes through -----

  lemma FrontBehind(e: Entries, e': Entries, f: Forest, f1: Forest, r: Outcome)
    requires Front(e, [], f, f1, r) && Done(e, e', f) && Distinct(PreOrder(f))
    ensures r.Kept? && f == Append(f1, r.rest) && PreOrder(r.done) == PreOrder(f1)
    ensures Done(r.entries, e', r.rest) && Distinct(PreOrder(r.rest))
  {
    Behind(e, e', r.entries, f1, r.rest);
  }

  lemma {:induction false} TreeGoes(e: Entries, e': Entries, f: Forest)
    requires f.Node? && Done(e, e', f) && Distinct(PreOrder(f)) && AllDefined(e')
    ensures FinalizeTree(e, f).Kept?
    decreases |PreOrder(f)|, 1
  {
    hide AllDefined, Distinct, PreOrder, LiftAll, AllPushed, PushTop;
    DistinctNode(f);
    Shorter(f);
    if f.list.Node? {
      PushedDone(e, e', f.list, ParentDep(e[f.id]));
      ListGoes(PushTop(e, f.list, ParentDep(e[f.id])), e', Nil, f.list);
    } else if e[f.id].sym.Some? && e[f.id].prompt.Some? {
      TakeGoes(e, e', f.id, Nil, f.next);
    }
  }

  lemma {:induction false} ListGoes(e: Entries, e': Entries, a: Forest, b: Forest)
    requires Done(e, e', b) && Distinct(PreOrder(b)) && AllDefined(e')
    ensures FinalizeList(e, a, b).Kept?
    decreases |PreOrder(b)|, 2
  {
    if b.Node? {
      hide AllDefined, Distinct, PreOrder, Done, FinalizeTree, Front;
      TreeGoes(e, e', b);
      var f1 := TreeFront(e, b);
      var m := FinalizeTree(e, b);
      FrontBehind(e, e', b, f1, m);
      ListGoes(m.entries, e', Append(a, m.done), m.rest);
    }
  }

  lemma {:induction false} TakeGoes(e: Entries, e': Entries, p: Id, a: Forest, b: Forest)
    requires Done(e, e', b) && Distinct(PreOrder(b)) && AllDefined(e')
    requires p in e' && EntryOk(e'[p]) && e'[p].sym.Some?
    ensures TakeIn(e, e'[p].sym.value, ShownUnder(e'[p]), a, b).Kept?
    decreases |PreOrder(b)|, 2
  {
    if b.Node? {
      var v := Judge(ShownUnder(e[b.id]), e'[p].sym.value, ShownUnder(e'[p]));
      assert v == Judge(ShownUnder(e'[b.id]), e'[p].sym.value, ShownUnder(e'[p])) != Undefined;
      hide AllDefined, Distinct, PreOrder, Done, FinalizeTree, Judge, Front;
      if v == Belongs {
        TreeGoes(e, e', b);
        var f1 := TreeFront(e, b);
        var m := FinalizeTree(e, b);
        FrontBehind(e, e', b, f1, m);
        TakeGoes(m.entries, e', p, Append(a, m.done), m.rest);
      }
    }
  }

  /** With the conditions that `e'` has pushed down no test is undefined, so menu_finalize goes through. */
  lemma GoesThrough(e: Entries, e': Entries, root: Id, l: Forest)
    requires root in e && EntryOk(e[root]) && root in e' && e'[root] == e[root] && Distinct(PreOrder(Node(root, l, Nil)))
    requires AllPushed(e, e', l, ParentDep(e[root])) && AllDefined(e')
    ensures FinalizeTree(e, Node(root, l, Nil)).Kept?
  {
    TreeGoes(e, e', Node(root, l, Nil));
  }

  // ----- A run that does not -----

  const FOO: Symbol := Config("FOO", Boolean)
  const BAR: Symbol := Config("BAR", Boolean)
  const BAZ: Symbol := Config("BAZ", Boolean)

  function Prompted(s: Symbol, cond: Option<Expr>): MenuEntry {
    MenuEntry(Some(s), None, [Property(Some("prompt"), None, cond)], Some(0))
  }

  /** FOO with a prompt if !BAR, BAZ with a prompt if !FOO, and BAR with a prompt. */
  function ThreeEntries(): Entries {
    map[0 := MenuEntry(None, None, [], None), 1 := Prompted(FOO, Some(Not(Sym(BAR)))),
        2 := Prompted(BAZ, Some(Not(Sym(FOO)))), 3 := Prompted(BAR, None)]
  }

  const THREE: Forest := Node(1, Nil, Node(2, Nil, Node(3, Nil, Nil)))

  lemma NegationStays(s: Symbol, t: Symbol)
    requires TypeOf(s) == TypeOf(t) == Boolean && t.Config?
    ensures PushVisible(Some(s), None, Some(Not(Sym(t)))) == Some(Not(Sym(t)))
  {
    var e := Not(Sym(t));
    assert Transform(Sym(t)) == Sym(t) && Transform(e) == e;
    assert Round(e) == (e, 0);
    assert TransBool(Sym(t)) == Sym(t);
  }

  /** `!FOO != n` is simplified to `!FOO`. */
  lemma NegationNotNo(t: Symbol)
    requires TypeOf(t) == Boolean && t.Config?
    ensures NotNo(Some(Not(Sym(t)))) == Not(Sym(t))
  {
    var e := Not(Sym(t));
    assert TransCompare(e, Unequal, ConstNo) == Cmp(Equal, t, ConstNo);
    assert Transform(Cmp(Equal, t, ConstNo)) == e;
    assert Round(e) == (e, 0);
  }

  /** BAZ is tested for the submenu of FOO: both conditions are negations. */
  lemma TestUndefined()
    ensures Judge(Some(Not(Sym(FOO))), FOO, Some(Not(Sym(BAR)))) == Undefined
  {
    NegationNotNo(FOO);
    NegationNotNo(BAR);
    hide NotNo;
    assert ContainsSymbol(Sym(FOO), FOO);
  }

  lemma PushedPrompt(s: Symbol, t: Symbol)
    requires TypeOf(s) == TypeOf(t) == Boolean && t.Config?
    ensures var e := PushEntry(None, Prompted(s, Some(Not(Sym(t)))));
            EntryOk(e) && e.sym == Some(s) && e.prompt == Some(0) && ShownUnder(e) == Some(Not(Sym(t)))
  {
    NegationStays(s, t);
    hide PushVisible;
    var props := Prompted(s, Some(Not(Sym(t)))).props;
    assert PushDep(None, None) == None;
    assert props[..0] == [] && PushProps(Some(s), None, []) == [];
    assert PushProps(Some(s), None, props) == [props[0].(visible := PushVisible(Some(s), None, props[0].visible))];
  }

  /** The conditions that the first loop over the three entries leaves. */
  lemma PushedThree()
    ensures var e := PushTop(ThreeEntries(), THREE, None);
            1 in e && EntryOk(e[1]) && e[1].sym == Some(FOO) && e[1].prompt == Some(0) && ShownUnder(e[1]) == Some(Not(Sym(BAR))) &&
            2 in e && EntryOk(e[2]) && ShownUnder(e[2]) == Some(Not(Sym(FOO)))
  {
    PushedPrompt(FOO, BAR);
    PushedPrompt(BAZ, FOO);
    hide PushEntry, ShownUnder;
    assert Top(THREE) == [1] + ([2] + ([3] + []));
    assert 1 in Top(THREE) && 2 in Top(THREE);
  }

  /** menu_finalize comes to that test. */
  lemma RunUndefined()
    ensures FinalizeTree(ThreeEntries(), Node(0, THREE, Nil)) == Lost
  {
    var e := PushTop(ThreeEntries(), THREE, None);
    PushedThree();
    TestUndefined();
    hide PushTop, Judge, ShownUnder;
    assert TakeIn(e, FOO, ShownUnder(e[1]), Nil, THREE.next) == Lost;
    assert FinalizeTree(e, THREE) == Lost;
    assert FinalizeList(e, Nil, THREE) == Lost;
    assert EntryOk(ThreeEntries()[0]) && ParentDep(ThreeEntries()[0]) == None;
  }
}
