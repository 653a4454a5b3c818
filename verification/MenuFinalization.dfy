/** menu_finalize: conditions are pushed down and the menu tree is reshaped in place. */
module MenuFinalization {
  import opened Options
  import opened Symbols
  import opened Expressions
  import opened ExprComparison
  import opened MenuForest
  import opened MenuDeps
  import opened MenuSteps
  import opened MenuTrace
  import opened MenuReshape

  class MenuTree {
    var next: map<Id, Option<Id>>
    var list: map<Id, Option<Id>>
    var parent: map<Id, Option<Id>>
    var entries: Entries
    /** The E_CHOICE list of each choice entry. */
    var values: map<Id, seq<Symbol>>
    /** The entries menu_finalize has been called for. */
    ghost var finalized: seq<Id>
    /** Which entry it has taken into the submenu of which. */
    ghost var taken: set<(Id, Id)>
    /**
     * expr_eliminate_eq has been called on two negations, comparisons or symbols.  It takes them for
     * chains and reads pointers that are NULL or lead to symbols; nothing is known from there on.
     */
    var lost: bool

    ghost function Pointers(): Links
      reads `next, `list, `parent
    {
      Links(next, list, parent)
    }

    /** The first loop over the children: their conditions, then those of their properties. */
    method PushChildren(p: Id, ghost l: Forest)
      requires p in entries && EntryOk(entries[p]) && p in list && p !in PreOrder(l)
      requires Chain(Pointers(), list[p], l, Some(p), None) && Distinct(PreOrder(l)) && EntriesOk(entries, PreOrder(l))
      modifies `entries
      ensures entries == PushTop(old(entries), l, ParentDep(old(entries[p])))
    {
      var parentdep := ParentDep(entries[p]);
      var menu := list[p];
      ghost var b := l;
      assert PushTop(entries, Nil, parentdep) == entries;
      while menu.Some?
        invariant Chain(Pointers(), menu, b, Some(p), None) && Distinct(PreOrder(b))
        invariant EntriesOk(entries, PreOrder(b))
        invariant PushTop(entries, b, parentdep) == PushTop(old(entries), l, parentdep)
        decreases b
      {
        var m := menu.value;
        EntriesOkParts(entries, b);
        PushTopStep(entries, b, parentdep);
        DistinctNode(b);
        PushToEntry(m, parentdep);
        menu := next[m];
        b := b.next;
      }
      assert PushTop(entries, Nil, parentdep) == entries;
    }

    /** The conditions of one child. */
    method PushToEntry(m: Id, parentdep: Option<Expr>)
      requires m in entries
      modifies `entries
      ensures entries == old(entries)[m := PushEntry(parentdep, old(entries[m]))]
    {
      var e := entries[m];
      var basedep := PushDep(parentdep, e.dep);
      var props := PushToProps(e.sym, basedep, e.props);
      entries := entries[m := e.(dep := basedep, props := props)];
    }

    /** The inner loop, over the properties of one child. */
    method PushToProps(sym: Option<Symbol>, basedep: Option<Expr>, given: seq<Property>) returns (props: seq<Property>)
      ensures props == PushProps(sym, basedep, given)
    {
      hide PushVisible;
      props := given;
      for i := 0 to |given|
        invariant |props| == |given| && props[..i] == PushProps(sym, basedep, given[..i])
        invariant forall k :: i <= k < |given| ==> props[k] == given[k]
      {
        assert given[..i + 1][..i] == given[..i];
        props := props[i := props[i].(visible := PushVisible(sym, basedep, props[i].visible))];
      }
      assert given[..|given|] == given && props[..|given|] == props;
    }

    /** The test in the loop over the following entries. */
    method Test(m: Id, sym: Symbol, base: Option<Expr>) returns (v: Verdict)
      requires m in entries && EntryOk(entries[m])
      ensures v == Judge(ShownUnder(entries[m]), sym, base)
    {
      var dep := ShownUnder(entries[m]);
      if dep.None? || !ContainsSymbol(dep.value, sym) {
        return Apart;
      }
      if DependsSymbol(dep.value, sym) {
        return Belongs;
      }
      if !EliminateEqDefined(dep, base) {
        return Undefined;
      }
      v := if IsYes(Some(EliminateEqTop(NotNo(dep), NotNo(base)).1)) then Belongs else Apart;
    }

    ghost function Now(): State
      reads this
    {
      State(Pointers(), entries, values, finalized, taken)
    }

    /**
     * menu_finalize: the first entry of `f` with the entries below it and those that it takes in; `o` is
     * the tree before the first call.
     */
    method Finalize(p: Id, ghost f: Forest, ghost up: Option<Id>, ghost o: Origin) returns (ghost g: Forest, ghost f1: Forest)
      requires Started(Now(), f, up) && f.id == p && Traced(o, Now()) && !lost
      modifies this
      ensures Yields(FinalizeTree(old(entries), f), lost, entries, g)
      ensures !lost ==> Finished(old(Now()), Now(), f, g, f1, up) && Traced(o, Now())
      decreases |PreOrder(f)|, 1
    {
      hide PreOrder, Append, Chain, Distinct, Done, EntriesOk, Untouched, LinksOutside, SameOutside, AllPushed, PushTop, PushEntry, ChoiceValues, Started, Finished, Outside, Below, TakenOver, ListHoisted, FinalizeTree, FinalizeList, TakeIn, LiftAll, Yields, Traced;
      ghost var s0 := Now();
      g, f1 := f, f;
      StartedParts(s0, f, up);
      HasValues(s0, f, up);
      ListEmpty(s0, f, up);
      finalized := finalized + [p];
      TracedLog(o, s0, p);
      LoggedUntouched(s0, p, PreOrder(f.list));
      LoggedUntouched(s0, p, PreOrder(f.next));
      var e := entries[p];
      if list[p].Some? {
        ghost var a, a' := FinalizeBelow(p, f.list, o);
        TreeOfList(s0.entries, f, lost, entries, a);
        if lost {
          LostTree(FinalizeTree(s0.entries, f), entries, Node(f.id, LiftAll(entries, Nil, a), f.next), g);
          return;
        }
        ghost var s1 := Logged(s0, p).(entries := PushTop(s0.entries, f.list, ParentDep(e)));
        FinishBelow(s0, s1, Now(), f, a, a', up);
        g, f1 := Node(p, a', f.next), Node(p, f.list, Nil);
      } else if e.sym.Some? && e.prompt.Some? {
        assert Takes(entries, p);
        assert p == finalized[|finalized| - 1];
        ghost var l1, a, b := TakeFollowing(p, e.sym.value, f.next, up, o);
        TreeOfTaken(s0.entries, f, lost, entries, a, b);
        if lost {
          LostTree(FinalizeTree(s0.entries, f), entries, Node(f.id, LiftAll(entries, Nil, a), b), g);
          return;
        }
        ghost var s1 := Now();
        TakenReady(Logged(s0, p), s1, f.next, l1, a, b, p);
        ghost var a' := HoistChildren(p, a, o);
        ListIsHoisted(s1, Now(), p, a, a');
        FinishTaken(s0, s1, Now(), f, l1, a, a', b, up);
        g, f1 := Node(p, a', b), Node(p, Nil, l1);
      } else {
        FinishAlone(s0, Now(), f, up);
        TreeAlone(s0.entries, f);
        g, f1 := f, Node(p, Nil, Nil);
      }
    }

    /**
     * menu_finalize of the root menu.  It goes through exactly if the run on trees meets no undefined test,
     * and then leaves the tree that this run gives; the order of all entries is kept, each is finalised
     * once, each has got its condition from the entry that was its parent before, and each whose parent is
     * another one now, or an entry without a prompt that held it, has been taken in there.
     */
    method FinalizeAll(root: Id, ghost l: Forest) returns (ghost l': Forest)
      requires Started(Now(), Node(root, l, Nil), None) && IsMenu(Now(), root) && taken == {} && !lost
      modifies this
      ensures lost <==> FinalizeTree(old(entries), Node(root, l, Nil)) == Lost
      ensures !lost ==> FinalizeTree(old(entries), Node(root, l, Nil)) == Kept(entries, Node(root, l', Nil), Nil)
      ensures !lost ==> root in list && root in next && root in parent && next[root].None? && parent[root].None?
      ensures !lost ==> Chain(Pointers(), list[root], l', Some(root), None) && PreOrder(l') == PreOrder(l)
      ensures !lost ==> Reshaped(old(Now()), Now(), root, l) && EntriesOk(entries, PreOrder(l))
      ensures !lost ==> finalized == old(finalized) + [root] + PreOrder(l)
    {
      hide PreOrder, Append, Chain, Distinct, Done, EntriesOk, Untouched, LinksOutside, SameOutside, AllPushed, PushTop, PushEntry, ChoiceValues, Started, Finished, FinalizeTree, Bare, Traced;
      ghost var f := Node(root, l, Nil);
      ghost var s0 := Now();
      ghost var o := Origin(parent, Bare(entries));
      TracedStart(s0);
      ghost var g, f1 := Finalize(root, f, None, o);
      l' := l;
      if lost {
        return;
      }
      StartedParts(s0, f, None);
      FinishedRoot(s0, Now(), l, g, f1, root);
      l' := g.list;
    }

    /** An entry with a list: conditions first, then the children, then the lists that move up. */
    method FinalizeBelow(p: Id, ghost l: Forest, ghost o: Origin) returns (ghost a: Forest, ghost a': Forest)
      requires p in entries && EntryOk(entries[p]) && p in list && p !in PreOrder(l) && p in values && values[p] == []
      requires Chain(Pointers(), list[p], l, Some(p), None)
      requires Distinct(PreOrder(l)) && EntriesOk(entries, PreOrder(l)) && Untouched(Now(), PreOrder(l)) && Traced(o, Now())
      requires !lost
      modifies this
      ensures p in old(entries) && EntryOk(old(entries[p]))
      ensures FinalizeList(PushTop(old(entries), l, ParentDep(old(entries[p]))), Nil, l) == if lost then Lost else Kept(entries, a, Nil)
      ensures !lost ==>
                var s1 := old(Now()).(entries := PushTop(old(entries), l, ParentDep(old(entries[p]))));
                Below(s1, Now(), p, l, a, a')
      ensures !lost ==> a' == LiftAll(entries, Nil, a) && Traced(o, Now())
      decreases |PreOrder(l)|, 3
    {
      hide PreOrder, Append, Chain, Distinct, Done, EntriesOk, Untouched, LinksOutside, SameOutside, AllPushed, PushTop, PushEntry, ChoiceValues, Outside, BelowVia, ListHoisted, FinalizeList, LiftAll, Traced;
      ghost var s0 := Now();
      PushChildren(p, l);
      ghost var s1 := Now();
      PushedReady(s0, p, l);
      UntouchedSame(s0, s1, PreOrder(l));
      TracedPush(o, s0, l, ParentDep(s0.entries[p]));
      a := FinalizeChildren(p, l, o);
      a' := a;
      if lost {
        return;
      }
      ghost var s2 := Now();
      BelowReady(s1, s2, p, l, a);
      a' := HoistChildren(p, a, o);
      ListIsHoisted(s2, Now(), p, a, a');
      BelowReached(s1, s2, Now(), p, l, a, a');
    }

    /** The second loop over the children. */
    method FinalizeChildren(p: Id, ghost l: Forest, ghost o: Origin) returns (ghost a: Forest)
      requires p in list && p !in PreOrder(l) && Chain(Pointers(), list[p], l, Some(p), None)
      requires Distinct(PreOrder(l)) && EntriesOk(entries, PreOrder(l)) && Untouched(Now(), PreOrder(l)) && Traced(o, Now())
      requires !lost
      modifies this
      ensures FinalizeList(old(entries), Nil, l) == if lost then Lost else Kept(entries, a, Nil)
      ensures !lost ==> Outside(old(Now()), Now(), PreOrder(l)) && p in list && Chain(Pointers(), list[p], a, Some(p), None)
      ensures !lost ==> PreOrder(a) == PreOrder(l) && finalized == old(finalized) + PreOrder(l)
      ensures !lost ==> Done(old(entries), entries, l) && EntriesOk(entries, PreOrder(l)) && Traced(o, Now())
      decreases |PreOrder(l)|, 2
    {
      hide PreOrder, Append, Chain, Distinct, Done, EntriesOk, Untouched, LinksOutside, SameOutside, AllPushed, PushTop, PushEntry, ChoiceValues, Outside, Walking, Started, Finished, FinalizeTree, FinalizeList, Yields, Traced;
      ghost var s0 := Now();
      var menu := list[p];
      ghost var l1, b := Nil, l;
      a := Nil;
      WalkStart(s0, menu, l, Some(p), Some(p));
      while menu.Some?
        invariant Walking(s0, Now(), s0.h.list[p], l, l1, a, b, menu, Some(p), Some(p)) && Traced(o, Now())
        invariant !lost && FinalizeList(entries, a, b) == FinalizeList(s0.entries, Nil, l)
        decreases |PreOrder(b)|
      {
        var m := menu.value;
        WalkingParts(s0, Now(), s0.h.list[p], l, l1, a, b, menu, Some(p), Some(p));
        ghost var s := Now();
        ghost var g, f1 := Finalize(m, b, Some(p), o);
        ListStep(s.entries, a, b, lost, entries, g);
        if lost {
          return;
        }
        FinishedNext(s, Now(), b, g, f1, Some(p));
        WalkStep(s0, s, Now(), s0.h.list[p], l, l1, a, b, g, f1, Some(p), Some(p));
        ParentAlready(s, Now(), b, g, f1, Some(p));
        menu := next[m];
        l1, a, b := Append(l1, f1), Append(a, Node(m, g.list, Nil)), g.next;
      }
      WalkEnd(s0, Now(), s0.h.list[p], l, l1, a, b, Some(p), Some(p), p);
      ListEnds(entries, a);
    }

    /** The loop over the following entries, up to the first that does not depend on `sym`. */
    method WalkFollowing(p: Id, sym: Symbol, ghost n: Forest, ghost up: Option<Id>, ghost o: Origin)
      returns (last: Option<Id>, ghost menu: Option<Id>, ghost l1: Forest, ghost a: Forest, ghost b: Forest)
      requires Takes(entries, p) && entries[p].sym == Some(sym) && p in finalized && Traced(o, Now())
      requires p in next && p !in PreOrder(n) && Chain(Pointers(), next[p], n, up, None)
      requires Distinct(PreOrder(n)) && EntriesOk(entries, PreOrder(n)) && Untouched(Now(), PreOrder(n)) && !lost
      modifies this
      ensures TakeIn(old(entries), sym, ShownUnder(old(entries[p])), Nil, n) == if lost then Lost else Kept(entries, a, b)
      ensures !lost ==> Walking(old(Now()), Now(), old(next[p]), n, l1, a, b, menu, Some(p), up)
      ensures last == if a.Nil? then None else Some(Last(a))
      ensures !lost ==> Traced(o, Now())
      decreases |PreOrder(n)|, 2
    {
      hide PreOrder, Append, Chain, Distinct, Done, EntriesOk, Untouched, LinksOutside, SameOutside, AllPushed, PushTop, PushEntry, ChoiceValues, Outside, Walking, Started, Finished, Judge, FinalizeTree, TakeIn, Yields, Last, Traced;
      ghost var s0 := Now();
      var base := ShownUnder(entries[p]);
      var m' := next[p];
      last := None;
      l1, a, b := Nil, Nil, n;
      WalkStart(s0, m', n, Some(p), up);
      while m'.Some?
        invariant Walking(s0, Now(), s0.h.next[p], n, l1, a, b, m', Some(p), up) && Traced(o, Now())
        invariant last == if a.Nil? then None else Some(Last(a))
        invariant !lost && TakeIn(entries, sym, base, a, b) == TakeIn(s0.entries, sym, base, Nil, n)
        decreases |PreOrder(b)|
      {
        var m := m'.value;
        WalkingParts(s0, Now(), s0.h.next[p], n, l1, a, b, m', Some(p), up);
        WalkingEntry(s0, Now(), s0.h.next[p], n, l1, a, b, m', Some(p), up);
        var v := Test(m, sym, base);
        if v != Belongs {
          TakeInStops(entries, sym, base, a, b);
          lost := v == Undefined;
          menu := m';
          return;
        }
        ghost var s := Now();
        ghost var g, f1 := Finalize(m, b, up, o);
        TakeInStep(s.entries, sym, base, a, b, lost, entries, g);
        if lost {
          menu := m';
          return;
        }
        ghost var s1 := Now();
        FinishedNext(s, s1, b, g, f1, up);
        parent := parent[m := Some(p)];
        taken := taken + {(m, p)};
        TakeStep(o, s0, s, s1, s0.h.next[p], n, l1, a, b, g, f1, p, up);
        last := Some(m);
        m' := next[m];
        LastAppended(a, m, g.list);
        l1, a, b := Append(l1, f1), Append(a, Node(m, g.list, Nil)), g.next;
      }
      menu := m';
      WalkingParts(s0, Now(), s0.h.next[p], n, l1, a, b, m', Some(p), up);
      TakeInStops(entries, sym, base, a, b);
    }

    /** The entries that depend on `sym` become its submenu, up to the first that is refused. */
    method TakeFollowing(p: Id, sym: Symbol, ghost n: Forest, ghost up: Option<Id>, ghost o: Origin)
      returns (ghost l1: Forest, ghost a: Forest, ghost b: Forest)
      requires Takes(entries, p) && entries[p].sym == Some(sym) && p in finalized && Traced(o, Now())
      requires p !in PreOrder(n) && p in next && p in list && list[p].None? && Chain(Pointers(), next[p], n, up, None)
      requires Distinct(PreOrder(n)) && EntriesOk(entries, PreOrder(n)) && Untouched(Now(), PreOrder(n)) && !lost
      modifies this
      ensures TakeIn(old(entries), sym, ShownUnder(old(entries[p])), Nil, n) == if lost then Lost else Kept(entries, a, b)
      ensures !lost ==> p in next && p in list && Chain(Pointers(), list[p], a, Some(p), None) && Chain(Pointers(), next[p], b, up, None)
      ensures !lost ==> TakenOver(old(Now()), Now(), n, l1, a, b, p) && Traced(o, Now())
      decreases |PreOrder(n)|, 3
    {
      hide PreOrder, Append, Chain, Distinct, Done, EntriesOk, Untouched, LinksOutside, SameOutside, AllPushed, PushTop, PushEntry, ChoiceValues, Outside, Walking, WalkedOver, TakenOver, TakeIn, Last, Traced;
      ghost var s0 := Now();
      ghost var menu;
      var last;
      last, menu, l1, a, b := WalkFollowing(p, sym, n, up, o);
      if lost {
        return;
      }
      ghost var s := Now();
      WalkingSplice(s0, s, n, l1, a, b, menu, up, p);
      WalkingParts(s0, s, s0.h.next[p], n, l1, a, b, menu, Some(p), up);
      TakenNone(s0, s, n, l1, a, b, p);
      if last.Some? {
        list := list[p := next[p]];
        next := next[p := next[last.value]];
        next := next[last.value := None];
        TakenSome(s0, s, Now(), n, l1, a, b, up, p);
        TracedSame(o, s, Now());
      }
    }

    /** The last loop: choice values are recorded, and lists without a prompt move up a level. */
    method HoistChildren(p: Id, ghost a: Forest, ghost o: Origin) returns (ghost a': Forest)
      requires p in list && p in entries && p !in PreOrder(a) && Chain(Pointers(), list[p], a, Some(p), None)
      requires Distinct(PreOrder(a)) && EntriesOk(entries, PreOrder(a)) && p in values && values[p] == [] && Traced(o, Now())
      modifies `next, `list, `parent, `values
      ensures p in list && Chain(Pointers(), list[p], a', Some(p), None) && PreOrder(a') == PreOrder(a)
      ensures LinksOutside(old(Pointers()), Pointers(), PreOrder(a)) && Traced(o, Now())
      ensures values == if IsChoice(entries[p]) then old(values)[p := ChoiceValues(entries, a')] else old(values)
      ensures a' == LiftAll(entries, Nil, a)
    {
      hide LiftAll, PreOrder, Append, Chain, Distinct, Done, EntriesOk, Untouched, LinksOutside, SameOutside, AllPushed, PushTop, PushEntry, ChoiceValues, Rearranging, IsChoice, Added, Traced;
      ghost var s0 := Now();
      var menu := list[p];
      ghost var x, b := Nil, a;
      RearrangeStart(s0, a, p);
      while menu.Some?
        invariant Rearranging(s0, Now(), a, x, b, menu, p) && Traced(o, Now())
        decreases |PreOrder(b)|
      {
        var m := menu.value;
        ghost var b' := HoistChild(p, m, s0, a, x, b, o);
        menu := next[m];
        x, b := Append(x, Node(m, b'.list, Nil)), b'.next;
      }
      RearrangeDone(s0, Now(), a, x, b, p);
      a' := x;
    }

    /** One child, the first entry of `b`. */
    method HoistChild(p: Id, m: Id, ghost s0: State, ghost a: Forest, ghost x: Forest, ghost b: Forest, ghost o: Origin)
      returns (ghost b': Forest)
      requires Rearranging(s0, Now(), a, x, b, Some(m), p) && Traced(o, Now())
      modifies `next, `list, `parent, `values
      ensures b'.Node? && m in next && |PreOrder(b'.next)| < |PreOrder(b)|
      ensures Rearranging(s0, Now(), a, Append(x, Node(m, b'.list, Nil)), b'.next, next[m], p) && Traced(o, Now())
    {
      hide PreOrder, Append, Chain, Distinct, Done, EntriesOk, Untouched, LinksOutside, SameOutside, AllPushed, PushTop, PushEntry, ChoiceValues, Rearranging, IsChoice, Added, Traced;
      ghost var s := Now();
      RearrangeParts(s0, s, a, x, b, Some(m), p);
      AddValue(p, m);
      TracedSame(o, s, Now());
      b' := MaybeHoist(m, p, b, o);
      RearrangeStep(s0, s, Now(), a, x, b, b', p);
    }

    /** A choice value is put at the front of the list of its choice. */
    method AddValue(p: Id, m: Id)
      requires p in entries && m in entries && p in values
      modifies `values
      ensures values == if IsChoice(entries[p]) then old(values)[p := Added(entries, m) + old(values[p])] else old(values)
    {
      if IsChoice(entries[p]) && entries[m].sym.Some? {
        values := values[p := [entries[m].sym.value] + values[p]];
      } else {
        assert [] + values[p] == values[p] && values == values[p := values[p]];
      }
    }

    method MaybeHoist(m: Id, p: Id, ghost b: Forest, ghost o: Origin) returns (ghost b': Forest)
      requires b.Node? && b.id == m && Distinct(PreOrder(b)) && Chain(Pointers(), Some(m), b, Some(p), None) && m in entries
      requires Traced(o, Now())
      modifies `next, `list, `parent
      ensures b' == if b.list.Node? && entries[m].prompt.None? then Node(m, Nil, Append(b.list, b.next)) else b
      ensures Chain(Pointers(), Some(m), b', Some(p), None) && LinksOutside(old(Pointers()), Pointers(), PreOrder(b))
      ensures Traced(o, Now())
    {
      hide PreOrder, Append, Chain, Distinct, Done, EntriesOk, Untouched, LinksOutside, SameOutside, AllPushed, PushTop, PushEntry, ChoiceValues, Traced;
      b' := b;
      ChainHead(Pointers(), Some(m), b, Some(p));
      if list[m].Some? && entries[m].prompt.None? {
        b' := Hoist(m, p, b, o);
      } else {
        OutsideRefl(Pointers(), PreOrder(b));
      }
    }

    /** The list of `m` goes in between `m` and the entry after it. */
    method Hoist(m: Id, p: Id, ghost b: Forest, ghost o: Origin) returns (ghost b': Forest)
      requires b.Node? && b.id == m && b.list.Node? && Distinct(PreOrder(b)) && Chain(Pointers(), Some(m), b, Some(p), None)
      requires m in entries && entries[m].prompt.None? && Traced(o, Now())
      modifies `next, `list, `parent
      ensures b' == Node(m, Nil, Append(b.list, b.next)) && Chain(Pointers(), Some(m), b', Some(p), None)
      ensures LinksOutside(old(Pointers()), Pointers(), PreOrder(b)) && Traced(o, Now())
    {
      hide PreOrder, Append, Chain, Distinct, Done, EntriesOk, Untouched, LinksOutside, SameOutside, AllPushed, PushTop, PushEntry, ChoiceValues, HoistLoop, HoistReady, Traced;
      ghost var h0 := Pointers();
      HoistParts(h0, b, p);
      var last := list[m].value;
      ghost var x, y := Nil, b.list;
      while true
        invariant HoistLoop(h0, Pointers(), b, x, y, last, p) && Traced(o, Now())
        decreases |PreOrder(y)|
      {
        HoistLoopParts(h0, Pointers(), b, x, y, last, p);
        ghost var h, s := Pointers(), Now();
        parent := parent[last := Some(p)];
        TracedHoist(o, s, last, m, p);
        HoistLoopStep(h0, h, b, x, y, last, p);
        if next[last].None? {
          break;
        }
        x, y := Append(x, Node(last, y.list, Nil)), y.next;
        last := next[last].value;
      }
      ghost var h, s := Pointers(), Now();
      HoistReadyParts(h0, h, b, last, p);
      next := next[last := next[m]];
      next := next[m := list[m]];
      list := list[m := None];
      b' := Node(m, Nil, Append(b.list, b.next));
      HoistLoopEnd(h0, h, b, last, p);
      TracedSame(o, s, Now());
    }
  }

  lemma StartedParts(s: State, f: Forest, up: Option<Id>)
    requires Started(s, f, up)
    ensures f.id in s.h.next && f.id in s.h.list && f.id in s.h.parent && f.id in s.entries && EntryOk(s.entries[f.id])
    ensures f.id !in PreOrder(f.list) && f.id !in PreOrder(f.next)
    ensures Distinct(PreOrder(f.list)) && Distinct(PreOrder(f.next))
    ensures EntriesOk(s.entries, PreOrder(f.list)) && EntriesOk(s.entries, PreOrder(f.next))
    ensures Untouched(s, PreOrder(f.list)) && Untouched(s, PreOrder(f.next)) && Untouched(s, [f.id])
    ensures Chain(s.h, s.h.list[f.id], f.list, Some(f.id), None) && Chain(s.h, s.h.next[f.id], f.next, up, None)
    ensures |PreOrder(f.list)| < |PreOrder(f)| && |PreOrder(f.next)| < |PreOrder(f)|
  {
    DistinctNode(f);
    EntriesOkParts(s.entries, f);
    InPreOrder(f);
  }

  lemma LoggedUntouched(s: State, p: Id, t: seq<Id>)
    requires Untouched(s, t) && p !in t
    ensures Untouched(Logged(s, p), t)
  {
  }

  lemma ListEmpty(s: State, f: Forest, up: Option<Id>)
    requires Started(s, f, up)
    ensures f.Node? && f.id in s.h.list && (s.h.list[f.id].None? ==> f.list.Nil?)
  {
    assert Chain(s.h, s.h.list[f.id], f.list, Some(f.id), None);
  }

  lemma ListIsHoisted(s: State, s': State, p: Id, a: Forest, a': Forest)
    requires p in s.entries && p in s'.h.list && Chain(s'.h, s'.h.list[p], a', Some(p), None) && PreOrder(a') == PreOrder(a)
    requires LinksOutside(s.h, s'.h, PreOrder(a)) && s'.entries == s.entries && s'.finalized == s.finalized
    requires s'.values == if IsChoice(s.entries[p]) then s.values[p := ChoiceValues(s.entries, a')] else s.values
    ensures ListHoisted(s, s', p, a, a')
  {
  }

  lemma UntouchedSame(s: State, s': State, t: seq<Id>)
    requires Untouched(s, t) && s'.values == s.values && s'.finalized == s.finalized
    ensures Untouched(s', t)
  {
  }

  lemma BelowReached(s1: State, s2: State, s: State, p: Id, l: Forest, a: Forest, a': Forest)
    requires Outside(s1, s2, PreOrder(l)) && PreOrder(a) == PreOrder(l) && s2.finalized == s1.finalized + PreOrder(l)
    requires Done(s1.entries, s2.entries, l) && EntriesOk(s2.entries, PreOrder(l)) && ListHoisted(s2, s, p, a, a')
    ensures Below(s1, s, p, l, a, a')
  {
    hide PreOrder, Outside, Done, EntriesOk, ListHoisted;
    assert BelowVia(s1, s2, s, p, l, a, a');
  }

  lemma HoistReadyParts(h0: Links, h: Links, b: Forest, last: Id, p: Id)
    requires HoistReady(h0, h, b, last, p)
    ensures b.id in h.next && b.id in h.list && last in h.next
  {
    hide Distinct, PreOrder, LinksOutside;
    ChainLast(h, h.list[b.id], b.list, Some(p));
  }

  lemma {:induction false} ChainLast(h: Links, start: Option<Id>, f: Forest, up: Option<Id>)
    requires f.Node? && Chain(h, start, f, up, None)
    ensures Last(f) in h.next
    decreases f
  {
    if f.next.Node? {
      ChainLast(h, h.next[f.id], f.next, up);
    }
  }

  /** The values of the entries `x` have been recorded for `p`, if it is a choice. */
  ghost predicate Recorded(e: Entries, v: map<Id, seq<Symbol>>, v': map<Id, seq<Symbol>>, p: Id, x: Forest) {
    p in e && p in v && v' == if IsChoice(e[p]) then v[p := ChoiceValues(e, x)] else v
  }

  lemma RecordedStart(e: Entries, v: map<Id, seq<Symbol>>, p: Id)
    requires p in e && p in v && v[p] == []
    ensures Recorded(e, v, v, p, Nil)
  {
    assert v == v[p := []];
  }

  lemma RecordedStep(e: Entries, v0: map<Id, seq<Symbol>>, v: map<Id, seq<Symbol>>, v': map<Id, seq<Symbol>>,
                     p: Id, x: Forest, m: Id, l: Forest)
    requires Recorded(e, v0, v, p, x) && m in e && p in v
    requires v' == if IsChoice(e[p]) then v[p := Added(e, m) + v[p]] else v
    ensures Recorded(e, v0, v', p, Append(x, Node(m, l, Nil)))
  {
    hide ChoiceValues, Append;
    ChoiceValuesSame(e, x, m, l);
  }

  /** Of the list `a` of `p` the entries `x` have been dealt with, those of `b`, from `menu` on, are to come. */
  ghost predicate Rearranging(s0: State, s: State, a: Forest, x: Forest, b: Forest, menu: Option<Id>, p: Id) {
    p in s0.h.list && p in s.h.list && s.h.list[p] == s0.h.list[p] && s.entries == s0.entries && EntriesOk(s0.entries, PreOrder(a)) &&
    Hoisting(s0.h, s.h, s0.h.list[p], a, x, b, menu, p) && Recorded(s0.entries, s0.values, s.values, p, x) &&
    LiftAll(s0.entries, x, b) == LiftAll(s0.entries, Nil, a)
  }

  lemma RearrangeStart(s: State, a: Forest, p: Id)
    requires p in s.h.list && p in s.entries && p !in PreOrder(a) && Chain(s.h, s.h.list[p], a, Some(p), None)
    requires Distinct(PreOrder(a)) && EntriesOk(s.entries, PreOrder(a)) && p in s.values && s.values[p] == []
    ensures Rearranging(s, s, a, Nil, a, s.h.list[p], p)
  {
    hide LiftAll, Chain, PreOrder, Distinct, EntriesOk, Hoisting, Recorded;
    HoistStart(s.h, s.h.list[p], a, p);
    RecordedStart(s.entries, s.values, p);
  }

  lemma RearrangeParts(s0: State, s: State, a: Forest, x: Forest, b: Forest, menu: Option<Id>, p: Id)
    requires Rearranging(s0, s, a, x, b, menu, p) && menu.Some?
    ensures b.Node? && menu == Some(b.id) && b.id in s.entries && p in s.entries && p in s.values
    ensures Distinct(PreOrder(b)) && Chain(s.h, Some(b.id), b, Some(p), None) && b.id in s.h.next
  {
    hide LiftAll, Chain, PreOrder, Distinct, EntriesOk, Hoisting;
    HoistingParts(s0.h, s.h, s0.h.list[p], a, x, b, menu, p);
    EntriesAt(s0.entries, PreOrder(a), b.id);
  }

  lemma RearrangeStep(s0: State, s: State, s': State, a: Forest, x: Forest, b: Forest, b': Forest, p: Id)
    requires b.Node? && Rearranging(s0, s, a, x, b, Some(b.id), p) && s'.entries == s.entries && b.id in s.entries && p in s.values
    requires p in s.entries
    requires s'.values == if IsChoice(s.entries[p]) then s.values[p := Added(s.entries, b.id) + s.values[p]] else s.values
    requires b' == if b.list.Node? && s.entries[b.id].prompt.None? then Node(b.id, Nil, Append(b.list, b.next)) else b
    requires Chain(s'.h, Some(b.id), b', Some(p), None) && LinksOutside(s.h, s'.h, PreOrder(b))
    ensures b.id in s'.h.next && |PreOrder(b'.next)| < |PreOrder(b)|
    ensures Rearranging(s0, s', a, Append(x, Node(b.id, b'.list, Nil)), b'.next, s'.h.next[b.id], p)
  {
    hide LiftAll, Chain, PreOrder, Distinct, EntriesOk, Hoisting, Recorded, LinksOutside, Append, Added, IsChoice;
    LiftStep(s0.entries, x, b);
    HoistingStep(s0.h, s.h, s'.h, s0.h.list[p], a, x, b, b', p);
    RecordedStep(s0.entries, s0.values, s.values, s'.values, p, x, b.id, b'.list);
  }

  lemma RearrangeDone(s0: State, s: State, a: Forest, x: Forest, b: Forest, p: Id)
    requires Rearranging(s0, s, a, x, b, None, p)
    ensures p in s.h.list && p in s0.entries && p in s0.values && Chain(s.h, s.h.list[p], x, Some(p), None)
    ensures PreOrder(x) == PreOrder(a) && LinksOutside(s0.h, s.h, PreOrder(a))
    ensures s.values == if IsChoice(s.entries[p]) then s0.values[p := ChoiceValues(s.entries, x)] else s0.values
    ensures x == LiftAll(s.entries, Nil, a)
  {
    LiftEnds(s0.entries, x);
    assert b.Nil?;
    hide LiftAll, Chain, PreOrder, Distinct, EntriesOk, Hoisting, LinksOutside, ChoiceValues;
    HoistingDone(s0.h, s.h, s0.h.list[p], a, x, b, p);
  }
}
