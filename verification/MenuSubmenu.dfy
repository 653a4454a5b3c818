/** What the menu tree that menu_finalize leaves means: nothing shows up below an entry that has gone. */
module MenuSubmenu {
  import opened Options
  import opened Tristate
  import opened Symbols
  import opened Expressions
  import opened ExprTransformation
  import opened ExprComparison
  import opened MenuForest
  import opened MenuDeps
  import opened MenuSteps
  import opened MenuTrace

  ghost predicate InTree(root: Id, l: Forest, c: Id) {
    c == root || c in PreOrder(l)
  }

  /** No symbol is m, neither are the conditions as declared, and a choice without prompt is n when its condition is. */
  ghost predicate Settings(e: Entries, e': Entries, root: Id, l: Forest, env: Env) {
    NoneMod(env) && (forall i {:trigger i in e} :: i in PreOrder(l) && i in e ==> Definite(e[i], env)) &&
    (root in e' && EntryOk(e'[root]) ==> EvalOpt(ParentDep(e'[root]), env) != MOD) &&
    forall i {:trigger i in e'} :: i in e' && IsChoice(e'[i]) && e'[i].prompt.None? && ValueOf(e'[i].sym.value, env) != NO ==>
      EvalOpt(e'[i].dep, env) != NO
  }

  ghost predicate IsShown(e: Entries, c: Id, env: Env) {
    c in e && EntryOk(e[c]) &&
    EvalOpt(if e[c].prompt.Some? then e[c].props[e[c].prompt.value].visible else e[c].dep, env) != NO
  }

  /** The entry shows up, or its symbol is not n. */
  ghost predicate Stands(e: Entries, p: Id, env: Env) {
    IsShown(e, p, env) || (p in e && e[p].sym.Some? && ValueOf(e[p].sym.value, env) != NO)
  }

  /** Conditions of symbols of two or three values, in an environment in which none is m. */
  ghost predicate PlainCondition(e: Option<Expr>, env: Env) {
    e.Some? ==> TristateLeaves(e.value) && TwoValued(e.value, env)
  }

  /** The test for the submenu of `p` was about such conditions. */
  ghost predicate Testable(e: Entries, q: Id, p: Id, env: Env)
    requires TakenPair(e, q, p)
  {
    TristateLeaves(Sym(e[p].sym.value)) && !IsTristateConst(e[p].sym.value) &&
    PlainCondition(ShownUnder(e[q]), env) && PlainCondition(ShownUnder(e[p]), env)
  }

  /** An entry that was taken in shows up only if the one it was taken in by stands. */
  lemma TakenStands(e: Entries, q: Id, p: Id, env: Env)
    requires NoneMod(env) && TakenPair(e, q, p) && Testable(e, q, p, env)
    ensures IsShown(e, q, env) ==> Stands(e, p, env)
  {
    var (dep, sym, base) := (ShownUnder(e[q]), e[p].sym.value, ShownUnder(e[p]));
    hide TristateLeaves, NegationsDefinite, TwoValued, ContainsSymbol, NotNo, EliminateEqTop, ShownUnder;
    TwoValuedNegations(dep.value, env);
    if base.Some? {
      TwoValuedNegations(base.value, env);
    }
    SubmenuJustified(dep, sym, base, env);
  }

  // ----- The tree as it was -----

  lemma {:induction false} HasOwner(f: Forest, up: Id, c: Id)
    requires c in PreOrder(f)
    ensures exists p :: ChildOf(f, up, c, p)
  {
    var Node(id, l, n) := f;
    InPreOrder(f);
    hide PreOrder;
    if c == id {
      assert ChildOf(f, up, c, up);
    } else if c in PreOrder(l) {
      HasOwner(l, id, c);
      var p :| ChildOf(l, id, c, p);
      assert ChildOf(f, up, c, p);
    } else {
      HasOwner(n, up, c);
      var p :| ChildOf(n, up, c, p);
      assert ChildOf(f, up, c, p);
    }
  }

  lemma {:induction false} PushedKind(e: Entries, e': Entries, f: Forest, parentdep: Option<Expr>, c: Id)
    requires AllPushed(e, e', f, parentdep) && c in PreOrder(f)
    ensures c in e && c in e' && EntryOk(e'[c]) && EntryOk(e[c]) && e'[c].prompt == e[c].prompt
    decreases f
  {
    var Node(id, l, n) := f;
    InPreOrder(f);
    hide PreOrder;
    if c == id {
      hide PushDep, AllPushed;
    } else if c in PreOrder(l) {
      PushedKind(e, e', l, ParentDep(e'[id]), c);
    } else {
      PushedKind(e, e', n, parentdep, c);
    }
  }

  /** The owner of an entry is in the tree, and is what its parent pointer says. */
  lemma OwnerOf(s: State, root: Id, l: Forest, c: Id, m: Id)
    requires Started(s, Node(root, l, Nil), None) && c in PreOrder(l) && c in s.h.parent && s.h.parent[c] == Some(m)
    ensures ChildOf(l, root, c, m) && InTree(root, l, m)
  {
    HasOwner(l, root, c);
    var p :| ChildOf(l, root, c, p);
    assert Chain(s.h, s.h.list[root], l, Some(root), None);
    hide PreOrder, Chain, ChildOf, Started;
    ParentHoldsChild(s.h, s.h.list[root], l, root, c, p);
    InsideOrTop(l, root, c, p);
  }

  lemma StartedRoot(s: State, root: Id, l: Forest)
    requires Started(s, Node(root, l, Nil), None)
    ensures Distinct(PreOrder(l)) && root !in PreOrder(l) && root in s.h.parent && s.h.parent[root].None?
    ensures EntriesOk(s.entries, PreOrder(l))
  {
    DistinctNode(Node(root, l, Nil));
    EntriesOkParts(s.entries, Node(root, l, Nil));
  }

  // ----- Going up -----

  /** What shows up has a condition that its owner passes on. */
  lemma PassedOn(s: State, s': State, root: Id, l: Forest, c: Id, m: Id, env: Env)
    requires Reshaped(s, s', root, l) && Settings(s.entries, s'.entries, root, l, env)
    requires c in PreOrder(l) && c in s.h.parent && s.h.parent[c] == Some(m)
    ensures InTree(root, l, m) && m in s'.entries && EntryOk(s'.entries[m])
    ensures IsShown(s'.entries, c, env) ==> EvalOpt(ParentDep(s'.entries[m]), env) != NO
  {
    OwnerOf(s, root, l, c, m);
    StartedRoot(s, root, l);
    hide Started, Distinct, Chain, ChildOf, NoneMod, ParentDep, ShownUnder;
    PushedExact(s.entries, s'.entries, l, root, ParentDep(s'.entries[root]), c, m, env);
    PushedKind(s.entries, s'.entries, l, ParentDep(s'.entries[root]), c);
    hide AllPushed, PreOrder;
    ShownBelow(ParentDep(s'.entries[m]), s.entries[c], s'.entries[c], env);
  }

  lemma ShownBelow(parentdep: Option<Expr>, e: MenuEntry, e': MenuEntry, env: Env)
    requires Visibly(parentdep, e, e', env) && EntryOk(e) && EntryOk(e') && e'.prompt == e.prompt
    ensures EvalOpt(ShownUnder(e'), env) != NO ==> EvalOpt(parentdep, env) != NO
  {
  }

  /** Entries without a prompt hand on the conditions of what they are in. */
  lemma {:induction false} ClimbShown(s: State, s': State, root: Id, l: Forest, c: Id, q: Id, n: nat, env: Env)
    requires Reshaped(s, s', root, l) && Settings(s.entries, s'.entries, root, l, env) && InTree(root, l, c)
    requires Climbs(Origin(s.h.parent, Bare(s.entries)), c, q, n)
    ensures InTree(root, l, q) && (IsShown(s'.entries, c, env) ==> IsShown(s'.entries, q, env))
    decreases n
  {
    if n > 0 {
      var m := s.h.parent[c].value;
      StartedRoot(s, root, l);
      PassedOn(s, s', root, l, c, m, env);
      BareShown(s, s', root, l, m, env);
      ClimbShown(s, s', root, l, m, q, n - 1, env);
    }
  }

  lemma BareShown(s: State, s': State, root: Id, l: Forest, m: Id, env: Env)
    requires Reshaped(s, s', root, l) && Settings(s.entries, s'.entries, root, l, env)
    requires InTree(root, l, m) && m in Bare(s.entries) && m in s'.entries && EntryOk(s'.entries[m])
    ensures EvalOpt(ParentDep(s'.entries[m]), env) != NO ==> IsShown(s'.entries, m, env)
  {
    if m != root {
      PushedKind(s.entries, s'.entries, l, ParentDep(s'.entries[root]), m);
    }
    hide AllPushed, PreOrder, Started;
  }

  /**
   * The reshaped tree is sound: an entry shows up only if the entry it is below now shows up, or has a
   * symbol that is not n, whether it was there before, was taken in or moved up from a list without prompt.
   */
  lemma SubmenuSound(s: State, s': State, root: Id, l: Forest, c: Id, p: Id, env: Env)
    requires Reshaped(s, s', root, l) && Settings(s.entries, s'.entries, root, l, env) && c in PreOrder(l)
    requires c in s'.h.parent && s'.h.parent[c] == Some(p)
    requires forall q :: (q, p) in s'.taken && TakenPair(s'.entries, q, p) ==> Testable(s'.entries, q, p, env)
    ensures IsShown(s'.entries, c, env) ==> Stands(s'.entries, p, env)
  {
    var o := Origin(s.h.parent, Bare(s.entries));
    assert Placed(o, s'.taken, c, Some(p));
    var q: Id, n: nat :| Climbs(o, c, q, n) && Settled(o, s'.taken, q, Some(p));
    ClimbShown(s, s', root, l, c, q, n, env);
    if (q, p) in s'.taken {
      assert TakenPair(s'.entries, q, p);
      TakenStands(s'.entries, q, p, env);
    } else {
      StartedRoot(s, root, l);
      PassedOn(s, s', root, l, q, p, env);
      hide Reshaped, Settings, Climbs, TakenPair, NoneMod;
      PassedStands(s'.entries, p, env);
    }
  }

  lemma PassedStands(e: Entries, p: Id, env: Env)
    requires p in e && EntryOk(e[p])
    ensures EvalOpt(ParentDep(e[p]), env) != NO ==> Stands(e, p, env)
  {
  }
}
