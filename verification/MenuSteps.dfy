/** How the steps of menu_finalize keep the menu tree together, on values. */
module MenuSteps {
  import opened Options
  import opened Symbols
  import opened Expressions
  import opened MenuForest
  import opened MenuDeps

  /** The entries of the top level. */
  function Top(f: Forest): seq<Id> {
    match f
    case Nil => []
    case Node(id, _, n) => [id] + Top(n)
  }

  lemma {:induction false} TopInside(f: Forest)
    ensures forall i :: i in Top(f) ==> i in PreOrder(f)
  {
    if f.Node? {
      TopInside(f.next);
    }
  }

  /** The top entries of `f` with their conditions pushed down. */
  ghost function PushTop(e: Entries, f: Forest, parentdep: Option<Expr>): Entries {
    map i | i in e :: if i in Top(f) then PushEntry(parentdep, e[i]) else e[i]
  }

  lemma PushTopStep(e: Entries, f: Forest, parentdep: Option<Expr>)
    requires f.Node? && f.id in e && Distinct(PreOrder(f))
    ensures PushTop(e, f, parentdep) == PushTop(e[f.id := PushEntry(parentdep, e[f.id])], f.next, parentdep)
  {
    DistinctNode(f);
    TopInside(f.next);
  }

  /** The top entries of `f` are as before, and what is below them has got their conditions. */
  ghost predicate Done(e0: Entries, e1: Entries, f: Forest)
    decreases f
  {
    match f
    case Nil => true
    case Node(id, l, n) =>
      id in e0 && EntryOk(e0[id]) && id in e1 && e1[id] == e0[id] &&
      AllPushed(e0, e1, l, ParentDep(e0[id])) && Done(e0, e1, n)
  }

  /** The symbols of the top entries, the last one first. */
  function ChoiceValues(e: Entries, f: Forest): seq<Symbol>
    decreases f
  {
    match f
    case Nil => []
    case Node(id, _, n) => ChoiceValues(e, n) + if id in e && e[id].sym.Some? then [e[id].sym.value] else []
  }

  ghost predicate EntriesOk(e: Entries, s: seq<Id>) {
    forall i {:trigger i in s} :: i in s ==> i in e && EntryOk(e[i])
  }

  lemma EntriesOkParts(e: Entries, f: Forest)
    requires f.Node? && EntriesOk(e, PreOrder(f))
    ensures f.id in e && EntryOk(e[f.id]) && EntriesOk(e, PreOrder(f.list)) && EntriesOk(e, PreOrder(f.next))
  {
    InPreOrder(f);
    hide PreOrder;
  }

  /** Nothing changed outside `s`. */
  ghost predicate SameOutside<T>(m: map<Id, T>, m': map<Id, T>, s: seq<Id>) {
    m'.Keys == m.Keys && forall i :: i in m && i !in s ==> m'[i] == m[i]
  }

  ghost predicate LinksOutside(h: Links, h': Links, s: seq<Id>) {
    SameOutside(h.next, h'.next, s) && SameOutside(h.list, h'.list, s) && SameOutside(h.parent, h'.parent, s)
  }

  lemma SameTwice<T>(a: map<Id, T>, b: map<Id, T>, c: map<Id, T>, s: seq<Id>, t: seq<Id>, u: seq<Id>)
    requires SameOutside(a, b, s) && SameOutside(b, c, t)
    requires (forall i :: i in s ==> i in u) && (forall i :: i in t ==> i in u)
    ensures SameOutside(a, c, u)
  {
  }

  lemma LinksTwice(a: Links, b: Links, c: Links, s: seq<Id>, t: seq<Id>, u: seq<Id>)
    requires LinksOutside(a, b, s) && LinksOutside(b, c, t)
    requires (forall i :: i in s ==> i in u) && (forall i :: i in t ==> i in u)
    ensures LinksOutside(a, c, u)
  {
  }

  lemma OutsideAgrees(h: Links, h': Links, s: seq<Id>, t: seq<Id>)
    requires LinksOutside(h, h', s) && forall i :: i in t ==> i !in s
    ensures Agree(h, h', t)
  {
  }

  // ----- AllPushed, Done -----

  lemma {:induction false} AllPushedFrame(a0: Entries, b0: Entries, a1: Entries, b1: Entries, f: Forest, parentdep: Option<Expr>)
    requires AllPushed(a0, a1, f, parentdep)
    requires forall i :: i in PreOrder(f) && i in a0 ==> i in b0 && b0[i] == a0[i]
    requires forall i :: i in PreOrder(f) && i in a1 ==> i in b1 && b1[i] == a1[i]
    ensures AllPushed(b0, b1, f, parentdep)
    decreases f
  {
    match f
    case Nil =>
    case Node(id, l, n) =>
      assert PreOrder(f)[0] == id;
      AllPushedFrame(a0, b0, a1, b1, l, ParentDep(a1[id]));
      AllPushedFrame(a0, b0, a1, b1, n, parentdep);
  }

  lemma {:induction false} DoneFrame(e0: Entries, e1: Entries, e2: Entries, f: Forest)
    requires Done(e0, e1, f) && forall i :: i in PreOrder(f) && i in e1 ==> i in e2 && e2[i] == e1[i]
    ensures Done(e0, e2, f)
    decreases f
  {
    match f
    case Nil =>
    case Node(id, l, n) =>
      assert PreOrder(f)[0] == id;
      AllPushedFrame(e0, e0, e1, e2, l, ParentDep(e0[id]));
      DoneFrame(e0, e1, e2, n);
  }

  lemma {:induction false} DoneStart(e0: Entries, b0: Entries, e1: Entries, f: Forest)
    requires Done(e0, e1, f) && forall i :: i in PreOrder(f) && i in e0 ==> i in b0 && b0[i] == e0[i]
    ensures Done(b0, e1, f)
    decreases f
  {
    match f
    case Nil =>
    case Node(id, l, n) =>
      assert PreOrder(f)[0] == id;
      AllPushedFrame(e0, b0, e1, e1, l, ParentDep(e0[id]));
      DoneStart(e0, b0, e1, n);
  }

  lemma {:induction false} DoneAppend(e0: Entries, e1: Entries, f: Forest, g: Forest)
    requires Done(e0, e1, f) && Done(e0, e1, g)
    ensures Done(e0, e1, Append(f, g))
    decreases f
  {
    if f.Node? {
      DoneAppend(e0, e1, f.next, g);
    }
  }

  /** In `e1` the top entries of `f` have their conditions pushed down and nothing else of `f` has changed. */
  ghost predicate TopPushed(e0: Entries, e1: Entries, f: Forest, parentdep: Option<Expr>) {
    EntriesOk(e0, PreOrder(f)) && e1.Keys == e0.Keys &&
    (forall i {:trigger i in Top(f)} :: i in Top(f) && i in e0 ==> e1[i] == PushEntry(parentdep, e0[i])) &&
    (forall i {:trigger i in Top(f)} :: i in PreOrder(f) && i !in Top(f) && i in e0 ==> e1[i] == e0[i])
  }

  lemma TopPushedParts(e0: Entries, e1: Entries, f: Forest, parentdep: Option<Expr>)
    requires TopPushed(e0, e1, f, parentdep) && f.Node? && Distinct(PreOrder(f))
    ensures f.id in e0 && f.id in e1 && e1[f.id] == PushEntry(parentdep, e0[f.id])
    ensures TopPushed(e0, e1, f.next, parentdep) && Distinct(PreOrder(f.next))
    ensures forall i :: i in PreOrder(f.list) && i in e1 ==> i in e0 && e1[i] == e0[i]
  {
    hide PushEntry;
    var Node(id, l, n) := f;
    assert PreOrder(f)[0] == id && Top(f)[0] == id;
    assert id in PreOrder(f) && id in Top(f);
    DistinctNode(f);
    TopInside(n);
    assert forall i :: i in Top(f) <==> i == id || i in Top(n);
    assert forall i :: i in PreOrder(n) ==> i in PreOrder(f);
    assert forall i :: i in PreOrder(l) ==> i in PreOrder(f) && i !in Top(f);
  }

  /** Pushing to the children and finalising them pushes to everything below. */
  lemma {:induction false} PushedBelow(e0: Entries, e1: Entries, e2: Entries, f: Forest, parentdep: Option<Expr>)
    requires TopPushed(e0, e1, f, parentdep) && Distinct(PreOrder(f)) && Done(e1, e2, f)
    ensures AllPushed(e0, e2, f, parentdep)
    decreases f
  {
    if f.Node? {
      TopPushedParts(e0, e1, f, parentdep);
      AllPushedFrame(e1, e0, e2, e2, f.list, ParentDep(e1[f.id]));
      PushedBelow(e0, e1, e2, f.next, parentdep);
      hide TopPushed, PushEntry, EntriesOk;
    }
  }

  lemma {:induction false} ChoiceValuesAppend(e: Entries, f: Forest, g: Forest)
    ensures ChoiceValues(e, Append(f, g)) == ChoiceValues(e, g) + ChoiceValues(e, f)
    decreases f
  {
    if f.Node? {
      ChoiceValuesAppend(e, f.next, g);
    }
  }

  /** Each top entry with a symbol gives a value, and the values are in the reverse order of the entries. */
  lemma {:induction false} ChoiceValuesAt(e: Entries, f: Forest)
    requires forall i {:trigger i in Top(f)} :: i in Top(f) ==> i in e && e[i].sym.Some?
    ensures |ChoiceValues(e, f)| == |Top(f)|
    ensures forall k {:trigger Top(f)[k]} :: 0 <= k < |Top(f)| ==> Top(f)[k] in e && e[Top(f)[k]].sym == Some(ChoiceValues(e, f)[|Top(f)| - 1 - k])
    decreases f
  {
    if f.Node? {
      assert f.id == Top(f)[0] && f.id in Top(f);
      assert forall i :: i in Top(f.next) ==> i in Top(f);
      ChoiceValuesAt(e, f.next);
      forall k | 0 <= k < |Top(f)|
        ensures Top(f)[k] in e && e[Top(f)[k]].sym == Some(ChoiceValues(e, f)[|Top(f)| - 1 - k])
      {
        if k > 0 {
          assert Top(f)[k] == Top(f.next)[k - 1];
        }
      }
    }
  }

  // ----- Walking along a list of entries -----

  /**
   * All that menu_finalize works on; `finalized` are the entries it has been called for, and `taken`
   * says which entry it has taken into the submenu of which.
   */
  datatype State = State(h: Links, entries: Entries, values: map<Id, seq<Symbol>>, finalized: seq<Id>, taken: set<(Id, Id)>)

  ghost predicate Outside(s: State, s': State, t: seq<Id>) {
    LinksOutside(s.h, s'.h, t) && SameOutside(s.entries, s'.entries, t) && SameOutside(s.values, s'.values, t)
  }

  /** menu_finalize has not been called for the entries `t`. */
  ghost predicate Untouched(s: State, t: seq<Id>) {
    forall i {:trigger i in t} :: i in t ==> i in s.values && s.values[i] == [] && i !in s.finalized
  }

  /** menu_finalize may be called for the first entry of `f`. */
  ghost predicate Started(s: State, f: Forest, up: Option<Id>) {
    f.Node? && Chain(s.h, Some(f.id), f, up, None) && Distinct(PreOrder(f)) &&
    EntriesOk(s.entries, PreOrder(f)) && Untouched(s, PreOrder(f))
  }

  /**
   * It has been called for the first entry of `f`, which now is `g`: the entries `f1` at the front of
   * `f` have become that entry and its submenu, and the others are as they were.
   */
  ghost predicate Finished(s: State, s': State, f: Forest, g: Forest, f1: Forest, up: Option<Id>) {
    f.Node? && g.Node? && g.id == f.id && Chain(s'.h, Some(f.id), g, up, None) &&
    f == Append(f1, g.next) && PreOrder(f1) == [f.id] + PreOrder(g.list) &&
    Outside(s, s', PreOrder(f1)) && s'.finalized == s.finalized + PreOrder(f1) &&
    Done(s.entries, s'.entries, f1) && EntriesOk(s'.entries, PreOrder(f1)) &&
    (f.id in s.entries && IsChoice(s.entries[f.id]) ==>
      f.id in s'.values && s'.values[f.id] == ChoiceValues(s'.entries, g.list))
  }

  /**
   * A loop over the entries `l` from `start` has come to `menu`: of `l` the entries `l1` have been
   * finalised and form `a`, with parent `upA`; those of `b` are to come, with parent `upB`.
   */
  ghost predicate Walking(s0: State, s: State, start: Option<Id>, l: Forest, l1: Forest, a: Forest, b: Forest,
                          menu: Option<Id>, upA: Option<Id>, upB: Option<Id>) {
    Chain(s.h, start, a, upA, menu) && Chain(s.h, menu, b, upB, None) &&
    l == Append(l1, b) && Distinct(PreOrder(l)) && PreOrder(a) == PreOrder(l1) &&
    Outside(s0, s, PreOrder(l1)) && s.finalized == s0.finalized + PreOrder(l1) &&
    Done(s0.entries, s.entries, l1) && EntriesOk(s.entries, PreOrder(l)) && Untouched(s0, PreOrder(l))
  }

  lemma WalkingParts(s0: State, s: State, start: Option<Id>, l: Forest, l1: Forest, a: Forest, b: Forest,
                     menu: Option<Id>, upA: Option<Id>, upB: Option<Id>)
    requires Walking(s0, s, start, l, l1, a, b, menu, upA, upB)
    ensures PreOrder(l) == PreOrder(l1) + PreOrder(b) == PreOrder(a) + PreOrder(b)
    ensures Distinct(PreOrder(b)) && Distinct(PreOrder(l1)) && forall i :: i in PreOrder(l1) ==> i !in PreOrder(b)
    ensures b.Node? ==> menu == Some(b.id) && Started(s, b, upB)
    ensures b.Nil? ==> menu.None?
  {
    assert b.Node? ==> menu == Some(b.id);
    assert b.Nil? ==> menu.None?;
    hide PreOrder, Append, Chain, Distinct, Done, EntriesOk, Untouched, LinksOutside, SameOutside;
    AppendPreOrder(l1, b);
    DistinctParts(PreOrder(l1), PreOrder(b));
    UntouchedBehind(s0, s, PreOrder(l1), PreOrder(b));
    OkFront(s.entries, PreOrder(l1), PreOrder(b));
  }

  lemma UntouchedBehind(s0: State, s: State, t: seq<Id>, u: seq<Id>)
    requires Untouched(s0, t + u) && SameOutside(s0.values, s.values, t) && s.finalized == s0.finalized + t
    requires forall i :: i in t ==> i !in u
    ensures Untouched(s, u)
  {
    InEither(t, u);
  }

  lemma WalkStart(s: State, start: Option<Id>, l: Forest, upA: Option<Id>, upB: Option<Id>)
    requires Chain(s.h, start, l, upB, None) && Distinct(PreOrder(l))
    requires EntriesOk(s.entries, PreOrder(l)) && Untouched(s, PreOrder(l))
    ensures Walking(s, s, start, l, Nil, Nil, l, start, upA, upB)
  {
  }

  /** The parent of `m` is set. */
  function SetParent(s: State, m: Id, up: Option<Id>): State {
    s.(h := s.h.(parent := s.h.parent[m := up]))
  }

  /** `menu` has been finalised and its parent set; the walk goes on behind it. */
  lemma WalkStep(s0: State, s: State, s': State, start: Option<Id>, l: Forest, l1: Forest, a: Forest, b: Forest,
                 g: Forest, f1: Forest, upA: Option<Id>, upB: Option<Id>)
    requires b.Node? && Walking(s0, s, start, l, l1, a, b, Some(b.id), upA, upB)
    requires Finished(s, s', b, g, f1, upB)
    ensures b.id in s'.h.next
    ensures Walking(s0, SetParent(s', b.id, upA), start, l, Append(l1, f1), Append(a, Node(b.id, g.list, Nil)), g.next,
                    s'.h.next[b.id], upA, upB)
  {
    WalkingParts(s0, s, start, l, l1, a, b, Some(b.id), upA, upB);
    hide PreOrder, Append, Chain, Distinct, Done, EntriesOk, Untouched, LinksOutside, SameOutside, AllPushed, PushTop, PushEntry, ChoiceValues;
    StepOrders(l, l1, a, b, g, f1);
    StepDistinct(l, l1, b, g, f1);
    StepPointers(s.h, s'.h, start, a, g, PreOrder(f1), upA, upB);
    StepEntries(s0.entries, s.entries, s'.entries, l1, f1);
    StepRest(s.entries, s'.entries, PreOrder(l), PreOrder(f1));
    StepOutside(s0, s, s', l1, f1, b.id, upA);
    Regroup(s0.finalized, PreOrder(l1), PreOrder(f1));
    hide Finished, Outside;
  }

  /** Where the walk is after the step: the order of the entries is kept. */
  lemma StepOrders(l: Forest, l1: Forest, a: Forest, b: Forest, g: Forest, f1: Forest)
    requires b.Node? && g.Node? && g.id == b.id && l == Append(l1, b) && b == Append(f1, g.next)
    requires PreOrder(f1) == [b.id] + PreOrder(g.list) && PreOrder(a) == PreOrder(l1)
    ensures l == Append(Append(l1, f1), g.next)
    ensures PreOrder(Append(l1, f1)) == PreOrder(l1) + PreOrder(f1)
    ensures PreOrder(Append(a, Node(b.id, g.list, Nil))) == PreOrder(a) + PreOrder(f1)
  {
    AppendTwice(l1, f1, g.next);
    AppendPreOrder(l1, f1);
    AppendPreOrder(a, Node(b.id, g.list, Nil));
    hide Append;
    SinglePreOrder(b.id, g.list);
    hide PreOrder;
  }

  lemma SinglePreOrder(m: Id, l: Forest)
    ensures PreOrder(Node(m, l, Nil)) == [m] + PreOrder(l)
  {
  }

  lemma StepDistinct(l: Forest, l1: Forest, b: Forest, g: Forest, f1: Forest)
    requires b.Node? && g.Node? && g.id == b.id && l == Append(l1, b) && b == Append(f1, g.next)
    requires PreOrder(f1) == [b.id] + PreOrder(g.list) && Distinct(PreOrder(l))
    ensures b.id in PreOrder(f1) && b.id !in PreOrder(g.list) && b.id !in PreOrder(g.next)
    ensures forall i :: i in PreOrder(l1) ==> i !in PreOrder(f1)
  {
    AppendPreOrder(l1, b);
    AppendPreOrder(f1, g.next);
    hide *;
    DistinctSplit(PreOrder(l1), b.id, PreOrder(g.list), PreOrder(g.next));
  }

  lemma DistinctSplit(x: seq<Id>, m: Id, y: seq<Id>, z: seq<Id>)
    requires Distinct(x + ([m] + y + z))
    ensures m in [m] + y && m !in y && m !in z
    ensures (forall i :: i in y ==> i in [m] + y) && (forall i :: i in x ==> i !in [m] + y)
  {
    DistinctParts(x, [m] + y + z);
    DistinctParts([m] + y, z);
    DistinctParts([m], y);
    hide Distinct;
    assert m in [m];
  }

  lemma StepPointers(h: Links, h': Links, start: Option<Id>, a: Forest, g: Forest, t: seq<Id>, upA: Option<Id>, upB: Option<Id>)
    requires g.Node? && Chain(h, start, a, upA, Some(g.id)) && Chain(h', Some(g.id), g, upB, None) && LinksOutside(h, h', t)
    requires g.id in t && (forall i :: i in PreOrder(a) ==> i !in t) && g.id !in PreOrder(g.list) && g.id !in PreOrder(g.next)
    ensures g.id in h'.next && g.id in h'.parent
    ensures var h'' := h'.(parent := h'.parent[g.id := upA]);
            Chain(h'', start, Append(a, Node(g.id, g.list, Nil)), upA, h'.next[g.id]) && Chain(h'', h'.next[g.id], g.next, upB, None)
  {
    var m := g.id;
    var h'' := h'.(parent := h'.parent[m := upA]);
    assert LinksOutside(h, h'', t);
    OutsideAgrees(h, h'', t, PreOrder(a));
    ChainFrame(h, h'', start, a, upA, Some(m));
    assert Agree(h', h'', PreOrder(g.list)) && Agree(h', h'', PreOrder(g.next));
    ChainFrame(h', h'', h'.list[m], g.list, Some(m), None);
    ChainFrame(h', h'', h'.next[m], g.next, upB, None);
    assert Chain(h'', Some(m), Node(m, g.list, Nil), upA, h'.next[m]);
    ChainJoin(h'', start, a, Some(m), Node(m, g.list, Nil), upA, h'.next[m]);
  }

  lemma StepEntries(e0: Entries, e1: Entries, e2: Entries, l1: Forest, f1: Forest)
    requires Done(e0, e1, l1) && SameOutside(e0, e1, PreOrder(l1))
    requires Done(e1, e2, f1) && SameOutside(e1, e2, PreOrder(f1))
    requires forall i :: i in PreOrder(l1) ==> i !in PreOrder(f1)
    ensures Done(e0, e2, Append(l1, f1))
  {
    DoneFrame(e0, e1, e2, l1);
    DoneStart(e1, e0, e2, f1);
    DoneAppend(e0, e2, l1, f1);
  }

  lemma StepRest(e: Entries, e': Entries, s: seq<Id>, t: seq<Id>)
    requires EntriesOk(e, s) && EntriesOk(e', t) && SameOutside(e, e', t)
    ensures EntriesOk(e', s)
  {
    forall i | i in s ensures i in e' && EntryOk(e'[i]) {
      if i in t {
      } else {
        assert e'[i] == e[i];
      }
    }
  }

  lemma StepOutside(s0: State, s: State, s': State, l1: Forest, f1: Forest, m: Id, up: Option<Id>)
    requires Outside(s0, s, PreOrder(l1)) && Outside(s, s', PreOrder(f1)) && m in PreOrder(f1) && m in s'.h.parent
    requires PreOrder(Append(l1, f1)) == PreOrder(l1) + PreOrder(f1)
    ensures Outside(s0, SetParent(s', m, up), PreOrder(Append(l1, f1)))
  {
  }

  /** The entry that was finalised has the parent it had. */
  lemma ParentAlready(s: State, s': State, f: Forest, g: Forest, f1: Forest, up: Option<Id>)
    requires Finished(s, s', f, g, f1, up)
    ensures SetParent(s', f.id, up) == s' && |PreOrder(g.next)| < |PreOrder(f)|
  {
    assert s'.h.parent[f.id := up] == s'.h.parent;
    AppendPreOrder(f1, g.next);
  }

  lemma WalkEnd(s0: State, s: State, start: Option<Id>, l: Forest, l1: Forest, a: Forest, b: Forest,
                upA: Option<Id>, upB: Option<Id>, p: Id)
    requires Walking(s0, s, start, l, l1, a, b, None, upA, upB) && p in s0.h.list && p !in PreOrder(l)
    ensures l1 == l && b == Nil && Outside(s0, s, PreOrder(l)) && p in s.h.list && s.h.list[p] == s0.h.list[p]
    ensures Chain(s.h, start, a, upA, None) && PreOrder(a) == PreOrder(l)
    ensures s.finalized == s0.finalized + PreOrder(l) && Done(s0.entries, s.entries, l) && EntriesOk(s.entries, PreOrder(l))
  {
    assert b == Nil;
    AppendTwice(l1, Nil, Nil);
  }

  lemma WalkingEntry(s0: State, s: State, start: Option<Id>, l: Forest, l1: Forest, a: Forest, b: Forest,
                     menu: Option<Id>, upA: Option<Id>, upB: Option<Id>)
    requires Walking(s0, s, start, l, l1, a, b, menu, upA, upB) && b.Node?
    ensures b.id in s.entries && b.id in s0.entries && EntryOk(s.entries[b.id]) && s.entries[b.id] == s0.entries[b.id]
    ensures |PreOrder(b)| <= |PreOrder(l)|
  {
    WalkingParts(s0, s, start, l, l1, a, b, menu, upA, upB);
    InPreOrder(b);
    EntriesOkParts(s.entries, b);
  }

  lemma FinishedNext(s: State, s': State, f: Forest, g: Forest, f1: Forest, up: Option<Id>)
    requires Finished(s, s', f, g, f1, up)
    ensures g.Node? && g.id == f.id && f.id in s'.h.next && f.id in s'.h.parent && |PreOrder(g.next)| < |PreOrder(f)|
  {
    AppendPreOrder(f1, g.next);
  }

  lemma {:induction false} LastAppended(a: Forest, m: Id, l: Forest)
    ensures Append(a, Node(m, l, Nil)).Node? && Last(Append(a, Node(m, l, Nil))) == m
  {
    if a.Node? {
      LastAppended(a.next, m, l);
    }
  }

  /** The pointers after the entries `a` behind `p` have been made its list. */
  function Spliced(h: Links, p: Id, last: Id): Links
    requires p in h.next && last in h.next
  {
    Links(h.next[p := h.next[last]][last := None], h.list[p := h.next[p]], h.parent)
  }

  lemma WalkedParts(s0: State, s: State, n: Forest, l1: Forest, a: Forest, b: Forest, menu: Option<Id>, up: Option<Id>, p: Id)
    requires p in s0.h.next && p !in PreOrder(n) && Walking(s0, s, s0.h.next[p], n, l1, a, b, menu, Some(p), up)
    ensures WalkedOver(s0, s, n, l1, a, b, p) && p !in PreOrder(b) && p !in PreOrder(a)
    ensures forall i :: i in PreOrder(a) ==> i !in PreOrder(b)
    ensures a.Nil? ==> Chain(s.h, s0.h.next[p], b, up, None) && Chain(s.h, None, a, Some(p), None)
    ensures PreOrder(a) == PreOrder(l1) && Distinct(PreOrder(a))
  {
    WalkingParts(s0, s, s0.h.next[p], n, l1, a, b, menu, Some(p), up);
    InEither(PreOrder(l1), PreOrder(b));
    OkFront(s.entries, PreOrder(l1), PreOrder(b));
    assert a.Nil? ==> s0.h.next[p] == menu;
    hide PreOrder, Append, Chain, Distinct, Done, EntriesOk, Untouched, LinksOutside, SameOutside, AllPushed, PushTop, PushEntry, ChoiceValues;
    if a.Nil? {
      EmptyChain(s.h, None, Some(p));
    }
  }

  lemma OkFront(e: Entries, x: seq<Id>, y: seq<Id>)
    requires EntriesOk(e, x + y)
    ensures EntriesOk(e, x) && EntriesOk(e, y)
  {
    InEither(x, y);
  }

  lemma EmptyChain(h: Links, p: Option<Id>, up: Option<Id>)
    ensures Chain(h, p, Nil, up, p)
  {
  }

  lemma InEither(x: seq<Id>, y: seq<Id>)
    ensures forall i :: i in x ==> i in x + y
    ensures forall i :: i in y ==> i in x + y
  {
  }

  lemma SameAt(h: Links, h': Links, t: seq<Id>, p: Id)
    requires LinksOutside(h, h', t) && p !in t
    ensures p in h.next ==> p in h'.next && h'.next[p] == h.next[p]
    ensures p in h.list ==> p in h'.list && h'.list[p] == h.list[p]
    ensures p in h.parent ==> p in h'.parent && h'.parent[p] == h.parent[p]
  {
  }

  /** What the walk over the entries behind `p` leaves, and what taking them in makes of it. */
  lemma WalkingSplice(s0: State, s: State, n: Forest, l1: Forest, a: Forest, b: Forest, menu: Option<Id>, up: Option<Id>, p: Id)
    requires p in s0.h.next && p in s0.h.list && s0.h.list[p].None? && p !in PreOrder(n)
    requires Walking(s0, s, s0.h.next[p], n, l1, a, b, menu, Some(p), up)
    ensures WalkedOver(s0, s, n, l1, a, b, p)
    ensures p in s.h.next && p in s.h.list && s.h.next[p] == s0.h.next[p] && s.h.list[p].None?
    ensures if a.Nil? then Chain(s.h, s.h.list[p], a, Some(p), None) && Chain(s.h, s.h.next[p], b, up, None)
            else SplicedOk(s0.h, s.h, l1, a, b, up, p)
  {
    WalkedParts(s0, s, n, l1, a, b, menu, up, p);
    SameAt(s0.h, s.h, PreOrder(l1), p);
    hide PreOrder, Append, Chain, Distinct, Done, EntriesOk, Untouched, LinksOutside, SameOutside, AllPushed, PushTop, PushEntry, ChoiceValues;
    if a.Node? {
      SplicePointers(s0.h, s.h, l1, a, b, menu, up, p);
    }
  }

  /** The entries `l1` at the front of `n` have been finalised and now form `a`. */
  ghost predicate WalkedOver(s0: State, s: State, n: Forest, l1: Forest, a: Forest, b: Forest, p: Id) {
    n == Append(l1, b) && PreOrder(a) == PreOrder(l1) && p !in PreOrder(l1) && Outside(s0, s, PreOrder(l1)) &&
    s.finalized == s0.finalized + PreOrder(l1) && Done(s0.entries, s.entries, l1) && EntriesOk(s.entries, PreOrder(l1)) &&
    Distinct(PreOrder(a))
  }

  ghost predicate SplicedOk(h0: Links, h: Links, l1: Forest, a: Forest, b: Forest, up: Option<Id>, p: Id)
    requires p in h.next
  {
    a.Node? && Last(a) in h.next && Last(a) != p &&
    var h' := Spliced(h, p, Last(a));
    Chain(h', h.next[p], a, Some(p), None) && Chain(h', h.next[Last(a)], b, up, None) &&
    LinksOutside(h0, h', [p] + PreOrder(l1))
  }

  lemma SplicePointers(h0: Links, h: Links, l1: Forest, a: Forest, b: Forest, menu: Option<Id>, up: Option<Id>, p: Id)
    requires a.Node? && p in h.next && p in h.list && p !in PreOrder(a) && p !in PreOrder(b) && Distinct(PreOrder(a))
    requires Chain(h, h.next[p], a, Some(p), menu) && Chain(h, menu, b, up, None)
    requires LinksOutside(h0, h, PreOrder(l1)) && PreOrder(a) == PreOrder(l1) && forall i :: i in PreOrder(a) ==> i !in PreOrder(b)
    ensures SplicedOk(h0, h, l1, a, b, up, p)
  {
    hide Chain, PreOrder, Distinct, Last, LinksOutside, Agree;
    LastIsTop(a);
    var last := Last(a);
    ChainRedirect(h, h.next[p], a, Some(p), menu, None);
    var h1 := h.(next := h.next[last := None]);
    var h' := Spliced(h, p, last);
    SplicedAgrees(h, p, last, PreOrder(a), PreOrder(b));
    ChainFrame(h1, h', h.next[p], a, Some(p), None);
    ChainFrame(h, h', menu, b, up, None);
    SplicedOutside(h0, h, p, last, PreOrder(l1));
  }

  lemma SplicedAgrees(h: Links, p: Id, last: Id, a: seq<Id>, b: seq<Id>)
    requires p in h.next && last in h.next && p !in a && p !in b && last !in b
    ensures Agree(h.(next := h.next[last := None]), Spliced(h, p, last), a) && Agree(h, Spliced(h, p, last), b)
  {
  }

  lemma SplicedOutside(h0: Links, h: Links, p: Id, last: Id, s: seq<Id>)
    requires p in h.next && p in h.list && last in h.next && LinksOutside(h0, h, s) && last in s
    ensures LinksOutside(h0, Spliced(h, p, last), [p] + s)
  {
    assert p in [p] + s && forall i :: i in s ==> i in [p] + s;
  }

  // ----- Moving a list up a level -----

  /** The top entry `y` of the list `l` of `m` has got the parent `p`. */
  lemma HoistStep(h: Links, start: Option<Id>, l: Forest, x: Forest, y: Forest, m: Id, p: Id, n: Forest, after: Option<Id>)
    requires y.Node? && l == Append(x, y) && Distinct(PreOrder(l)) && y.id in h.parent && y.id !in PreOrder(n)
    requires Chain(h, start, x, Some(p), Some(y.id)) && Chain(h, Some(y.id), y, Some(m), None) && Chain(h, after, n, Some(p), None)
    ensures var h' := h.(parent := h.parent[y.id := Some(p)]);
            Chain(h', start, Append(x, Node(y.id, y.list, Nil)), Some(p), h.next[y.id]) &&
            Chain(h', h.next[y.id], y.next, Some(m), None) && Chain(h', after, n, Some(p), None)
    ensures l == Append(Append(x, Node(y.id, y.list, Nil)), y.next) && y.id in PreOrder(l)
  {
    AppendPreOrder(x, y);
    AppendTwice(x, Node(y.id, y.list, Nil), y.next);
    DistinctParts(PreOrder(x), PreOrder(y));
    DistinctNode(y);
    InPreOrder(y);
    hide Distinct, PreOrder, Append;
    assert forall i :: i in PreOrder(y) ==> i !in PreOrder(x);
    assert y.id in [y.id];
    StepPointers(h, h, start, x, y, [y.id], Some(p), Some(m));
    assert Agree(h, h.(parent := h.parent[y.id := Some(p)]), PreOrder(n));
    ChainFrame(h, h.(parent := h.parent[y.id := Some(p)]), after, n, Some(p), None);
  }

  /** The pointers after the list of `m`, ending in `last`, has been put behind `m`. */
  function Hoisted(h: Links, m: Id, last: Id): Links
    requires m in h.next && m in h.list
  {
    Links(h.next[last := h.next[m]][m := h.list[m]], h.list[m := None], h.parent)
  }

  lemma HoistEnd(h: Links, m: Id, p: Id, l: Forest, n: Forest)
    requires m in h.next && m in h.list && m in h.parent && h.parent[m] == Some(p) && l.Node?
    requires Distinct(PreOrder(Node(m, l, n)))
    requires Chain(h, h.list[m], l, Some(p), None) && Chain(h, h.next[m], n, Some(p), None)
    ensures Chain(Hoisted(h, m, Last(l)), Some(m), Node(m, Nil, Append(l, n)), Some(p), None)
    ensures Last(l) in PreOrder(l) && Last(l) in h.next
  {
    DistinctNode(Node(m, l, n));
    LastIsTop(l);
    ChainRedirect(h, h.list[m], l, Some(p), None, h.next[m]);
    AppendPreOrder(l, n);
    var h1 := h.(next := h.next[Last(l) := h.next[m]]);
    var h2 := Hoisted(h, m, Last(l));
    hide Distinct, PreOrder, Last;
    assert Agree(h, h1, PreOrder(n));
    ChainFrame(h, h1, h.next[m], n, Some(p), None);
    ChainJoin(h1, h.list[m], l, h.next[m], n, Some(p), None);
    assert Agree(h1, h2, PreOrder(Append(l, n)));
    ChainFrame(h1, h2, h.list[m], Append(l, n), Some(p), None);
  }

  lemma HoistOrder(m: Id, l: Forest, n: Forest)
    ensures PreOrder(Node(m, Nil, Append(l, n))) == PreOrder(Node(m, l, n))
  {
    AppendPreOrder(l, n);
  }

  // ----- The loops that take in and move up, step by step -----

  /** The entries `l1` at the front of `n` have been finalised and now form the list `a` of `p`. */
  ghost predicate TakenOver(s0: State, s: State, n: Forest, l1: Forest, a: Forest, b: Forest, p: Id) {
    n == Append(l1, b) && PreOrder(a) == PreOrder(l1) && p !in PreOrder(l1) &&
    LinksOutside(s0.h, s.h, [p] + PreOrder(l1)) && SameOutside(s0.h.parent, s.h.parent, PreOrder(l1)) &&
    SameOutside(s0.entries, s.entries, PreOrder(l1)) && SameOutside(s0.values, s.values, PreOrder(l1)) &&
    s.finalized == s0.finalized + PreOrder(l1) && Done(s0.entries, s.entries, l1) && EntriesOk(s.entries, PreOrder(l1)) &&
    Distinct(PreOrder(a))
  }

  lemma TakenNone(s0: State, s: State, n: Forest, l1: Forest, a: Forest, b: Forest, p: Id)
    requires WalkedOver(s0, s, n, l1, a, b, p)
    ensures TakenOver(s0, s, n, l1, a, b, p)
  {
    InEither([p], PreOrder(l1));
  }

  lemma TakenSome(s0: State, s: State, s': State, n: Forest, l1: Forest, a: Forest, b: Forest, up: Option<Id>, p: Id)
    requires WalkedOver(s0, s, n, l1, a, b, p) && p in s.h.next && SplicedOk(s0.h, s.h, l1, a, b, up, p)
    requires s' == s.(h := Spliced(s.h, p, Last(a)))
    ensures TakenOver(s0, s', n, l1, a, b, p)
  {
  }

  /** Of the list `a` of `p` the entries `x` are in their final place and those of `b`, from `menu` on, are to come. */
  ghost predicate Hoisting(h0: Links, h: Links, start: Option<Id>, a: Forest, x: Forest, b: Forest, menu: Option<Id>, p: Id) {
    Chain(h, start, x, Some(p), menu) && Chain(h, menu, b, Some(p), None) && PreOrder(x) + PreOrder(b) == PreOrder(a) &&
    LinksOutside(h0, h, PreOrder(a)) && Distinct(PreOrder(a)) && p !in PreOrder(a)
  }

  lemma HoistStart(h: Links, menu: Option<Id>, a: Forest, p: Id)
    requires Chain(h, menu, a, Some(p), None) && Distinct(PreOrder(a)) && p !in PreOrder(a)
    ensures Hoisting(h, h, menu, a, Nil, a, menu, p)
  {
  }

  lemma HoistingParts(h0: Links, h: Links, start: Option<Id>, a: Forest, x: Forest, b: Forest, menu: Option<Id>, p: Id)
    requires Hoisting(h0, h, start, a, x, b, menu, p) && menu.Some?
    ensures b.Node? && menu == Some(b.id) && b.id in PreOrder(a) && b.id != p && Distinct(PreOrder(b))
    ensures b.id in h.next && b.id in h.list && (h.list[b.id].Some? ==> b.list.Node?)
    ensures Chain(h, Some(b.id), b, Some(p), None)
  {
    hide Chain, PreOrder, Distinct, LinksOutside;
    ChainHead(h, menu, b, Some(p));
    InPreOrder(b);
    InEither(PreOrder(x), PreOrder(b));
    DistinctParts(PreOrder(x), PreOrder(b));
  }

  lemma ChainHead(h: Links, menu: Option<Id>, b: Forest, up: Option<Id>)
    requires menu.Some? && Chain(h, menu, b, up, None)
    ensures b.Node? && menu == Some(b.id) && b.id in h.next && b.id in h.list && b.id in h.parent && h.parent[b.id] == up
    ensures h.list[b.id].Some? <==> b.list.Node?
  {
    assert Chain(h, h.list[b.id], b.list, Some(b.id), None);
  }

  lemma EntriesAt(e: Entries, s: seq<Id>, m: Id)
    requires EntriesOk(e, s) && m in s
    ensures m in e && EntryOk(e[m])
  {
  }

  lemma OutsideRefl(h: Links, s: seq<Id>)
    ensures LinksOutside(h, h, s)
  {
  }

  function Added(e: Entries, m: Id): seq<Symbol>
    requires m in e
  {
    if e[m].sym.Some? then [e[m].sym.value] else []
  }

  lemma ChoiceValuesSame(e: Entries, x: Forest, m: Id, l: Forest)
    requires m in e
    ensures ChoiceValues(e, Append(x, Node(m, l, Nil))) ==
            Added(e, m) + ChoiceValues(e, x)
  {
    ChoiceValuesAppend(e, x, Node(m, l, Nil));
  }

  /** The entry at the front of `b` has been dealt with, and perhaps its list moved up. */
  lemma HoistingStep(h0: Links, h1: Links, h2: Links, start: Option<Id>, a: Forest, x: Forest, b: Forest, b': Forest, p: Id)
    requires b.Node? && Hoisting(h0, h1, start, a, x, b, Some(b.id), p)
    requires b' == b || b' == Node(b.id, Nil, Append(b.list, b.next))
    requires Chain(h2, Some(b.id), b', Some(p), None) && LinksOutside(h1, h2, PreOrder(b))
    ensures b.id in h2.next && |PreOrder(b'.next)| < |PreOrder(b)| && (p in h0.list ==> p in h2.list && h2.list[p] == h0.list[p])
    ensures Hoisting(h0, h2, start, a, Append(x, Node(b.id, b'.list, Nil)), b'.next, h2.next[b.id], p)
  {
    var m := b.id;
    HoistOrder(m, b.list, b.next);
    assert PreOrder(b') == PreOrder(b);
    hide PreOrder, Distinct, Append, LinksOutside, Agree;
    DistinctParts(PreOrder(x), PreOrder(b));
    InEither(PreOrder(x), PreOrder(b));
    OrderMoves(x, b');
    LinksTwice(h0, h1, h2, PreOrder(a), PreOrder(b), PreOrder(a));
    SameAt(h0, h2, PreOrder(a), p);
    OutsideAgrees(h1, h2, PreOrder(b), PreOrder(x));
    ChainFrame(h1, h2, start, x, Some(p), Some(m));
    assert Chain(h2, Some(m), Node(m, b'.list, Nil), Some(p), h2.next[m]);
    ChainJoin(h2, start, x, Some(m), Node(m, b'.list, Nil), Some(p), h2.next[m]);
  }

  lemma OrderMoves(x: Forest, b: Forest)
    requires b.Node?
    ensures PreOrder(Append(x, Node(b.id, b.list, Nil))) + PreOrder(b.next) == PreOrder(x) + PreOrder(b)
    ensures |PreOrder(b.next)| < |PreOrder(b)|
  {
    AppendPreOrder(x, Node(b.id, b.list, Nil));
    SinglePreOrder(b.id, b.list);
    assert PreOrder(b) == [b.id] + PreOrder(b.list) + PreOrder(b.next);
    hide *;
    Regroup(PreOrder(x), [b.id] + PreOrder(b.list), PreOrder(b.next));
  }

  lemma Regroup(x: seq<Id>, y: seq<Id>, z: seq<Id>)
    ensures (x + y) + z == x + (y + z)
  {
  }

  lemma HoistingDone(h0: Links, h: Links, start: Option<Id>, a: Forest, x: Forest, b: Forest, p: Id)
    requires Hoisting(h0, h, start, a, x, b, None, p)
    ensures Chain(h, start, x, Some(p), None) && PreOrder(x) == PreOrder(a) && LinksOutside(h0, h, PreOrder(a))
  {
    assert b.Nil?;
    assert PreOrder(x) + [] == PreOrder(x);
  }

  /** The entries `x` of the list of `b` have got the parent `p`, those of `y`, from `last` on, are to get it. */
  ghost predicate HoistLoop(h0: Links, h: Links, b: Forest, x: Forest, y: Forest, last: Id, p: Id) {
    b.Node? && y.Node? && y.id == last && b.list == Append(x, y) && Distinct(PreOrder(b)) && HoistFrame(h0, h, b, p) &&
    Chain(h, h.list[b.id], x, Some(p), Some(last)) && Chain(h, Some(last), y, Some(b.id), None)
  }

  ghost predicate HoistFrame(h0: Links, h: Links, b: Forest, p: Id)
    requires b.Node?
  {
    b.id in h0.next && b.id in h0.list && b.id in h.next && b.id in h.list && b.id in h.parent &&
    h.next[b.id] == h0.next[b.id] && h.list[b.id] == h0.list[b.id] && h.parent[b.id] == Some(p) &&
    Chain(h, h.next[b.id], b.next, Some(p), None) && LinksOutside(h0, h, PreOrder(b.list))
  }

  lemma HoistParts(h: Links, b: Forest, p: Id)
    requires b.Node? && b.list.Node? && Distinct(PreOrder(b)) && Chain(h, Some(b.id), b, Some(p), None)
    ensures b.id in h.list && h.list[b.id].Some? && HoistLoop(h, h, b, Nil, b.list, h.list[b.id].value, p)
  {
  }

  lemma HoistLoopParts(h0: Links, h: Links, b: Forest, x: Forest, y: Forest, last: Id, p: Id)
    requires HoistLoop(h0, h, b, x, y, last, p)
    ensures y.Node? && b.Node? && b.id in h.next && b.id in h.list && last in h.next && last in h.parent && b.id in h.parent
    ensures h.parent[last] == Some(b.id) && h.parent[b.id] == Some(p)
  {
  }

  /** All of the list of `b` has the parent `p`. */
  ghost predicate HoistReady(h0: Links, h: Links, b: Forest, last: Id, p: Id) {
    b.Node? && b.list.Node? && Last(b.list) == last && Distinct(PreOrder(b)) && HoistFrame(h0, h, b, p) &&
    Chain(h, h.list[b.id], b.list, Some(p), None)
  }

  lemma HoistLoopStep(h0: Links, h: Links, b: Forest, x: Forest, y: Forest, last: Id, p: Id)
    requires HoistLoop(h0, h, b, x, y, last, p)
    ensures last in h.next && |PreOrder(y.next)| < |PreOrder(y)|
    ensures var h' := h.(parent := h.parent[last := Some(p)]);
            if h.next[last].None? then HoistReady(h0, h', b, last, p)
            else HoistLoop(h0, h', b, Append(x, Node(last, y.list, Nil)), y.next, h.next[last].value, p)
  {
    var h' := h.(parent := h.parent[last := Some(p)]);
    HoistLoopOrder(b, x, y);
    assert Chain(h, h.next[last], y.next, Some(b.id), None);
    hide Chain, PreOrder, Distinct, Append, LinksOutside, Last;
    ChainHead(h, Some(last), y, Some(b.id));
    NilChain(h, y, Some(b.id));
    SetInside(h0, h, PreOrder(b.list), last, Some(p));
    HoistStep(h, h.list[b.id], b.list, x, y, b.id, p, b.next, h.next[b.id]);
    assert HoistFrame(h0, h', b, p);
    if h.next[last].None? {
      LastAppended(x, last, y.list);
      AppendTwice(Append(x, Node(last, y.list, Nil)), Nil, Nil);
    } else {
      ChainHead(h', h.next[last], y.next, Some(b.id));
    }
  }

  lemma SetInside(h0: Links, h: Links, t: seq<Id>, m: Id, up: Option<Id>)
    requires LinksOutside(h0, h, t) && m in t && m in h.parent
    ensures LinksOutside(h0, h.(parent := h.parent[m := up]), t)
  {
  }

  lemma NilChain(h: Links, y: Forest, up: Option<Id>)
    requires y.Node? && y.id in h.next && Chain(h, h.next[y.id], y.next, up, None)
    ensures h.next[y.id].None? <==> y.next.Nil?
  {
  }

  lemma HoistLoopOrder(b: Forest, x: Forest, y: Forest)
    requires b.Node? && y.Node? && b.list == Append(x, y) && Distinct(PreOrder(b))
    ensures Distinct(PreOrder(b.list)) && y.id in PreOrder(b.list) && y.id !in PreOrder(b.next) && y.id != b.id
    ensures |PreOrder(y.next)| < |PreOrder(y)|
  {
    DistinctNode(b);
    AppendPreOrder(x, y);
    InPreOrder(y);
    OrderMoves(Nil, y);
    hide *;
    InEither(PreOrder(x), PreOrder(y));
  }

  lemma HoistLoopEnd(h0: Links, h: Links, b: Forest, last: Id, p: Id)
    requires HoistReady(h0, h, b, last, p)
    ensures b.id in h.next && b.id in h.list
    ensures Chain(Hoisted(h, b.id, last), Some(b.id), Node(b.id, Nil, Append(b.list, b.next)), Some(p), None)
    ensures LinksOutside(h0, Hoisted(h, b.id, last), PreOrder(b))
  {
    hide Chain, PreOrder, Distinct, Append, LinksOutside, Last;
    assert b == Node(b.id, b.list, b.next);
    HoistEnd(h, b.id, p, b.list, b.next);
    InPreOrder(b);
    HoistedInside(h0, h, b.id, last, PreOrder(b.list), PreOrder(b));
  }

  lemma HoistedInside(h0: Links, h: Links, m: Id, last: Id, t: seq<Id>, u: seq<Id>)
    requires LinksOutside(h0, h, t) && m in h.next && m in h.list && last in t && last in h.next && m in u
    requires forall i :: i in t ==> i in u
    ensures LinksOutside(h0, Hoisted(h, m, last), u)
  {
  }

  // ----- One call of menu_finalize put together -----

  /** The list `a` of `p` has been rearranged to `a'`. */
  ghost predicate ListHoisted(s: State, s': State, p: Id, a: Forest, a': Forest) {
    p in s.entries && p in s'.h.list && Chain(s'.h, s'.h.list[p], a', Some(p), None) && PreOrder(a') == PreOrder(a) &&
    LinksOutside(s.h, s'.h, PreOrder(a)) && s'.entries == s.entries && s'.finalized == s.finalized &&
    s'.values == if IsChoice(s.entries[p]) then s.values[p := ChoiceValues(s.entries, a')] else s.values
  }

  /** The call has been recorded. */
  function Logged(s: State, p: Id): State {
    s.(finalized := s.finalized + [p])
  }

  /** For an entry with a list: `s1` after the conditions were pushed, `s2` after the children were finalised. */
  lemma FinishList(s0: State, s1: State, s2: State, s3: State, f: Forest, a: Forest, a': Forest, up: Option<Id>)
    requires Started(s0, f, up) && f.id in s0.entries && EntryOk(s0.entries[f.id])
    requires s1 == Logged(s0, f.id).(entries := PushTop(s0.entries, f.list, ParentDep(s0.entries[f.id])))
    requires Outside(s1, s2, PreOrder(f.list)) && PreOrder(a) == PreOrder(f.list)
    requires s2.finalized == s1.finalized + PreOrder(f.list)
    requires Done(s1.entries, s2.entries, f.list) && EntriesOk(s2.entries, PreOrder(f.list))
    requires ListHoisted(s2, s3, f.id, a, a')
    ensures Finished(s0, s3, f, Node(f.id, a', f.next), Node(f.id, f.list, Nil), up)
  {
    hide PreOrder, Append, Chain, Distinct, Done, EntriesOk, Untouched, LinksOutside, SameOutside, AllPushed, PushTop, PushEntry, ChoiceValues;
    ListPointers(s0, s2.h, s3.h, f, a', up);
    ListEntries(s0.entries, s1.entries, s2.entries, f, up, s0);
    ListOutside(s0, s1, s2, s3, f, a, a', up);
    SinglePreOrder(f.id, f.list);
    Regroup(s0.finalized, [f.id], PreOrder(f.list));
    FrontOf(f);
  }

  lemma FrontOf(f: Forest)
    requires f.Node?
    ensures f == Append(Node(f.id, f.list, Nil), f.next)
  {
  }

  lemma ListPointers(s0: State, h2: Links, h3: Links, f: Forest, a': Forest, up: Option<Id>)
    requires Started(s0, f, up) && LinksOutside(s0.h, h2, PreOrder(f.list)) && LinksOutside(h2, h3, PreOrder(f.list))
    requires f.id in h3.list && Chain(h3, h3.list[f.id], a', Some(f.id), None)
    ensures Chain(h3, Some(f.id), Node(f.id, a', f.next), up, None)
  {
    DistinctNode(f);
    hide Distinct, PreOrder, Untouched;
    assert LinksOutside(s0.h, h3, PreOrder(f.list));
    OutsideAgrees(s0.h, h3, PreOrder(f.list), PreOrder(f.next));
    ChainFrame(s0.h, h3, s0.h.next[f.id], f.next, up, None);
  }

  lemma ListEntries(e0: Entries, e1: Entries, e2: Entries, f: Forest, up: Option<Id>, s0: State)
    requires Started(s0, f, up) && s0.entries == e0 && f.id in e0 && EntryOk(e0[f.id])
    requires e1 == PushTop(e0, f.list, ParentDep(e0[f.id])) && SameOutside(e1, e2, PreOrder(f.list))
    requires Done(e1, e2, f.list) && EntriesOk(e2, PreOrder(f.list))
    ensures Done(e0, e2, Node(f.id, f.list, Nil)) && EntriesOk(e2, PreOrder(Node(f.id, f.list, Nil)))
    ensures SameOutside(e0, e2, PreOrder(f.list))
  {
    DistinctNode(f);
    EntriesOkParts(e0, f);
    hide PreOrder, Append, Chain, Distinct, EntriesOk, Untouched, SameOutside, AllPushed, PushTop, PushEntry, TopPushed;
    TopIsPushed(e0, f.list, ParentDep(e0[f.id]));
    PushedBelow(e0, e1, e2, f.list, ParentDep(e0[f.id]));
    PushedOutside(e0, f.list, ParentDep(e0[f.id]));
    InEither([], PreOrder(f.list));
    SameTwice(e0, e1, e2, PreOrder(f.list), PreOrder(f.list), PreOrder(f.list));
    EntrySame(e0, e2, PreOrder(f.list), f.id);
    SinglePreOrder(f.id, f.list);
    EntriesOkNode(e2, f.id, PreOrder(f.list));
  }

  lemma EntrySame<T>(m: map<Id, T>, m': map<Id, T>, t: seq<Id>, p: Id)
    requires SameOutside(m, m', t) && p !in t && p in m
    ensures p in m' && m'[p] == m[p]
  {
  }

  lemma TopIsPushed(e: Entries, l: Forest, parentdep: Option<Expr>)
    requires EntriesOk(e, PreOrder(l))
    ensures TopPushed(e, PushTop(e, l, parentdep), l, parentdep)
  {
    hide PushEntry, PreOrder;
    TopInside(l);
  }

  lemma EntriesOkNode(e: Entries, m: Id, s: seq<Id>)
    requires m in e && EntryOk(e[m]) && EntriesOk(e, s)
    ensures EntriesOk(e, [m] + s)
  {
  }

  lemma ListOutside(s0: State, s1: State, s2: State, s3: State, f: Forest, a: Forest, a': Forest, up: Option<Id>)
    requires Started(s0, f, up) && f.id in s0.entries && EntryOk(s0.entries[f.id])
    requires s1 == Logged(s0, f.id).(entries := PushTop(s0.entries, f.list, ParentDep(s0.entries[f.id])))
    requires Outside(s1, s2, PreOrder(f.list)) && PreOrder(a) == PreOrder(f.list) && ListHoisted(s2, s3, f.id, a, a')
    ensures Outside(s0, s3, PreOrder(Node(f.id, f.list, Nil)))
    ensures f.id in s2.entries && s0.entries[f.id] == s2.entries[f.id] && f.id in s2.values
  {
    var t := PreOrder(f.list);
    DistinctNode(f);
    HasValues(s0, f, up);
    PushedOutside(s0.entries, f.list, ParentDep(s0.entries[f.id]));
    hide PreOrder, Append, Chain, Distinct, Done, EntriesOk, Untouched, LinksOutside, SameOutside, AllPushed, PushTop, PushEntry, ChoiceValues;
    SinglePreOrder(f.id, f.list);
    InEither([f.id], t);
    assert f.id in [f.id];
    var u := [f.id] + t;
    LinksTwice(s0.h, s2.h, s3.h, t, t, u);
    SameTwice(s0.entries, s1.entries, s2.entries, t, t, u);
    EntrySame(s0.entries, s1.entries, t, f.id);
    EntrySame(s1.entries, s2.entries, t, f.id);
    ValuesTwice(s0.values, s2.values, s3.values, t, f.id, u);
  }

  lemma SameMore<T>(m: map<Id, T>, m': map<Id, T>, t: seq<Id>, u: seq<Id>)
    requires SameOutside(m, m', t) && forall i :: i in t ==> i in u
    ensures SameOutside(m, m', u)
  {
  }

  lemma PushedOutside(e: Entries, f: Forest, parentdep: Option<Expr>)
    ensures SameOutside(e, PushTop(e, f, parentdep), PreOrder(f))
  {
    TopInside(f);
    hide PushEntry, PreOrder;
  }

  lemma ValuesTwice<T>(a: map<Id, T>, b: map<Id, T>, c: map<Id, T>, t: seq<Id>, p: Id, u: seq<Id>)
    requires SameOutside(a, b, t) && p in a && (c == b || (p in c && c == b[p := c[p]])) && p in u && forall i :: i in t ==> i in u
    ensures p in b && SameOutside(a, c, u)
  {
  }

  lemma HasValues(s: State, f: Forest, up: Option<Id>)
    requires Started(s, f, up)
    ensures f.id in s.values && s.values[f.id] == []
  {
    InPreOrder(f);
  }

  /** For an entry that takes the entries `l1` in. */
  lemma FinishTaken(s0: State, s1: State, s2: State, f: Forest, l1: Forest, a: Forest, a': Forest, b: Forest, up: Option<Id>)
    requires Started(s0, f, up) && f.list.Nil? && f.id in s0.entries && EntryOk(s0.entries[f.id])
    requires TakenOver(Logged(s0, f.id), s1, f.next, l1, a, b, f.id)
    requires f.id in s1.h.next && Chain(s1.h, s1.h.next[f.id], b, up, None)
    requires ListHoisted(s1, s2, f.id, a, a')
    ensures Finished(s0, s2, f, Node(f.id, a', b), Node(f.id, Nil, l1), up)
  {
    TakenFront(f, l1, b);
    hide PreOrder, Append, Chain, Distinct, Done, EntriesOk, Untouched, LinksOutside, SameOutside, AllPushed, PushTop, PushEntry, ChoiceValues;
    TakenPointers(s0, s1.h, s2.h, f, l1, a', b, up);
    TakenEntries(s0, s1, f, l1, a, b, up);
    TakenOutside(s0, s1, s2, f, l1, a, a', b, up);
    Regroup(s0.finalized, [f.id], PreOrder(l1));
  }

  lemma BarePreOrder(m: Id, n: Forest)
    ensures PreOrder(Node(m, Nil, n)) == [m] + PreOrder(n)
  {
  }

  lemma TakenFront(f: Forest, l1: Forest, b: Forest)
    requires f.Node? && f.list.Nil? && f.next == Append(l1, b)
    ensures f == Append(Node(f.id, Nil, l1), b) && PreOrder(Node(f.id, Nil, l1)) == [f.id] + PreOrder(l1)
  {
  }

  lemma TakenPointers(s0: State, h1: Links, h2: Links, f: Forest, l1: Forest, a': Forest, b: Forest, up: Option<Id>)
    requires Started(s0, f, up) && f.next == Append(l1, b) && f.id in h1.next && Chain(h1, h1.next[f.id], b, up, None)
    requires SameOutside(s0.h.parent, h1.parent, PreOrder(l1)) && LinksOutside(h1, h2, PreOrder(l1))
    requires f.id in h2.list && Chain(h2, h2.list[f.id], a', Some(f.id), None)
    ensures Chain(h2, Some(f.id), Node(f.id, a', b), up, None)
  {
    hide *;
    StartedOrder(s0, f, up);
    ChainHead(s0.h, Some(f.id), f, up);
    TakenApart(f.id, f.next, l1, b);
    OutsideAgrees(h1, h2, PreOrder(l1), PreOrder(b));
    ChainFrame(h1, h2, h1.next[f.id], b, up, None);
    SameAt(h1, h2, PreOrder(l1), f.id);
    EntrySame(s0.h.parent, h1.parent, PreOrder(l1), f.id);
    NodeChain(h2, f.id, a', b, up);
  }

  lemma TakenApart(m: Id, n: Forest, l1: Forest, b: Forest)
    requires n == Append(l1, b) && m !in PreOrder(n) && Distinct(PreOrder(n))
    ensures m !in PreOrder(l1) && forall i :: i in PreOrder(b) ==> i !in PreOrder(l1)
  {
    hide *;
    AppendPreOrder(l1, b);
    DistinctParts(PreOrder(l1), PreOrder(b));
    InEither(PreOrder(l1), PreOrder(b));
  }

  lemma NodeChain(h: Links, m: Id, l: Forest, n: Forest, up: Option<Id>)
    requires m in h.next && m in h.list && m in h.parent && h.parent[m] == up
    requires Chain(h, h.list[m], l, Some(m), None) && Chain(h, h.next[m], n, up, None)
    ensures Chain(h, Some(m), Node(m, l, n), up, None)
  {
  }

  lemma StartedOrder(s: State, f: Forest, up: Option<Id>)
    requires Started(s, f, up)
    ensures f.id !in PreOrder(f.next) && Distinct(PreOrder(f.next)) && Chain(s.h, Some(f.id), f, up, None)
  {
    DistinctNode(f);
  }

  lemma TakenEntries(s0: State, s1: State, f: Forest, l1: Forest, a: Forest, b: Forest, up: Option<Id>)
    requires Started(s0, f, up) && f.id in s0.entries && EntryOk(s0.entries[f.id])
    requires TakenOver(Logged(s0, f.id), s1, f.next, l1, a, b, f.id)
    ensures Done(s0.entries, s1.entries, Node(f.id, Nil, l1)) && EntriesOk(s1.entries, PreOrder(Node(f.id, Nil, l1)))
    ensures f.id in s1.entries && s1.entries[f.id] == s0.entries[f.id]
  {
    InPreOrder(Node(f.id, Nil, l1));
    assert PreOrder(Nil) == [];
    hide PreOrder, Distinct, Chain, Untouched, Append;
  }

  lemma TakenOutside(s0: State, s1: State, s2: State, f: Forest, l1: Forest, a: Forest, a': Forest, b: Forest, up: Option<Id>)
    requires Started(s0, f, up) && TakenOver(Logged(s0, f.id), s1, f.next, l1, a, b, f.id) && ListHoisted(s1, s2, f.id, a, a')
    ensures Outside(s0, s2, PreOrder(Node(f.id, Nil, l1))) && f.id in s1.values
  {
    HasValues(s0, f, up);
    BarePreOrder(f.id, l1);
    hide PreOrder, Append, Chain, Distinct, Done, EntriesOk, Untouched, LinksOutside, SameOutside, AllPushed, PushTop, PushEntry, ChoiceValues;
    InEither([f.id], PreOrder(l1));
    assert f.id in [f.id];
    var u := [f.id] + PreOrder(l1);
    LinksTwice(s0.h, s1.h, s2.h, u, PreOrder(l1), u);
    SameMore(s0.entries, s1.entries, PreOrder(l1), u);
    ValuesTwice(s0.values, s1.values, s2.values, PreOrder(l1), f.id, u);
  }

  /** For an entry without list and prompt or symbol there is nothing to do. */
  lemma FinishAlone(s0: State, s: State, f: Forest, up: Option<Id>)
    requires Started(s0, f, up) && f.list.Nil? && f.id in s0.entries && EntryOk(s0.entries[f.id]) && s == Logged(s0, f.id)
    ensures Finished(s0, s, f, f, Node(f.id, Nil, Nil), up)
  {
    HasValues(s0, f, up);
    var f1 := Node(f.id, Nil, Nil);
    assert PreOrder(f1) == [f.id] + PreOrder(f.list) == [f.id];
    assert f == Append(f1, f.next);
    hide Distinct, Chain, PreOrder, Append;
    assert Done(s0.entries, s.entries, f1);
    assert Outside(s0, s, PreOrder(f1));
  }

  /** From `s1`, with the conditions pushed, to `s`, with everything below `p` in place. */
  ghost predicate Below(s1: State, s: State, p: Id, l: Forest, a: Forest, a': Forest) {
    exists s2 :: BelowVia(s1, s2, s, p, l, a, a')
  }

  ghost predicate BelowVia(s1: State, s2: State, s: State, p: Id, l: Forest, a: Forest, a': Forest) {
    Outside(s1, s2, PreOrder(l)) && PreOrder(a) == PreOrder(l) && s2.finalized == s1.finalized + PreOrder(l) &&
    Done(s1.entries, s2.entries, l) && EntriesOk(s2.entries, PreOrder(l)) && ListHoisted(s2, s, p, a, a')
  }

  lemma FinishBelow(s0: State, s1: State, s: State, f: Forest, a: Forest, a': Forest, up: Option<Id>)
    requires Started(s0, f, up) && f.id in s0.entries && EntryOk(s0.entries[f.id])
    requires s1 == Logged(s0, f.id).(entries := PushTop(s0.entries, f.list, ParentDep(s0.entries[f.id])))
    requires Below(s1, s, f.id, f.list, a, a')
    ensures Finished(s0, s, f, Node(f.id, a', f.next), Node(f.id, f.list, Nil), up)
  {
    var s2 :| BelowVia(s1, s2, s, f.id, f.list, a, a');
    hide PreOrder, Append, Chain, Distinct, Done, EntriesOk, Untouched, LinksOutside, SameOutside, AllPushed, PushTop, PushEntry, ChoiceValues, Started, Outside, ListHoisted, Finished;
    FinishList(s0, s1, s2, s, f, a, a', up);
  }

  lemma PushedReady(s: State, p: Id, l: Forest)
    requires p in s.entries && EntryOk(s.entries[p]) && p !in PreOrder(l) && EntriesOk(s.entries, PreOrder(l))
    ensures var e := PushTop(s.entries, l, ParentDep(s.entries[p]));
            EntriesOk(e, PreOrder(l)) && p in e && e[p] == s.entries[p]
  {
    TopInside(l);
    hide PreOrder;
  }

  lemma BelowReady(s1: State, s2: State, p: Id, l: Forest, a: Forest)
    requires Outside(s1, s2, PreOrder(l)) && PreOrder(a) == PreOrder(l) && p !in PreOrder(l)
    requires p in s1.entries && p in s1.values && s1.values[p] == []
    ensures p in s2.entries && s2.entries[p] == s1.entries[p] && p in s2.values && s2.values[p] == []
  {
    hide PreOrder;
  }

  lemma TakenReady(s0: State, s: State, n: Forest, l1: Forest, a: Forest, b: Forest, p: Id)
    requires TakenOver(s0, s, n, l1, a, b, p) && p in s0.entries && p in s0.values && s0.values[p] == []
    ensures p in s.entries && s.entries[p] == s0.entries[p] && p in s.values && s.values[p] == []
    ensures p !in PreOrder(a) && Distinct(PreOrder(a)) && EntriesOk(s.entries, PreOrder(a)) && PreOrder(a) == PreOrder(l1)
  {
    hide PreOrder, Distinct, Append, Done;
  }

  /** The entry `p` stands for a menu, not for a symbol. */
  ghost predicate IsMenu(s: State, p: Id) {
    p in s.entries && s.entries[p].sym.None?
  }

  lemma NotNil(f: Forest)
    requires |PreOrder(f)| >= 1
    ensures f.Node?
  {
  }

  lemma OnlyRoot(root: Id, l: Forest, g: Forest, f1: Forest)
    requires f1.Node? && g.Node? && Node(root, l, Nil) == Append(f1, g.next)
    ensures g.next == Nil && f1 == Node(root, l, Nil)
  {
    assert Append(f1, g.next) == Node(f1.id, f1.list, Append(f1.next, g.next));
  }

  lemma FinishedRoot(s: State, s': State, l: Forest, g: Forest, f1: Forest, root: Id)
    requires Started(s, Node(root, l, Nil), None) && Finished(s, s', Node(root, l, Nil), g, f1, None)
    ensures root in s'.h.list && root in s'.h.next && root in s'.h.parent && s'.h.next[root].None? && s'.h.parent[root].None?
    ensures g.Node? && g.id == root && g.next == Nil && Chain(s'.h, s'.h.list[root], g.list, Some(root), None) && PreOrder(g.list) == PreOrder(l)
    ensures root in s'.entries && root in s.entries && s'.entries[root] == s.entries[root] && EntryOk(s'.entries[root])
    ensures AllPushed(s.entries, s'.entries, l, ParentDep(s'.entries[root])) && EntriesOk(s'.entries, PreOrder(l))
    ensures s'.finalized == s.finalized + [root] + PreOrder(l)
  {
    NotNil(f1);
    OnlyRoot(root, l, g, f1);
    assert Chain(s'.h, s'.h.next[root], Nil, None, None);
    SinglePreOrder(root, l);
    InEither([root], PreOrder(l));
    Regroup(s.finalized, [root], PreOrder(l));
    hide PreOrder, Distinct;
    assert ([root] + PreOrder(l))[1..] == PreOrder(l);
    assert ([root] + PreOrder(g.list))[1..] == PreOrder(g.list);
  }
}
