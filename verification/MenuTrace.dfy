/** Where the parent pointers come from while menu_finalize runs. */
module MenuTrace {
  import opened Options
  import opened Expressions
  import opened MenuForest
  import opened MenuDeps
  import opened MenuSteps

  /** The parent pointers before the first call, and the entries that have no prompt. */
  datatype Origin = Origin(parent: map<Id, Option<Id>>, bare: set<Id>)

  function Bare(e: Entries): set<Id> {
    set i | i in e && e[i].prompt.None?
  }

  /** Going up `n` times from `c`, through entries without a prompt, one comes to `q`. */
  ghost predicate Climbs(o: Origin, c: Id, q: Id, n: nat)
    decreases n
  {
    c in o.parent &&
    if n == 0 then c == q
    else
      o.parent[c].Some? &&
      o.parent[c].value in o.bare && Climbs(o, o.parent[c].value, q, n - 1)
  }

  /**
   * `up` may be the parent of `c`: entries without a prompt hand on what they hold, and the last of
   * them, or `c` itself, has the parent it had or has been taken in.
   */
  ghost predicate Placed(o: Origin, taken: set<(Id, Id)>, c: Id, up: Option<Id>) {
    exists q: Id, n: nat :: Climbs(o, c, q, n) && Settled(o, taken, q, up)
  }

  ghost predicate Settled(o: Origin, taken: set<(Id, Id)>, q: Id, up: Option<Id>) {
    q in o.parent && (o.parent[q] == up || (up.Some? && (q, up.value) in taken))
  }

  /** `c` has passed the test for the submenu of `p`. */
  ghost predicate TakenPair(e: Entries, c: Id, p: Id) {
    c in e && p in e && EntryOk(e[c]) && EntryOk(e[p]) && e[p].sym.Some? && e[p].prompt.Some? &&
    Judge(ShownUnder(e[c]), e[p].sym.value, ShownUnder(e[p])) == Belongs
  }

  ghost predicate AllTaken(e: Entries, finalized: seq<Id>, taken: set<(Id, Id)>) {
    forall c: Id, p: Id :: (c, p) in taken ==> c in finalized && p in finalized && TakenPair(e, c, p)
  }

  ghost predicate AllPlaced(o: Origin, parent: map<Id, Option<Id>>, taken: set<(Id, Id)>) {
    parent.Keys == o.parent.Keys && forall i {:trigger Placed(o, taken, i, parent[i])} :: i in parent ==> Placed(o, taken, i, parent[i])
  }

  /** Every parent pointer is explained by what has been taken in so far. */
  ghost predicate Traced(o: Origin, s: State) {
    o.bare == Bare(s.entries) && AllTaken(s.entries, s.finalized, s.taken) && AllPlaced(o, s.h.parent, s.taken)
  }

  lemma TracedStart(s: State)
    requires s.taken == {}
    ensures Traced(Origin(s.h.parent, Bare(s.entries)), s)
  {
    var o := Origin(s.h.parent, Bare(s.entries));
    forall i | i in s.h.parent ensures Placed(o, {}, i, s.h.parent[i]) {
      assert Climbs(o, i, i, 0) && Settled(o, {}, i, s.h.parent[i]);
    }
  }

  /** Next and list pointers and the values of choices do not matter. */
  lemma TracedSame(o: Origin, s: State, s': State)
    requires Traced(o, s)
    requires s'.h.parent == s.h.parent && s'.entries == s.entries && s'.finalized == s.finalized && s'.taken == s.taken
    ensures Traced(o, s')
  {
  }

  lemma TracedLog(o: Origin, s: State, p: Id)
    requires Traced(o, s)
    ensures Traced(o, Logged(s, p))
  {
    hide Bare, TakenPair, AllPlaced;
  }

  /** Conditions are pushed down only to entries that menu_finalize has not come to yet. */
  lemma TracedPush(o: Origin, s: State, l: Forest, parentdep: Option<Expr>)
    requires Traced(o, s) && Untouched(s, PreOrder(l))
    ensures Traced(o, s.(entries := PushTop(s.entries, l, parentdep)))
  {
    TopInside(l);
    var e := PushTop(s.entries, l, parentdep);
    PushedBare(s.entries, l, parentdep);
    hide PreOrder, AllPlaced, Top, Judge;
    forall c: Id, p: Id | (c, p) in s.taken ensures TakenPair(e, c, p) {
      assert TakenPair(s.entries, c, p);
      assert c !in PreOrder(l) && p !in PreOrder(l);
      assert e[c] == s.entries[c] && e[p] == s.entries[p];
    }
  }

  lemma PushedBare(e: Entries, l: Forest, parentdep: Option<Expr>)
    ensures Bare(PushTop(e, l, parentdep)) == Bare(e)
  {
    hide Top, PushDep, PushProps;
  }

  /** An entry is taken in. */
  lemma TracedTake(o: Origin, s: State, c: Id, p: Id)
    requires Traced(o, s) && TakenPair(s.entries, c, p) && c in s.finalized && p in s.finalized && c in s.h.parent
    requires c in o.parent
    ensures Traced(o, SetParent(Taken(s, c, p), c, Some(p)))
  {
    var (taken, parent) := (s.taken + {(c, p)}, s.h.parent[c := Some(p)]);
    hide Bare, TakenPair;
    forall i | i in parent ensures Placed(o, taken, i, parent[i]) {
      if i == c {
        assert Climbs(o, c, c, 0) && Settled(o, taken, c, parent[i]);
      } else {
        PlacedMore(o, s.taken, taken, i, parent[i]);
      }
    }
  }

  function Taken(s: State, c: Id, p: Id): State {
    s.(taken := s.taken + {(c, p)})
  }

  lemma PlacedMore(o: Origin, taken: set<(Id, Id)>, taken': set<(Id, Id)>, c: Id, up: Option<Id>)
    requires Placed(o, taken, c, up) && taken <= taken'
    ensures Placed(o, taken', c, up)
  {
    var q: Id, n: nat :| Climbs(o, c, q, n) && Settled(o, taken, q, up);
    assert Settled(o, taken', q, up);
  }

  /** An entry moves from `m`, which has no prompt, to the parent of `m`. */
  lemma TracedHoist(o: Origin, s: State, c: Id, m: Id, p: Id)
    requires Traced(o, s) && c in s.h.parent && s.h.parent[c] == Some(m) && m in s.h.parent && s.h.parent[m] == Some(p)
    requires m in s.entries && s.entries[m].prompt.None?
    ensures Traced(o, SetParent(s, c, Some(p)))
  {
    PlacedAbove(o, s, c, m, p);
    hide Bare, AllTaken, Placed;
  }

  lemma PlacedAbove(o: Origin, s: State, c: Id, m: Id, p: Id)
    requires Traced(o, s) && c in s.h.parent && s.h.parent[c] == Some(m) && m in s.h.parent && s.h.parent[m] == Some(p)
    requires m in s.entries && s.entries[m].prompt.None?
    ensures Placed(o, s.taken, c, Some(p))
  {
    assert Placed(o, s.taken, c, Some(m)) && Placed(o, s.taken, m, Some(p));
    var q: Id, n: nat :| Climbs(o, c, q, n) && Settled(o, s.taken, q, Some(m));
    OnlyPromptsTake(s);
    var r: Id, k: nat :| Climbs(o, m, r, k) && Settled(o, s.taken, r, Some(p));
    assert m in Bare(s.entries);
    ClimbOn(o, c, q, n, m, r, k);
  }

  lemma OnlyPromptsTake(s: State)
    requires AllTaken(s.entries, s.finalized, s.taken)
    ensures forall c: Id, p: Id :: (c, p) in s.taken ==> p in s.entries && s.entries[p].prompt.Some?
  {
    hide Judge;
    forall c: Id, p: Id | (c, p) in s.taken ensures p in s.entries && s.entries[p].prompt.Some? {
      assert TakenPair(s.entries, c, p);
    }
  }

  lemma {:induction false} ClimbOn(o: Origin, c: Id, q: Id, n: nat, m: Id, r: Id, k: nat)
    requires Climbs(o, c, q, n) && q in o.parent && o.parent[q] == Some(m)
    requires m in o.bare && Climbs(o, m, r, k)
    ensures Climbs(o, c, r, n + 1 + k)
    decreases n
  {
    if n > 0 {
      ClimbOn(o, o.parent[c].value, q, n - 1, m, r, k);
    }
  }

  /** `p` stands for a symbol with a prompt, so menu_finalize looks for a submenu behind it. */
  ghost predicate Takes(e: Entries, p: Id) {
    p in e && EntryOk(e[p]) && e[p].sym.Some? && e[p].prompt.Some?
  }

  /** The walk over the entries behind `p` has taken in the first of those that were left. */
  lemma TakeStep(o: Origin, s0: State, s: State, s1: State, start: Option<Id>, n: Forest, l1: Forest, a: Forest, b: Forest,
                 g: Forest, f1: Forest, p: Id, up: Option<Id>)
    requires b.Node? && g.Node? && Walking(s0, s, start, n, l1, a, b, Some(b.id), Some(p), up)
    requires Finished(s, s1, b, g, f1, up) && Traced(o, s1)
    requires p !in PreOrder(n) && p in s0.finalized && Takes(s0.entries, p)
    requires b.id in s.entries && EntryOk(s.entries[b.id])
    requires Judge(ShownUnder(s.entries[b.id]), s0.entries[p].sym.value, ShownUnder(s0.entries[p])) == Belongs
    ensures b.id in s1.h.next
    ensures var s' := SetParent(Taken(s1, b.id, p), b.id, Some(p));
            Walking(s0, s', start, n, Append(l1, f1), Append(a, Node(b.id, g.list, Nil)), g.next, s1.h.next[b.id], Some(p), up) &&
            Traced(o, s')
  {
    hide PreOrder, Append, Chain, Distinct, Done, EntriesOk, Untouched, LinksOutside, SameOutside, Judge, Walking, Finished, Bare, AllTaken, Placed;
    FinishedEntry(s, s1, b, g, f1, up);
    WalkStep(s0, s, s1, start, n, l1, a, b, g, f1, Some(p), up);
    var s' := SetParent(s1, b.id, Some(p));
    WalkingOther(s0, s', start, n, Append(l1, f1), Append(a, Node(b.id, g.list, Nil)), g.next, s'.h.next[b.id], Some(p), up, p);
    WalkingTaken(s0, s', Taken(s', b.id, p), start, n, Append(l1, f1), Append(a, Node(b.id, g.list, Nil)), g.next, s'.h.next[b.id], Some(p), up);
    TracedTake(o, s1, b.id, p);
  }

  lemma FinishedEntry(s: State, s': State, f: Forest, g: Forest, f1: Forest, up: Option<Id>)
    requires Finished(s, s', f, g, f1, up)
    ensures f.id in s'.entries && f.id in s.entries && s'.entries[f.id] == s.entries[f.id] && f.id in s'.finalized
    ensures f.id in s'.h.parent
  {
    hide Append, LinksOutside, SameOutside, Distinct, ChoiceValues;
    NotNil(f1);
    assert PreOrder(f1)[0] == f.id;
  }

  lemma WalkingOther(s0: State, s: State, start: Option<Id>, l: Forest, l1: Forest, a: Forest, b: Forest,
                     menu: Option<Id>, upA: Option<Id>, upB: Option<Id>, p: Id)
    requires Walking(s0, s, start, l, l1, a, b, menu, upA, upB) && p !in PreOrder(l) && p in s0.entries
    ensures p in s.entries && s.entries[p] == s0.entries[p] && (p in s0.finalized ==> p in s.finalized)
  {
    WalkingParts(s0, s, start, l, l1, a, b, menu, upA, upB);
    hide PreOrder, Append, Chain, Distinct, Done, EntriesOk, Untouched, LinksOutside;
    InEither(PreOrder(l1), PreOrder(b));
  }

  /** Who has been taken in where does not matter to the walk. */
  lemma WalkingTaken(s0: State, s: State, s': State, start: Option<Id>, l: Forest, l1: Forest, a: Forest, b: Forest,
                     menu: Option<Id>, upA: Option<Id>, upB: Option<Id>)
    requires Walking(s0, s, start, l, l1, a, b, menu, upA, upB) && s' == s.(taken := s'.taken)
    ensures Walking(s0, s', start, l, l1, a, b, menu, upA, upB)
  {
    hide PreOrder, Append, Chain, Distinct, Done, EntriesOk, Untouched, LinksOutside, SameOutside;
  }

  // ----- What a whole run leaves -----

  /** menu_finalize of the root menu, with the list `l`, has turned `s` into `s'`. */
  ghost predicate Reshaped(s: State, s': State, root: Id, l: Forest) {
    Started(s, Node(root, l, Nil), None) && root in s.h.list && root in s.entries && root in s'.entries &&
    s'.entries[root] == s.entries[root] && EntryOk(s'.entries[root]) &&
    AllPushed(s.entries, s'.entries, l, ParentDep(s'.entries[root])) &&
    Traced(Origin(s.h.parent, Bare(s.entries)), s')
  }
}
