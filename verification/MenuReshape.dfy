/** menu_finalize as a function of the tree, without pointers. */
module MenuReshape {
  import opened Options
  import opened Symbols
  import opened Expressions
  import opened MenuForest
  import opened MenuDeps
  import opened MenuSteps

  /** The entries, what has become of the tree, and the entries after it; or the run came to an undefined test. */
  datatype Outcome = Lost | Kept(entries: Entries, done: Forest, rest: Forest)

  lemma Shorter(f: Forest)
    requires f.Node?
    ensures |PreOrder(f.list)| < |PreOrder(f)| && |PreOrder(f.next)| < |PreOrder(f)|
  {
  }

  /** The list of the first entry moves up a level if the entry has no prompt. */
  function Lifted(e: Entries, b: Forest): Forest
    requires b.Node?
  {
    if b.list.Node? && b.id in e && e[b.id].prompt.None? then Node(b.id, Nil, Append(b.list, b.next)) else b
  }

  lemma LiftedShorter(e: Entries, b: Forest)
    requires b.Node?
    ensures Lifted(e, b).Node? && |PreOrder(Lifted(e, b).next)| < |PreOrder(b)|
  {
    AppendPreOrder(b.list, b.next);
    Shorter(b);
  }

  /** The last loop of menu_finalize: `x` is in place, `b` to come. */
  ghost function LiftAll(e: Entries, x: Forest, b: Forest): Forest
    decreases |PreOrder(b)|
  {
    if b.Nil? then x
    else
      LiftedShorter(e, b);
      var b' := Lifted(e, b);
      LiftAll(e, Append(x, Node(b.id, b'.list, Nil)), b'.next)
  }

  /** menu_finalize for the first entry of `f`. */
  ghost function FinalizeTree(e: Entries, f: Forest): (r: Outcome)
    ensures r.Kept? ==> f.Node? && r.done.Node? && |PreOrder(r.rest)| < |PreOrder(f)|
    decreases |PreOrder(f)|, 1
  {
    if f.Nil? || f.id !in e || !EntryOk(e[f.id]) then Lost
    else
      Shorter(f);
      if f.list.Node? then
        match FinalizeList(PushTop(e, f.list, ParentDep(e[f.id])), Nil, f.list)
        case Lost => Lost
        case Kept(e', a, _) => Kept(e', Node(f.id, LiftAll(e', Nil, a), Nil), f.next)
      else if e[f.id].sym.Some? && e[f.id].prompt.Some? then
        match TakeIn(e, e[f.id].sym.value, ShownUnder(e[f.id]), Nil, f.next)
        case Lost => Lost
        case Kept(e', a, b) => Kept(e', Node(f.id, LiftAll(e', Nil, a), Nil), b)
      else Kept(e, Node(f.id, Nil, Nil), f.next)
  }

  /** The loop over the children: `a` is done, `b` to come. */
  ghost function FinalizeList(e: Entries, a: Forest, b: Forest): Outcome
    decreases |PreOrder(b)|, 2
  {
    if b.Nil? then Kept(e, a, Nil)
    else
      match FinalizeTree(e, b)
      case Lost => Lost
      case Kept(e', g, r) => FinalizeList(e', Append(a, g), r)
  }

  /** The loop over the following entries: `a` has been taken in, `b` is to come. */
  ghost function TakeIn(e: Entries, sym: Symbol, base: Option<Expr>, a: Forest, b: Forest): (r: Outcome)
    ensures r.Kept? ==> |PreOrder(r.rest)| <= |PreOrder(b)|
    decreases |PreOrder(b)|, 2
  {
    if b.Nil? then Kept(e, a, b)
    else if b.id !in e || !EntryOk(e[b.id]) then Lost
    else
      match Judge(ShownUnder(e[b.id]), sym, base)
      case Undefined => Lost
      case Apart => Kept(e, a, b)
      case Belongs =>
        match FinalizeTree(e, b)
        case Lost => Lost
        case Kept(e', g, r) => TakeIn(e', sym, base, Append(a, g), r)
  }

  /** `lost` says whether the outcome is Lost; otherwise the first entry has become that of `g`. */
  ghost predicate Yields(r: Outcome, lost: bool, e: Entries, g: Forest) {
    if lost then r == Lost else g.Node? && r == Kept(e, Node(g.id, g.list, Nil), g.next)
  }

  // ----- One step of each loop -----

  lemma ListStep(e: Entries, a: Forest, b: Forest, lost: bool, e': Entries, g: Forest)
    requires b.Node? && Yields(FinalizeTree(e, b), lost, e', g)
    ensures FinalizeList(e, a, b) == if lost then Lost else FinalizeList(e', Append(a, Node(g.id, g.list, Nil)), g.next)
  {
    hide FinalizeTree;
  }

  lemma TakeInStep(e: Entries, sym: Symbol, base: Option<Expr>, a: Forest, b: Forest, lost: bool, e': Entries, g: Forest)
    requires b.Node? && b.id in e && EntryOk(e[b.id]) && Judge(ShownUnder(e[b.id]), sym, base) == Belongs
    requires Yields(FinalizeTree(e, b), lost, e', g)
    ensures TakeIn(e, sym, base, a, b) == if lost then Lost else TakeIn(e', sym, base, Append(a, Node(g.id, g.list, Nil)), g.next)
  {
    hide FinalizeTree, Judge;
  }

  lemma TakeInStops(e: Entries, sym: Symbol, base: Option<Expr>, a: Forest, b: Forest)
    requires b.Node? ==> b.id in e && EntryOk(e[b.id]) && Judge(ShownUnder(e[b.id]), sym, base) != Belongs
    ensures TakeIn(e, sym, base, a, b) ==
            if b.Node? && Judge(ShownUnder(e[b.id]), sym, base) == Undefined then Lost else Kept(e, a, b)
  {
    hide FinalizeTree, Judge;
  }

  lemma TreeOfList(e: Entries, f: Forest, lost: bool, e': Entries, a: Forest)
    requires f.Node? && f.id in e && EntryOk(e[f.id]) && f.list.Node?
    requires FinalizeList(PushTop(e, f.list, ParentDep(e[f.id])), Nil, f.list) == if lost then Lost else Kept(e', a, Nil)
    ensures Yields(FinalizeTree(e, f), lost, e', Node(f.id, LiftAll(e', Nil, a), f.next))
  {
    hide FinalizeList, PushTop, LiftAll;
  }

  lemma TreeOfTaken(e: Entries, f: Forest, lost: bool, e': Entries, a: Forest, b: Forest)
    requires f.Node? && f.id in e && EntryOk(e[f.id]) && f.list.Nil? && e[f.id].sym.Some? && e[f.id].prompt.Some?
    requires TakeIn(e, e[f.id].sym.value, ShownUnder(e[f.id]), Nil, f.next) == if lost then Lost else Kept(e', a, b)
    ensures Yields(FinalizeTree(e, f), lost, e', Node(f.id, LiftAll(e', Nil, a), b))
  {
    hide TakeIn, PushTop, LiftAll;
  }

  lemma TreeAlone(e: Entries, f: Forest)
    requires f.Node? && f.id in e && EntryOk(e[f.id]) && f.list.Nil? && !(e[f.id].sym.Some? && e[f.id].prompt.Some?)
    ensures Yields(FinalizeTree(e, f), false, e, f)
  {
  }

  lemma ListEnds(e: Entries, a: Forest)
    ensures FinalizeList(e, a, Nil) == Kept(e, a, Nil)
  {
  }

  lemma LostTree(r: Outcome, e: Entries, g: Forest, g': Forest)
    requires Yields(r, true, e, g)
    ensures Yields(r, true, e, g')
  {
  }

  lemma LiftStep(e: Entries, x: Forest, b: Forest)
    requires b.Node?
    ensures var b' := Lifted(e, b);
            b'.Node? && LiftAll(e, x, b) == LiftAll(e, Append(x, Node(b.id, b'.list, Nil)), b'.next)
  {
  }

  lemma LiftEnds(e: Entries, x: Forest)
    ensures LiftAll(e, x, Nil) == x
  {
  }
}
