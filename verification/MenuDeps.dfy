/** Conditions of menu entries, and what menu_finalize adds to them. */
module MenuDeps {
  import opened Options
  import opened Tristate
  import opened Symbols
  import opened Expressions
  import opened ExprTransformation
  import opened ExprDuplicates
  import opened ExprComparison
  import opened MenuForest

  /** A property of an entry; only prompts have a text. */
  datatype Property = Property(text: Option<string>, def: Option<Symbol>, visible: Option<Expr>)

  /** The part of a menu structure that is not pointers; `prompt` is the index of its prompt among `props`. */
  datatype MenuEntry = MenuEntry(sym: Option<Symbol>, dep: Option<Expr>, props: seq<Property>, prompt: Option<nat>)

  predicate EntryOk(e: MenuEntry) {
    e.prompt.Some? ==> e.prompt.value < |e.props| && e.props[e.prompt.value].text.Some?
  }

  type Entries = map<Id, MenuEntry>

  predicate IsChoice(e: MenuEntry) {
    e.sym.Some? && e.sym.value.Choice?
  }

  /** expr_transform and expr_eliminate_dups of an expression that may be missing. */
  function TransformOpt(e: Option<Expr>): Option<Expr> {
    if e.None? then None else Some(Transform(e.value))
  }

  function SimplifyOpt(e: Option<Expr>): Option<Expr> {
    if e.None? then None else Some(EliminateDups(e.value))
  }

  /** The condition an entry gets: that of its parent and its own. */
  function PushDep(parentdep: Option<Expr>, dep: Option<Expr>): Option<Expr> {
    SimplifyOpt(AllocAnd(parentdep, TransformOpt(dep)))
  }

  /** The condition a property gets: that of its entry and its own. */
  function PushVisible(sym: Option<Symbol>, basedep: Option<Expr>, visible: Option<Expr>): Option<Expr> {
    var dep := SimplifyOpt(AllocAnd(basedep, TransformOpt(visible)));
    if dep.Some? && sym.Some? && TypeOf(sym.value) != ThreeState then Some(TransBool(dep.value)) else dep
  }

  function PushProps(sym: Option<Symbol>, basedep: Option<Expr>, props: seq<Property>): (r: seq<Property>)
    ensures |r| == |props| && forall i :: 0 <= i < |r| ==> r[i].text == props[i].text
  {
    if props == [] then []
    else
      var p := props[|props| - 1];
      PushProps(sym, basedep, props[..|props| - 1]) + [p.(visible := PushVisible(sym, basedep, p.visible))]
  }

  function PushEntry(parentdep: Option<Expr>, e: MenuEntry): MenuEntry {
    var basedep := PushDep(parentdep, e.dep);
    e.(dep := basedep, props := PushProps(e.sym, basedep, e.props))
  }

  /** What an entry passes on to its children. */
  function ParentDep(e: MenuEntry): Option<Expr>
    requires EntryOk(e)
  {
    if IsChoice(e) then Some(Sym(e.sym.value))
    else if e.prompt.Some? then e.props[e.prompt.value].visible
    else e.dep
  }

  /** The condition under which an entry shows up. */
  function ShownUnder(e: MenuEntry): Option<Expr>
    requires EntryOk(e)
  {
    if e.prompt.Some? then e.props[e.prompt.value].visible else e.dep
  }

  /** expr_eliminate_eq is called on two expressions that it does not take for chains by mistake. */
  predicate EliminateEqDefined(dep: Option<Expr>, base: Option<Expr>) {
    SameNodeType(NotNo(dep), NotNo(base)) ==> NotNo(dep).Bin?
  }

  /** What the test for a submenu comes to; Undefined stands for a call that reads pointers of other types. */
  datatype Verdict = Belongs | Apart | Undefined

  /** Whether an entry shown under `dep` goes into the submenu of `sym`, which is prompted for under `base`. */
  function Judge(dep: Option<Expr>, sym: Symbol, base: Option<Expr>): Verdict {
    if dep.None? || !ContainsSymbol(dep.value, sym) then Apart
    else if DependsSymbol(dep.value, sym) then Belongs
    else if !EliminateEqDefined(dep, base) then Undefined
    else if IsYes(Some(EliminateEqTop(NotNo(dep), NotNo(base)).1)) then Belongs
    else Apart
  }

  /** In `e1` every entry of `f` has got its condition from its parent, which passes on `parentdep` at the top. */
  ghost predicate AllPushed(e0: Entries, e1: Entries, f: Forest, parentdep: Option<Expr>)
    decreases f
  {
    match f
    case Nil => true
    case Node(id, l, n) =>
      id in e0 && id in e1 && EntryOk(e1[id]) && e1[id] == PushEntry(parentdep, e0[id]) &&
      AllPushed(e0, e1, l, ParentDep(e1[id])) && AllPushed(e0, e1, n, parentdep)
  }

  // ----- What the new conditions mean -----

  /** No symbol has the value m. */
  ghost predicate NoneMod(env: Env) {
    forall s: Symbol :: env.tri(s) != MOD
  }

  lemma {:induction false} TransBoolExact(e: Expr, env: Env)
    requires NoneMod(env)
    ensures Eval(TransBool(e), env) == Eval(e, env)
  {
    match e
    case Bin(_, l, r) => TransBoolExact(l, env); TransBoolExact(r, env);
    case Not(x) => TransBoolExact(x, env);
    case Cmp(rel, l, r) =>
      if TypeOf(l) == ThreeState {
        CmpTestsValue(l, env);
      }
    case Sym(_) =>
  }

  lemma PushedCondition(a: Option<Expr>, b: Option<Expr>, env: Env)
    requires NoneMod(env) && EvalOpt(a, env) != MOD && EvalOpt(b, env) != MOD
    ensures EvalOpt(PushDep(a, b), env) == Combine(And, EvalOpt(a, env), EvalOpt(b, env))
  {
    assert BooleansDefinite(env);
    if b.Some? {
      TransformExact(b.value, env);
    }
    var c := AllocAnd(a, TransformOpt(b));
    AllocAndExact(a, TransformOpt(b), env);
    if c.Some? {
      EliminateDupsRefines(c.value, env);
    }
  }

  lemma PushedVisible(sym: Option<Symbol>, a: Option<Expr>, b: Option<Expr>, env: Env)
    requires NoneMod(env) && EvalOpt(a, env) != MOD && EvalOpt(b, env) != MOD
    ensures EvalOpt(PushVisible(sym, a, b), env) == Combine(And, EvalOpt(a, env), EvalOpt(b, env))
  {
    PushedCondition(a, b, env);
    if PushDep(a, b).Some? {
      TransBoolExact(PushDep(a, b).value, env);
    }
  }

  /** The conditions declared for an entry are y or n. */
  predicate Definite(e: MenuEntry, env: Env) {
    EvalOpt(e.dep, env) != MOD && forall p :: p in e.props ==> EvalOpt(p.visible, env) != MOD
  }

  lemma {:induction false} PushedProps(sym: Option<Symbol>, basedep: Option<Expr>, props: seq<Property>, i: nat, env: Env)
    requires NoneMod(env) && EvalOpt(basedep, env) != MOD && i < |props| && EvalOpt(props[i].visible, env) != MOD
    ensures EvalOpt(PushProps(sym, basedep, props)[i].visible, env) ==
            Combine(And, EvalOpt(basedep, env), EvalOpt(props[i].visible, env))
  {
    if i == |props| - 1 {
      PushedVisible(sym, basedep, props[i].visible, env);
    } else {
      PushedProps(sym, basedep, props[..|props| - 1], i, env);
    }
  }

  /** The condition of an entry and of its property `i`, in terms of what its parent passes on. */
  ghost predicate Visibly(parentdep: Option<Expr>, e0: MenuEntry, e1: MenuEntry, env: Env) {
    var base := Combine(And, EvalOpt(parentdep, env), EvalOpt(e0.dep, env));
    EvalOpt(e1.dep, env) == base && |e1.props| == |e0.props| &&
    forall i :: 0 <= i < |e0.props| ==>
      EvalOpt(e1.props[i].visible, env) == Combine(And, base, EvalOpt(e0.props[i].visible, env))
  }

  lemma PushedEntry(parentdep: Option<Expr>, e: MenuEntry, env: Env)
    requires NoneMod(env) && Definite(e, env) && EvalOpt(parentdep, env) != MOD
    ensures Visibly(parentdep, e, PushEntry(parentdep, e), env)
    ensures EntryOk(e) ==> EvalOpt(ParentDep(PushEntry(parentdep, e)), env) != MOD
  {
    PushedCondition(parentdep, e.dep, env);
    var base := PushDep(parentdep, e.dep);
    forall i | 0 <= i < |e.props|
      ensures EvalOpt(PushEntry(parentdep, e).props[i].visible, env) ==
              Combine(And, EvalOpt(base, env), EvalOpt(e.props[i].visible, env))
    {
      assert e.props[i] in e.props;
      PushedProps(e.sym, base, e.props, i, env);
    }
  }

  /**
   * Dependencies are pushed down correctly: with no symbol at m, each condition has become the
   * conjunction of itself, the condition of its entry and the condition its parent passes on.
   */
  lemma {:induction false} PushedExact(e0: Entries, e1: Entries, f: Forest, up: Id, parentdep: Option<Expr>, c: Id, p: Id, env: Env)
    requires NoneMod(env) && EvalOpt(parentdep, env) != MOD
    requires forall i :: i in PreOrder(f) ==> i in e0 && EntryOk(e0[i]) && Definite(e0[i], env)
    requires AllPushed(e0, e1, f, parentdep) && ChildOf(f, up, c, p)
    requires up !in PreOrder(f) && Distinct(PreOrder(f))
    ensures c in e0 && c in e1
    ensures p == up ==> Visibly(parentdep, e0[c], e1[c], env)
    ensures p != up ==> p in e1 && EntryOk(e1[p]) && Visibly(ParentDep(e1[p]), e0[c], e1[c], env)
    decreases f
  {
    var Node(id, l, n) := f;
    assert id in PreOrder(f);
    DistinctNode(f);
    PushedEntry(parentdep, e0[id], env);
    if id == c && up == p {
    } else if ChildOf(l, id, c, p) {
      InsideOrTop(l, id, c, p);
      PushedExact(e0, e1, l, id, ParentDep(e1[id]), c, p, env);
    } else {
      PushedExact(e0, e1, n, up, parentdep, c, p, env);
    }
  }

  lemma {:induction false} InsideOrTop(f: Forest, up: Id, c: Id, p: Id)
    requires ChildOf(f, up, c, p)
    ensures c in PreOrder(f) && (p == up || p in PreOrder(f))
  {
    var Node(id, l, n) := f;
    if !(id == c && up == p) {
      if ChildOf(l, id, c, p) {
        InsideOrTop(l, id, c, p);
      } else {
        InsideOrTop(n, up, c, p);
      }
    }
  }
}
