/**
 * What the value of a configuration symbol is: a function of the declarations and of what the
 * user has set, by recursion over the dependencies, with no cache.
 */
module SymbolSpec {
  import opened Options
  import opened Tristate
  import opened Symbols
  import opened Expressions

  /** struct symbol_value; the text of a boolean or tristate symbol is never read and kept at None. */
  datatype Value = Value(text: Option<string>, tri: Tri)

  datatype Default = Default(def: Symbol, cond: Option<Expr>)

  /**
   * The properties of a symbol.  `group` is the choice a choice value belongs to; `members` are
   * the choice values of a choice, in the order its E_CHOICE list is walked.
   */
  datatype SymbolDef = SymbolDef(
    prompts: seq<Option<Expr>>,
    defaults: seq<Default>,
    optional: bool,
    group: Option<Symbol>,
    members: seq<Symbol>)

  type Defs = map<Symbol, SymbolDef>

  /** Symbols whose value never changes: constants and symbols without a type. */
  function FixedValue(s: Symbol): Value {
    match s
    case ConstYes => Value(Some("y"), YES)
    case ConstMod => Value(Some("m"), MOD)
    case ConstNo => Value(Some("n"), NO)
    case Quoted(t) => Value(Some(t), NO)
    case Config(n, _) => Value(Some(n), NO)
    case Choice(_, _) => Value(None, NO)
  }

  predicate IsLogical(s: Symbol) {
    TypeOf(s) == Boolean || TypeOf(s) == ThreeState
  }

  /** The value before anything is known: n, or the empty string. */
  function BaseValue(s: Symbol): Value {
    if IsLogical(s) then Value(None, NO) else Value(Some(""), NO)
  }

  /** Every symbol in `e` is fixed or declared with a rank below `k`. */
  predicate ExprBelow(e: Expr, defs: Defs, rank: Symbol -> nat, k: nat) {
    match e
    case Sym(s) => SymbolBelow(s, defs, rank, k)
    case Cmp(_, l, r) => SymbolBelow(l, defs, rank, k) && SymbolBelow(r, defs, rank, k)
    case Not(x) => ExprBelow(x, defs, rank, k)
    case Bin(_, l, r) => ExprBelow(l, defs, rank, k) && ExprBelow(r, defs, rank, k)
  }

  predicate SymbolBelow(s: Symbol, defs: Defs, rank: Symbol -> nat, k: nat) {
    if TypeOf(s) == Unknown then s !in defs else s in defs && rank(s) < k
  }

  predicate OptBelow(e: Option<Expr>, defs: Defs, rank: Symbol -> nat, k: nat) {
    e.Some? ==> ExprBelow(e.value, defs, rank, k)
  }

  /** The conditions that are n when `c` is, by their form. */
  predicate IsGuard(e: Expr, c: Symbol) {
    e == Sym(c) || e == Cmp(Equal, c, ConstYes) || e == Sym(ConstNo)
  }

  /** `e` is such a condition or a conjunction with one, as menu_finalize makes the conditions of choice values. */
  predicate Under(e: Expr, c: Symbol) {
    IsGuard(e, c) || (IsOp(And, e) && (Under(e.left, c) || Under(e.right, c)))
  }

  predicate OptUnder(e: Option<Expr>, c: Symbol) {
    e.Some? && Under(e.value, c)
  }

  lemma {:induction false} UnderBounds(e: Expr, c: Symbol, env: Env)
    requires Under(e, c) && c.Choice? && IsLogical(c)
    ensures Eval(e, env) <= env.tri(c)
  {
    if IsGuard(e, c) {
      CmpTestsValue(c, env);
    } else if Under(e.left, c) {
      UnderBounds(e.left, c, env);
    } else {
      UnderBounds(e.right, c, env);
    }
  }

  /** Where it is not n, `c` has been looked at. */
  lemma {:induction false} UnderVisited(e: Expr, c: Symbol, env: Env, declared: set<Symbol>, valid: set<Symbol>)
    requires Under(e, c) && Visited(e, declared, valid) && c in declared && Eval(e, env) != NO
    ensures c in valid
  {
    if !IsGuard(e, c) {
      if Under(e.left, c) {
        UnderVisited(e.left, c, env, declared, valid);
      } else {
        UnderVisited(e.right, c, env, declared, valid);
      }
    }
  }

  /** Declarations without cyclic dependencies, a choice and its values counting as one unit. */
  ghost predicate SymbolOk(defs: Defs, modules: Symbol, rank: Symbol -> nat, s: Symbol)
    requires s in defs
  {
    var d := defs[s];
    TypeOf(s) != Unknown &&
    (forall e :: e in d.prompts ==> OptBelow(e, defs, rank, rank(s))) &&
    (forall x :: x in d.defaults ==> OptBelow(x.cond, defs, rank, rank(s))) &&
    (TypeOf(s) == ThreeState ==> SymbolBelow(modules, defs, rank, rank(s))) &&
    (if s.Choice? then ChoiceOk(defs, rank, s) else ValueOk(defs, rank, s))
  }

  ghost predicate ChoiceOk(defs: Defs, rank: Symbol -> nat, c: Symbol)
    requires c in defs
  {
    var d := defs[c];
    IsLogical(c) && d.group.None? &&
    (forall m :: m in d.members ==> m in defs && defs[m].group == Some(c)) &&
    (forall x :: x in d.defaults ==> x.def in d.members)
  }

  ghost predicate ValueOk(defs: Defs, rank: Symbol -> nat, s: Symbol)
    requires s in defs
  {
    var d := defs[s];
    (forall x :: x in d.defaults ==>
      !x.def.Choice? && SymbolBelow(x.def, defs, rank, rank(s)) && (IsLogical(s) || !IsLogical(x.def))) &&
    (d.group.Some? ==>
      var c := d.group.value;
      IsLogical(s) && c.Choice? && c in defs && s in defs[c].members && rank(s) == rank(c) + 1 &&
      (forall e :: e in d.prompts ==> OptUnder(e, c)) && (forall x :: x in d.defaults ==> OptUnder(x.cond, c)))
  }

  /** The largest of several values; n for none. */
  function AnyOf(es: seq<Option<Expr>>, env: Env): Tri {
    if es == [] then NO
    else Combine(Or, AnyOf(es[..|es| - 1], env), EvalOpt(es[|es| - 1], env))
  }

  lemma AnyOfStep(es: seq<Option<Expr>>, i: nat, env: Env)
    requires i < |es|
    ensures es[i] in es
    ensures AnyOf(es[..i + 1], env) == Combine(Or, AnyOf(es[..i], env), EvalOpt(es[i], env))
    ensures AnyOf(es[..|es|], env) == AnyOf(es, env)
  {
    assert es[..i + 1][..i] == es[..i];
    assert es[..|es|] == es;
  }

  type Values = map<Symbol, Value>

  function Lookup(v: Values, s: Symbol): Value {
    if s in v then v[s] else FixedValue(s)
  }

  function Text(x: Value): string {
    if x.text.Some? then x.text.value else ""
  }

  /** The environment in which expressions are evaluated, given the values of the declared symbols. */
  function EnvOf(v: Values): Env {
    Env((s: Symbol) => Lookup(v, s).tri, (s: Symbol) => Text(Lookup(v, s)))
  }

  /** The first default, from the `i`th on, whose condition is not n. */
  function ActiveDefault(defaults: seq<Default>, env: Env, i: nat): (r: Option<Symbol>)
    requires i <= |defaults|
    ensures r.Some? ==> exists x :: x in defaults && x.def == r.value
    decreases |defaults| - i
  {
    if i == |defaults| then None
    else if EvalOpt(defaults[i].cond, env) != NO then Some(defaults[i].def)
    else ActiveDefault(defaults, env, i + 1)
  }

  /** Declarations and user settings at one moment. */
  datatype Snapshot = Snapshot(
    defs: Defs,
    modules: Symbol,
    rank: Symbol -> nat,
    def: Values,
    isNew: set<Symbol>,
    stored: map<Symbol, Option<Symbol>>)
  {
    ghost predicate Ok() {
      (forall s {:trigger SymbolOk(defs, modules, rank, s)} :: s in defs ==> SymbolOk(defs, modules, rank, s)) &&
      def.Keys == defs.Keys && stored.Keys == defs.Keys &&
      (forall c {:trigger stored[c]} :: c in defs && stored[c].Some? ==> stored[c].value in defs[c].members) &&
      modules.Config? && (TypeOf(modules) == Unknown ==> modules !in defs)
    }

    /** The best of the prompt conditions. */
    function Visibility(s: Symbol, v: Values): Tri {
      if s in defs then AnyOf(defs[s].prompts, EnvOf(v)) else NO
    }

    /** The first active default of a choice, from the `i`th on, that is a visible value. */
    function FirstDefault(c: Symbol, v: Values, i: nat): (r: Option<Symbol>)
      requires c in defs && i <= |defs[c].defaults|
      decreases |defs[c].defaults| - i
    {
      if i == |defs[c].defaults| then None
      else
        var x := defs[c].defaults[i];
        if EvalOpt(x.cond, EnvOf(v)) != NO && Visibility(x.def, v) != NO then Some(x.def)
        else FirstDefault(c, v, i + 1)
    }

    function FirstMember(c: Symbol, v: Values, i: nat): (r: Option<Symbol>)
      requires c in defs && i <= |defs[c].members|
      decreases |defs[c].members| - i
    {
      if i == |defs[c].members| then None
      else if Visibility(defs[c].members[i], v) != NO then Some(defs[c].members[i])
      else FirstMember(c, v, i + 1)
    }

    /** What a choice selects on its own: a visible default or else the first visible choice value. */
    function OwnSelection(c: Symbol, v: Values): Option<Symbol>
      requires c in defs
    {
      var x := FirstDefault(c, v, 0);
      if x.Some? then x else FirstMember(c, v, 0)
    }

    /** What a choice of value y selects: the stored choice value if that is visible. */
    function Selection(c: Symbol, v: Values): Option<Symbol>
      requires c in defs && c in stored
    {
      if stored[c].Some? && Visibility(stored[c].value, v) != NO then stored[c] else OwnSelection(c, v)
    }

    /** A symbol is written out when it is visible or has an active default. */
    predicate Written(s: Symbol, v: Values)
      requires s in defs
    {
      Visibility(s, v) != NO || ActiveDefault(defs[s].defaults, EnvOf(v), 0).Some?
    }

    /** The value of the active default. */
    function DefaultValue(s: Symbol, v: Values): Value
      requires s in defs
    {
      var d := ActiveDefault(defs[s].defaults, EnvOf(v), 0);
      if d.Some? then Lookup(v, d.value) else BaseValue(s)
    }

    /** Whether m is available: the symbol is tristate, not pinned by its choice, and MODULES is set. */
    predicate ModAvailable(s: Symbol, v: Values)
      requires s in defs
    {
      TypeOf(s) == ThreeState && !(defs[s].group.Some? && Visibility(s, v) == YES) &&
      Lookup(v, modules).tri != NO
    }

    /** What the user set or, failing that, the default, within the limits of visibility. */
    function VisibleValue(s: Symbol, v: Values): Value
      requires s in defs && s in def
    {
      var vis := Visibility(s, v);
      var x := if s !in isNew then def[s] else if s.Choice? then BaseValue(s) else DefaultValue(s, v);
      var tri := Combine(And, x.tri, vis);
      x.(tri := if tri == NO && !defs[s].optional then vis else tri)
    }

    /** The value of `s` before m is ruled out. */
    function RawValue(s: Symbol, v: Values): Value
      requires s in defs && s in def && defs.Keys <= stored.Keys
    {
      var vis := Visibility(s, v);
      var g := defs[s].group;
      if g.Some? && g.value in defs && vis == YES then Value(None, Truth(Selection(g.value, v) == Some(s)))
      else if vis != NO then VisibleValue(s, v)
      else if s.Choice? then BaseValue(s)
      else DefaultValue(s, v)
    }

    /** The value of `s` when the symbols it depends on have the values `v`. */
    function ValueIn(s: Symbol, v: Values): Value
      requires s in defs && s in def && defs.Keys <= stored.Keys
    {
      var x := RawValue(s, v);
      var tri := if x.tri == MOD && IsLogical(s) && !ModAvailable(s, v) then YES else x.tri;
      Value(if IsLogical(s) then None else x.text, tri)
    }

    /** `v` assigns every declared symbol the value that follows from `v` itself. */
    ghost predicate Solution(v: Values) {
      Ok() && v.Keys == defs.Keys && forall s {:trigger Solved(s, v)} :: s in defs ==> Solved(s, v)
    }

    ghost predicate Solved(s: Symbol, v: Values)
      requires Ok() && s in defs && v.Keys == defs.Keys
    {
      v[s] == ValueIn(s, v)
    }
  }

  lemma {:induction false} AnyOfBounds(es: seq<Option<Expr>>, e: Option<Expr>, env: Env)
    requires e in es
    ensures EvalOpt(e, env) <= AnyOf(es, env)
  {
    if e != es[|es| - 1] {
      AnyOfBounds(es[..|es| - 1], e, env);
    }
  }

  lemma {:induction false} AnyOfUnder(es: seq<Option<Expr>>, c: Symbol, env: Env)
    requires c.Choice? && IsLogical(c)
    requires forall e :: e in es ==> OptUnder(e, c)
    ensures AnyOf(es, env) <= env.tri(c)
  {
    if es != [] {
      AnyOfUnder(es[..|es| - 1], c, env);
      assert es[|es| - 1] in es;
      UnderBounds(es[|es| - 1].value, c, env);
    }
  }

  // ----- There is exactly one solution -----

  /** `v` and `w` give the same values to the symbols of rank below `k`. */
  ghost predicate AgreeBelow(defs: Defs, rank: Symbol -> nat, v: Values, w: Values, k: nat) {
    forall s {:trigger Lookup(v, s)} {:trigger Lookup(w, s)} ::
      (s in defs ==> rank(s) < k) ==> Lookup(v, s) == Lookup(w, s)
  }

  lemma {:induction false} ExprAgrees(defs: Defs, rank: Symbol -> nat, e: Expr, k: nat, v: Values, w: Values)
    requires ExprBelow(e, defs, rank, k) && AgreeBelow(defs, rank, v, w, k)
    ensures Eval(e, EnvOf(v)) == Eval(e, EnvOf(w))
  {
    match e
    case Sym(_) =>
    case Cmp(_, _, _) =>
    case Not(x) => ExprAgrees(defs, rank, x, k, v, w);
    case Bin(_, l, r) => ExprAgrees(defs, rank, l, k, v, w); ExprAgrees(defs, rank, r, k, v, w);
  }

  lemma OptAgrees(defs: Defs, rank: Symbol -> nat, e: Option<Expr>, k: nat, v: Values, w: Values)
    requires OptBelow(e, defs, rank, k) && AgreeBelow(defs, rank, v, w, k)
    ensures EvalOpt(e, EnvOf(v)) == EvalOpt(e, EnvOf(w))
  {
    if e.Some? {
      ExprAgrees(defs, rank, e.value, k, v, w);
    }
  }

  lemma {:induction false} AnyOfAgrees(defs: Defs, rank: Symbol -> nat, es: seq<Option<Expr>>, k: nat, v: Values, w: Values)
    requires (forall e :: e in es ==> OptBelow(e, defs, rank, k)) && AgreeBelow(defs, rank, v, w, k)
    ensures AnyOf(es, EnvOf(v)) == AnyOf(es, EnvOf(w))
  {
    if es != [] {
      assert es[|es| - 1] in es;
      OptAgrees(defs, rank, es[|es| - 1], k, v, w);
      AnyOfAgrees(defs, rank, es[..|es| - 1], k, v, w);
    }
  }

  lemma {:induction false} ActiveDefaultAgrees(defs: Defs, rank: Symbol -> nat, ds: seq<Default>, i: nat, k: nat, v: Values, w: Values)
    requires i <= |ds| && (forall x :: x in ds ==> OptBelow(x.cond, defs, rank, k)) && AgreeBelow(defs, rank, v, w, k)
    ensures ActiveDefault(ds, EnvOf(v), i) == ActiveDefault(ds, EnvOf(w), i)
    decreases |ds| - i
  {
    if i < |ds| {
      assert ds[i] in ds;
      OptAgrees(defs, rank, ds[i].cond, k, v, w);
      ActiveDefaultAgrees(defs, rank, ds, i + 1, k, v, w);
    }
  }

  lemma VisibilityAgrees(sn: Snapshot, s: Symbol, v: Values, w: Values)
    requires sn.Ok() && s in sn.defs && AgreeBelow(sn.defs, sn.rank, v, w, sn.rank(s))
    ensures sn.Visibility(s, v) == sn.Visibility(s, w)
  {
    assert SymbolOk(sn.defs, sn.modules, sn.rank, s);
    AnyOfAgrees(sn.defs, sn.rank, sn.defs[s].prompts, sn.rank(s), v, w);
  }

  lemma MemberOf(sn: Snapshot, c: Symbol, m: Symbol)
    requires sn.Ok() && c in sn.defs && c.Choice? && m in sn.defs[c].members
    ensures m in sn.defs && !m.Choice? && sn.defs[m].group == Some(c) && sn.rank(m) == sn.rank(c) + 1
  {
    assert SymbolOk(sn.defs, sn.modules, sn.rank, c);
    assert SymbolOk(sn.defs, sn.modules, sn.rank, m);
  }

  lemma FirstDefaultAgrees(sn: Snapshot, c: Symbol, i: nat, v: Values, w: Values)
    requires sn.Ok() && c in sn.defs && c.Choice? && i <= |sn.defs[c].defaults|
    requires AgreeBelow(sn.defs, sn.rank, v, w, sn.rank(c) + 1)
    ensures sn.FirstDefault(c, v, i) == sn.FirstDefault(c, w, i)
    decreases |sn.defs[c].defaults| - i
  {
    if i < |sn.defs[c].defaults| {
      var x := sn.defs[c].defaults[i];
      assert SymbolOk(sn.defs, sn.modules, sn.rank, c) && x in sn.defs[c].defaults;
      MemberOf(sn, c, x.def);
      VisibilityAgrees(sn, x.def, v, w);
      OptAgrees(sn.defs, sn.rank, x.cond, sn.rank(c), v, w);
      FirstDefaultAgrees(sn, c, i + 1, v, w);
    }
  }

  lemma FirstMemberAgrees(sn: Snapshot, c: Symbol, i: nat, v: Values, w: Values)
    requires sn.Ok() && c in sn.defs && c.Choice? && i <= |sn.defs[c].members|
    requires AgreeBelow(sn.defs, sn.rank, v, w, sn.rank(c) + 1)
    ensures sn.FirstMember(c, v, i) == sn.FirstMember(c, w, i)
    decreases |sn.defs[c].members| - i
  {
    if i < |sn.defs[c].members| {
      MemberOf(sn, c, sn.defs[c].members[i]);
      VisibilityAgrees(sn, sn.defs[c].members[i], v, w);
      FirstMemberAgrees(sn, c, i + 1, v, w);
    }
  }

  lemma SelectionAgrees(sn: Snapshot, c: Symbol, v: Values, w: Values)
    requires sn.Ok() && c in sn.defs && c.Choice?
    requires AgreeBelow(sn.defs, sn.rank, v, w, sn.rank(c) + 1)
    ensures sn.Selection(c, v) == sn.Selection(c, w)
  {
    if sn.stored[c].Some? {
      MemberOf(sn, c, sn.stored[c].value);
      VisibilityAgrees(sn, sn.stored[c].value, v, w);
    }
    FirstDefaultAgrees(sn, c, 0, v, w);
    FirstMemberAgrees(sn, c, 0, v, w);
  }

  lemma DefaultAgrees(sn: Snapshot, s: Symbol, v: Values, w: Values)
    requires sn.Ok() && s in sn.defs && AgreeBelow(sn.defs, sn.rank, v, w, sn.rank(s))
    ensures ActiveDefault(sn.defs[s].defaults, EnvOf(v), 0) == ActiveDefault(sn.defs[s].defaults, EnvOf(w), 0)
    ensures !s.Choice? ==> sn.DefaultValue(s, v) == sn.DefaultValue(s, w)
  {
    assert SymbolOk(sn.defs, sn.modules, sn.rank, s);
    ActiveDefaultAgrees(sn.defs, sn.rank, sn.defs[s].defaults, 0, sn.rank(s), v, w);
  }

  lemma ModAvailableAgrees(sn: Snapshot, s: Symbol, v: Values, w: Values)
    requires sn.Ok() && s in sn.defs && AgreeBelow(sn.defs, sn.rank, v, w, sn.rank(s))
    ensures sn.ModAvailable(s, v) <==> sn.ModAvailable(s, w)
  {
    assert SymbolOk(sn.defs, sn.modules, sn.rank, s);
    VisibilityAgrees(sn, s, v, w);
    assert TypeOf(s) == ThreeState ==> Lookup(v, sn.modules) == Lookup(w, sn.modules);
  }

  lemma RawValueAgrees(sn: Snapshot, s: Symbol, v: Values, w: Values)
    requires sn.Ok() && s in sn.defs && AgreeBelow(sn.defs, sn.rank, v, w, sn.rank(s))
    ensures sn.RawValue(s, v) == sn.RawValue(s, w)
  {
    VisibilityAgrees(sn, s, v, w);
    var g := sn.defs[s].group;
    if g.Some? && sn.Visibility(s, v) == YES {
      assert SymbolOk(sn.defs, sn.modules, sn.rank, s);
      SelectionAgrees(sn, g.value, v, w);
    } else if !s.Choice? {
      DefaultAgrees(sn, s, v, w);
    }
  }

  /** The value of a symbol is determined by the symbols of lower rank. */
  lemma ValueAgrees(sn: Snapshot, s: Symbol, v: Values, w: Values)
    requires sn.Ok() && s in sn.defs && AgreeBelow(sn.defs, sn.rank, v, w, sn.rank(s))
    ensures sn.ValueIn(s, v) == sn.ValueIn(s, w)
  {
    RawValueAgrees(sn, s, v, w);
    ModAvailableAgrees(sn, s, v, w);
  }

  /** Acyclic declarations determine all values. */
  lemma SolutionUnique(sn: Snapshot, v: Values, w: Values)
    requires sn.Solution(v) && sn.Solution(w)
    ensures v == w
  {
    forall s | s in sn.defs ensures v[s] == w[s] {
      SolutionUniqueAt(sn, v, w, s);
    }
  }

  lemma {:induction false} SolutionUniqueAt(sn: Snapshot, v: Values, w: Values, s: Symbol)
    requires sn.Solution(v) && sn.Solution(w) && s in sn.defs
    ensures v[s] == w[s]
    decreases sn.rank(s)
  {
    forall t | t in sn.defs && sn.rank(t) < sn.rank(s) ensures v[t] == w[t] {
      SolutionUniqueAt(sn, v, w, t);
    }
    ValueAgrees(sn, s, v, w);
    assert sn.Solved(s, v) && sn.Solved(s, w);
  }

  /** The values of the symbols of rank below `k`, calculated bottom up. */
  ghost function Layers(sn: Snapshot, k: nat): (v: Values)
    requires sn.Ok()
    ensures forall s :: s in v <==> s in sn.defs && sn.rank(s) < k
  {
    if k == 0 then map[]
    else
      var v := Layers(sn, k - 1);
      map s | s in sn.defs && sn.rank(s) < k :: if sn.rank(s) < k - 1 then v[s] else sn.ValueIn(s, v)
  }

  lemma {:induction false} LayersSolve(sn: Snapshot, k: nat, s: Symbol)
    requires sn.Ok() && s in sn.defs && sn.rank(s) < k
    ensures Layers(sn, k)[s] == sn.ValueIn(s, Layers(sn, k))
  {
    var (v, w) := (Layers(sn, k - 1), Layers(sn, k));
    if sn.rank(s) < k - 1 {
      LayersSolve(sn, k - 1, s);
    }
    assert AgreeBelow(sn.defs, sn.rank, v, w, k - 1);
    ValueAgrees(sn, s, v, w);
  }

  lemma {:induction false} RanksBounded(symbols: set<Symbol>, rank: Symbol -> nat) returns (k: nat)
    ensures forall s :: s in symbols ==> rank(s) < k
    decreases |symbols|
  {
    if symbols == {} {
      k := 0;
    } else {
      var s :| s in symbols;
      k := RanksBounded(symbols - {s}, rank);
      k := if rank(s) < k then k else rank(s) + 1;
    }
  }

  lemma SolutionExists(sn: Snapshot) returns (v: Values)
    requires sn.Ok()
    ensures sn.Solution(v)
  {
    var k := RanksBounded(sn.defs.Keys, sn.rank);
    v := Layers(sn, k);
    forall s | s in sn.defs ensures sn.Solved(s, v) {
      LayersSolve(sn, k, s);
    }
  }

  /** The values that follow from the declarations and settings. */
  ghost function Solve(sn: Snapshot): (v: Values)
    requires sn.Ok()
    ensures sn.Solution(v)
  {
    assert exists v :: sn.Solution(v) by {
      var v := SolutionExists(sn);
    }
    var v :| sn.Solution(v);
    v
  }

  // ----- Consequences -----

  lemma GroupOf(sn: Snapshot, s: Symbol)
    requires sn.Ok() && s in sn.defs
    ensures var g := sn.defs[s].group;
            g.Some? ==> g.value in sn.defs && g.value.Choice? && !s.Choice? && IsLogical(s) && IsLogical(g.value) &&
                        s in sn.defs[g.value].members && sn.rank(s) == sn.rank(g.value) + 1
  {
    var ok := SymbolOk(sn.defs, sn.modules, sn.rank, s);
    assert ok;
    if sn.defs[s].group.Some? {
      var ok' := SymbolOk(sn.defs, sn.modules, sn.rank, sn.defs[s].group.value);
      assert ok';
    }
  }

  /** No default is active under a choice of value n. */
  lemma {:induction false} NoDefaultUnder(ds: seq<Default>, c: Symbol, env: Env, i: nat)
    requires c.Choice? && IsLogical(c) && env.tri(c) == NO && i <= |ds|
    requires forall x :: x in ds ==> OptUnder(x.cond, c)
    ensures ActiveDefault(ds, env, i).None?
    decreases |ds| - i
  {
    if i < |ds| {
      assert ds[i] in ds;
      UnderBounds(ds[i].cond.value, c, env);
      NoDefaultUnder(ds, c, env, i + 1);
    }
  }

  /** The values of a choice of value n are n. */
  lemma MemberOfNo(sn: Snapshot, v: Values, c: Symbol, m: Symbol)
    requires sn.Solution(v) && c in sn.defs && c.Choice? && m in sn.defs[c].members && v[c].tri == NO
    ensures m in sn.defs && v[m] == BaseValue(m) && sn.Visibility(m, v) == NO
  {
    MemberOf(sn, c, m);
    MemberBelowChoice(sn, m, v);
    assert SymbolOk(sn.defs, sn.modules, sn.rank, m) && SymbolOk(sn.defs, sn.modules, sn.rank, c);
    NoDefaultUnder(sn.defs[m].defaults, c, EnvOf(v), 0);
    assert sn.Solved(m, v);
  }

  /** An invisible choice is n, which is also the value of its active default. */
  lemma InvisibleChoice(sn: Snapshot, v: Values, c: Symbol)
    requires sn.Solution(v) && c in sn.defs && c.Choice? && sn.Visibility(c, v) == NO
    ensures v[c].tri == NO && sn.RawValue(c, v) == BaseValue(c) == sn.DefaultValue(c, v)
    ensures var d := ActiveDefault(sn.defs[c].defaults, EnvOf(v), 0);
            d.Some? ==> d.value in sn.defs[c].members && d.value in sn.defs && v[d.value] == BaseValue(c)
  {
    assert SymbolOk(sn.defs, sn.modules, sn.rank, c);
    assert sn.Solved(c, v);
    var d := ActiveDefault(sn.defs[c].defaults, EnvOf(v), 0);
    if d.Some? {
      MemberOfNo(sn, v, c, d.value);
      MemberOf(sn, c, d.value);
      assert SymbolOk(sn.defs, sn.modules, sn.rank, d.value);
    }
  }

  /** `e` is the condition of one of the prompts or a conjunction with it. */
  predicate Guarded(e: Option<Expr>, prompts: seq<Option<Expr>>) {
    exists p :: p in prompts && (p.None? || e == p || (e.Some? && IsOp(And, e.value) && e.value.left == p.value))
  }

  /** The defaults of the choice are not active unless one of its prompts is. */
  predicate DefaultsGuarded(sn: Snapshot, c: Symbol)
    requires c in sn.defs
  {
    forall x :: x in sn.defs[c].defaults ==> Guarded(x.cond, sn.defs[c].prompts)
  }

  /** A choice whose defaults are guarded has no active default when it is not visible. */
  lemma InvisibleChoiceHasNoDefault(sn: Snapshot, c: Symbol, v: Values, i: nat)
    requires sn.Solution(v) && c in sn.defs && DefaultsGuarded(sn, c) && i <= |sn.defs[c].defaults|
    requires sn.Visibility(c, v) == NO
    ensures ActiveDefault(sn.defs[c].defaults, EnvOf(v), i).None?
    decreases |sn.defs[c].defaults| - i
  {
    if i < |sn.defs[c].defaults| {
      var x := sn.defs[c].defaults[i];
      assert x in sn.defs[c].defaults;
      GuardedBounds(x.cond, sn.defs[c].prompts, EnvOf(v));
      InvisibleChoiceHasNoDefault(sn, c, v, i + 1);
    }
  }

  lemma GuardedBounds(e: Option<Expr>, prompts: seq<Option<Expr>>, env: Env)
    requires Guarded(e, prompts)
    ensures EvalOpt(e, env) <= AnyOf(prompts, env)
  {
    var p :| p in prompts && (p.None? || e == p || (e.Some? && IsOp(And, e.value) && e.value.left == p.value));
    AnyOfBounds(prompts, p, env);
  }

  /** A choice value is at most as visible as its choice is set. */
  lemma MemberBelowChoice(sn: Snapshot, m: Symbol, v: Values)
    requires sn.Solution(v) && m in sn.defs && sn.defs[m].group.Some?
    ensures var c := sn.defs[m].group.value;
            c in sn.defs && c.Choice? && sn.rank(m) == sn.rank(c) + 1 && sn.Visibility(m, v) <= v[c].tri
  {
    assert SymbolOk(sn.defs, sn.modules, sn.rank, m);
    var c := sn.defs[m].group.value;
    assert SymbolOk(sn.defs, sn.modules, sn.rank, c);
    AnyOfUnder(sn.defs[m].prompts, c, EnvOf(v));
  }

  /** A calculated boolean is never m, and neither is a tristate while MODULES is n. */
  lemma CalculatedDefinite(sn: Snapshot, v: Values)
    requires sn.Solution(v)
    ensures BooleansDefinite(EnvOf(v))
    ensures Lookup(v, sn.modules).tri == NO ==> forall s :: s in sn.defs && IsLogical(s) ==> v[s].tri != MOD
  {
    forall s | s in sn.defs
      ensures TypeOf(s) == Boolean ==> v[s].tri != MOD
      ensures Lookup(v, sn.modules).tri == NO && IsLogical(s) ==> v[s].tri != MOD
    {
      assert sn.Solved(s, v);
    }
  }
}
