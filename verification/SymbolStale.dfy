/** Declarations with which setting a symbol to its value leaves the cache of sym_calc_value stale. */
module SymbolStale {
  import opened Options
  import opened Tristate
  import opened Symbols
  import opened Expressions
  import opened SymbolSpec
  import opened SymbolSetting

  const EITHER: Symbol := Choice(0, Boolean)
  const FIRST: Symbol := Config("FIRST", Boolean)
  const SECOND: Symbol := Config("SECOND", Boolean)

  const FIRST_PROMPT: Expr := Sym(EITHER)
  const SECOND_PROMPT: Expr := Bin(And, Sym(EITHER), Sym(ConstMod))

  /** A choice between FIRST and SECOND, of which SECOND has a prompt with the condition m. */
  function EitherDefs(): Defs {
    map[EITHER := SymbolDef([None], [], false, None, [FIRST, SECOND]),
        FIRST := SymbolDef([Some(FIRST_PROMPT)], [], true, Some(EITHER), []),
        SECOND := SymbolDef([Some(SECOND_PROMPT)], [], true, Some(EITHER), [])]
  }

  function EitherRank(s: Symbol): nat {
    if s.Choice? then 0 else 1
  }

  /** SECOND has been set to y and then FIRST, and there is no MODULES. */
  function EitherSet(): Snapshot {
    Snapshot(EitherDefs(), Config("MODULES", Unknown), EitherRank,
             map[EITHER := Value(None, NO), FIRST := Value(None, YES), SECOND := Value(None, YES)], {},
             map[EITHER := Some(FIRST), FIRST := None, SECOND := None])
  }

  lemma EitherReached()
    ensures var sn := Initial(EitherDefs(), Config("MODULES", Unknown), EitherRank);
            SECOND in sn.def && FIRST in AfterSet(sn, SECOND, YES).def &&
            AfterSet(AfterSet(sn, SECOND, YES), FIRST, YES) == EitherSet()
  {
    var sn := Initial(EitherDefs(), Config("MODULES", Unknown), EitherRank);
    assert sn.isNew == {EITHER, FIRST, SECOND};
    var sn2 := AfterSet(AfterSet(sn, SECOND, YES), FIRST, YES);
    assert sn2.isNew == {};
    assert sn2.def == EitherSet().def && sn2.stored == EitherSet().stored;
  }

  function EitherValues(): Values {
    map[EITHER := Value(None, YES), FIRST := Value(None, YES), SECOND := Value(None, YES)]
  }

  lemma EitherOk()
    ensures SettingsOk(EitherSet())
  {
    var (defs, modules) := (EitherDefs(), Config("MODULES", Unknown));
    FirstOk();
    SecondOk();
    EitherReached();
    hide SymbolOk, SettingsOk, AfterSet;
    InitialOk(defs, modules, EitherRank);
    BothSet(Initial(defs, modules, EitherRank));
  }

  lemma BothSet(sn: Snapshot)
    requires SettingsOk(sn) && sn.defs == EitherDefs()
    ensures SECOND in sn.def && FIRST in AfterSet(sn, SECOND, YES).def
    ensures SettingsOk(AfterSet(AfterSet(sn, SECOND, YES), FIRST, YES))
  {
    AfterSetSettingsOk(sn, SECOND, YES);
    hide SettingsOk;
    AfterSetSettingsOk(AfterSet(sn, SECOND, YES), FIRST, YES);
  }

  lemma FirstOk()
    ensures SymbolOk(EitherDefs(), Config("MODULES", Unknown), EitherRank, EITHER)
    ensures SymbolOk(EitherDefs(), Config("MODULES", Unknown), EitherRank, FIRST)
  {
    assert Under(FIRST_PROMPT, EITHER);
  }

  lemma SecondOk()
    ensures SymbolOk(EitherDefs(), Config("MODULES", Unknown), EitherRank, SECOND)
  {
    var defs := EitherDefs();
    assert Under(Sym(EITHER), EITHER) && Under(SECOND_PROMPT, EITHER);
    assert ExprBelow(Sym(EITHER), defs, EitherRank, 1) && ExprBelow(Sym(ConstMod), defs, EitherRank, 1);
    assert ExprBelow(SECOND_PROMPT, defs, EitherRank, 1);
  }

  lemma EitherVisibility()
    ensures var (sn, v) := (EitherSet(), EitherValues());
            sn.Visibility(EITHER, v) == YES && sn.Visibility(FIRST, v) == YES && sn.Visibility(SECOND, v) == MOD
  {
    var env := EnvOf(EitherValues());
    AnyOfStep([None], 0, env);
    AnyOfStep([Some(FIRST_PROMPT)], 0, env);
    AnyOfStep([Some(SECOND_PROMPT)], 0, env);
    assert Eval(FIRST_PROMPT, env) == YES && Eval(Sym(ConstMod), env) == MOD;
  }

  /** The choice selects FIRST, which was set last. */
  lemma EitherSelects()
    ensures EitherSet().Selection(EITHER, EitherValues()) == Some(FIRST)
  {
    EitherVisibility();
    hide Snapshot.Visibility;
  }

  /** All three are y: SECOND is m at best, and being a boolean it is y then. */
  lemma EitherSolution()
    ensures EitherSet().Solution(EitherValues())
  {
    var (sn, v) := (EitherSet(), EitherValues());
    EitherOk();
    assert sn.Ok();
    hide Snapshot.Ok;
    EitherSolved();
    FirstSolved();
    SecondSolved();
    hide Snapshot.Solved;
    assert sn.defs.Keys == {EITHER, FIRST, SECOND};
  }

  lemma EitherSolved()
    requires EitherSet().Ok()
    ensures EitherSet().Solved(EITHER, EitherValues())
  {
    EitherVisibility();
    hide Snapshot.Visibility, Snapshot.Ok;
  }

  lemma FirstSolved()
    requires EitherSet().Ok()
    ensures EitherSet().Solved(FIRST, EitherValues())
  {
    EitherVisibility();
    EitherSelects();
    hide Snapshot.Visibility, Snapshot.Selection, Snapshot.Ok;
  }

  lemma SecondSolved()
    requires EitherSet().Ok()
    ensures EitherSet().Solved(SECOND, EitherValues())
  {
    EitherVisibility();
    hide Snapshot.Visibility, Snapshot.Ok;
  }

  /**
   * SECOND has the value y; setting it to y invalidates nothing, but the choice no longer selects
   * FIRST afterwards, so the cached selection and values are not what has been set.
   */
  lemma SetToCurrentStale()
    ensures var (sn, v) := (EitherSet(), EitherValues());
            SettingsOk(sn) && sn.Solution(v) && v[SECOND].tri == YES && WithinRange(sn, v, SECOND, YES) && !KeepsSelection(sn, SECOND, YES, v) &&
            AfterSet(sn, SECOND, YES).Ok() && !StillRight(sn, AfterSet(sn, SECOND, YES), v) &&
            sn.Selection(EITHER, v) == Some(FIRST) && AfterSet(sn, SECOND, YES).Selection(EITHER, v) == Some(SECOND)
  {
    var (sn, v) := (EitherSet(), EitherValues());
    EitherOk();
    EitherVisibility();
    EitherSelects();
    EitherSolution();
    assert sn.Ok() && NewChoicesUnset(sn);
    hide Snapshot.Visibility, Snapshot.Selection, Snapshot.Solution, Snapshot.Ok, SettingsOk, StillRight, AfterSet;
    SetToCurrentKeepsIff(sn, SECOND, v);
    StoredSelection(sn, SECOND, v);
  }
}
