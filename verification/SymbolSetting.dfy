/** What setting a symbol does to the values of all symbols. */
module SymbolSetting {
  import opened Options
  import opened Tristate
  import opened Symbols
  import opened Expressions
  import opened SymbolSpec
  import opened SymbolText

  /** A choice the user has not touched is stored as n. */
  ghost predicate NewChoicesUnset(sn: Snapshot) {
    forall c {:trigger c in sn.isNew} :: c in sn.defs && c in sn.def && c.Choice? && c in sn.isNew ==> sn.def[c].tri == NO
  }

  /** A number or string is new as long as no text is stored for it, and a stored text is valid. */
  ghost predicate NewTextsUnset(sn: Snapshot) {
    forall s {:trigger TextOk(sn, s)} :: s in sn.defs && s in sn.def && !IsLogical(s) ==> TextOk(sn, s)
  }

  ghost predicate TextOk(sn: Snapshot, s: Symbol)
    requires s in sn.def
  {
    sn.def[s].tri == NO &&
    if s in sn.isNew then sn.def[s].text.None?
    else sn.def[s].text.Some? && TextValid(TypeOf(s), sn.def[s].text.value)
  }

  ghost predicate SettingsOk(sn: Snapshot) {
    sn.Ok() && NewChoicesUnset(sn) && NewTextsUnset(sn)
  }

  lemma TextIsOk(sn: Snapshot, s: Symbol)
    requires NewTextsUnset(sn) && s in sn.defs && s in sn.def && !IsLogical(s)
    ensures TextOk(sn, s)
  {
    var ok := TextOk(sn, s);
    assert ok;
  }

  lemma SettingsDomains(sn: Snapshot)
    requires SettingsOk(sn)
    ensures sn.def.Keys == sn.stored.Keys == sn.defs.Keys
    ensures forall s :: s in sn.defs && !IsLogical(s) ==> TextOk(sn, s)
  {
    forall s | s in sn.defs && !IsLogical(s) ensures TextOk(sn, s) {
      TextIsOk(sn, s);
    }
  }

  /** Nothing set yet. */
  function Initial(defs: Defs, modules: Symbol, rank: Symbol -> nat): Snapshot {
    Snapshot(defs, modules, rank, map s | s in defs :: Value(None, NO), defs.Keys, map s | s in defs :: None)
  }

  lemma InitialOk(defs: Defs, modules: Symbol, rank: Symbol -> nat)
    requires modules.Config? && (TypeOf(modules) == Unknown ==> modules !in defs)
    requires forall s :: s in defs ==> SymbolOk(defs, modules, rank, s)
    ensures SettingsOk(Initial(defs, modules, rank))
  {
    var sn := Initial(defs, modules, rank);
    assert sn.def.Keys == defs.Keys;
    assert sn.stored.Keys == defs.Keys;
  }

  /** sym_tristate_within_range, given the values `v`. */
  predicate WithinRange(sn: Snapshot, v: Values, s: Symbol, val: Tri)
    requires s in sn.defs
  {
    var vis := sn.Visibility(s, v);
    vis != NO && IsLogical(s) &&
    if val == YES then !sn.ModAvailable(s, v) || vis == YES
    else !(sn.defs[s].group.Some? && vis == YES) && if val == NO then sn.defs[s].optional else sn.ModAvailable(s, v)
  }

  /** The user settings after a successful sym_set_tristate_value. */
  function AfterSet(sn: Snapshot, s: Symbol, val: Tri): Snapshot
    requires s in sn.defs && s in sn.def
  {
    var g := sn.defs[s].group;
    var moves := g.Some? && val == YES;
    sn.(def := sn.def[s := sn.def[s].(tri := val)],
        isNew := sn.isNew - {s} - (if moves then {g.value} else {}),
        stored := if moves then sn.stored[g.value := Some(s)] else sn.stored)
  }

  /** The user settings after a successful sym_set_string_value of a number or string. */
  function AfterSetText(sn: Snapshot, s: Symbol, text: string): Snapshot
    requires s in sn.def
  {
    var stored := if TypeOf(s) == Hex && !HasHexPrefix(text) then "0x" + text else text;
    sn.(def := sn.def[s := sn.def[s].(text := Some(stored))], isNew := sn.isNew - {s})
  }

  lemma AfterSetTextOk(sn: Snapshot, s: Symbol, text: string)
    requires s in sn.defs && !IsLogical(s) && SettingsOk(sn) && TextValid(TypeOf(s), text)
    ensures SettingsOk(AfterSetText(sn, s, text))
  {
    if TypeOf(s) == Hex && !HasHexPrefix(text) {
      HexPrefixValid(text);
    }
    var sn' := AfterSetText(sn, s, text);
    forall t | t in sn'.defs ensures SymbolOk(sn'.defs, sn'.modules, sn'.rank, t) {
      var ok := SymbolOk(sn.defs, sn.modules, sn.rank, t);
      assert ok;
    }
    forall t | t in sn'.defs && t in sn'.def && !IsLogical(t) ensures TextOk(sn', t) {
      TextIsOk(sn, t);
    }
    assert sn'.def.Keys == sn.def.Keys;
  }

  lemma AfterSetOk(sn: Snapshot, s: Symbol, val: Tri)
    requires sn.Ok() && s in sn.defs && NewChoicesUnset(sn)
    ensures AfterSet(sn, s, val).Ok() && NewChoicesUnset(AfterSet(sn, s, val))
  {
    var sn' := AfterSet(sn, s, val);
    var g := sn.defs[s].group;
    var ok := SymbolOk(sn.defs, sn.modules, sn.rank, s);
    assert ok;
    forall t | t in sn'.defs ensures SymbolOk(sn'.defs, sn'.modules, sn'.rank, t) {
      var ok := SymbolOk(sn.defs, sn.modules, sn.rank, t);
      assert ok;
    }
    assert sn'.def.Keys == sn.def.Keys;
    assert sn'.stored.Keys == sn.stored.Keys;
  }

  lemma AfterSetSettingsOk(sn: Snapshot, s: Symbol, val: Tri)
    requires SettingsOk(sn) && s in sn.defs && IsLogical(s)
    ensures SettingsOk(AfterSet(sn, s, val))
  {
    AfterSetOk(sn, s, val);
    GroupOf(sn, s);
    var sn' := AfterSet(sn, s, val);
    forall t | t in sn'.defs && t in sn'.def && !IsLogical(t)
      ensures TextOk(sn', t)
    {
      TextIsOk(sn, t);
    }
  }

  /** Setting `s` does not change how other symbols follow from the values, except through a choice. */
  lemma OthersFollow(sn: Snapshot, s: Symbol, val: Tri, t: Symbol, v: Values)
    requires sn.Ok() && s in sn.defs && NewChoicesUnset(sn)
    requires t in sn.defs && t != s
    requires val == YES && sn.defs[s].group.Some? ==> sn.defs[t].group != sn.defs[s].group
    ensures AfterSet(sn, s, val).ValueIn(t, v) == sn.ValueIn(t, v)
  {
    var sn' := AfterSet(sn, s, val);
    GroupOf(sn, s);
    GroupOf(sn, t);
    if sn.defs[t].group.Some? {
      SelectionSame(sn, sn', sn.defs[t].group.value, v);
    }
    VisibleSame(sn, s, val, t, v);
    assert sn'.DefaultValue(t, v) == sn.DefaultValue(t, v);
  }

  lemma VisibleSame(sn: Snapshot, s: Symbol, val: Tri, t: Symbol, v: Values)
    requires sn.Ok() && s in sn.defs && NewChoicesUnset(sn)
    requires t in sn.defs && t != s
    ensures var (x, y) := (sn.VisibleValue(t, v), AfterSet(sn, s, val).VisibleValue(t, v));
            x.tri == y.tri && (IsLogical(t) || x.text == y.text)
  {
    var sn' := AfterSet(sn, s, val);
    GroupOf(sn, s);
    var ok := SymbolOk(sn.defs, sn.modules, sn.rank, t);
    assert ok;
    assert sn'.DefaultValue(t, v) == sn.DefaultValue(t, v);
    if t in sn.isNew && t !in sn'.isNew {
      assert t.Choice? && sn.def[t].tri == NO;
    }
  }

  lemma SelectionSame(sn: Snapshot, sn': Snapshot, c: Symbol, v: Values)
    requires sn'.defs == sn.defs && c in sn.defs && c in sn.stored && c in sn'.stored && sn'.stored[c] == sn.stored[c]
    ensures sn'.Selection(c, v) == sn.Selection(c, v)
  {
    FirstDefaultSame(sn, sn', c, v, 0);
    FirstMemberSame(sn, sn', c, v, 0);
  }

  lemma FirstDefaultSame(sn: Snapshot, sn': Snapshot, c: Symbol, v: Values, i: nat)
    requires sn'.defs == sn.defs && c in sn.defs && i <= |sn.defs[c].defaults|
    ensures sn'.FirstDefault(c, v, i) == sn.FirstDefault(c, v, i)
    decreases |sn.defs[c].defaults| - i
  {
    if i < |sn.defs[c].defaults| {
      FirstDefaultSame(sn, sn', c, v, i + 1);
    }
  }

  lemma FirstMemberSame(sn: Snapshot, sn': Snapshot, c: Symbol, v: Values, i: nat)
    requires sn'.defs == sn.defs && c in sn.defs && i <= |sn.defs[c].members|
    ensures sn'.FirstMember(c, v, i) == sn.FirstMember(c, v, i)
    decreases |sn.defs[c].members| - i
  {
    if i < |sn.defs[c].members| {
      FirstMemberSame(sn, sn', c, v, i + 1);
    }
  }

  /** Setting a symbol leaves every symbol of lower rank as it was. */
  lemma LowerUnaffected(sn: Snapshot, s: Symbol, val: Tri, v: Values, v': Values)
    requires s in sn.defs && NewChoicesUnset(sn) && sn.Solution(v) && AfterSet(sn, s, val).Solution(v')
    ensures AgreeBelow(sn.defs, sn.rank, v, v', sn.rank(s))
  {
    forall t | t in sn.defs && sn.rank(t) < sn.rank(s) ensures Lookup(v, t) == Lookup(v', t) {
      LowerUnaffectedAt(sn, s, val, v, v', t);
    }
  }

  lemma {:induction false} LowerUnaffectedAt(sn: Snapshot, s: Symbol, val: Tri, v: Values, v': Values, t: Symbol)
    requires s in sn.defs && NewChoicesUnset(sn) && sn.Solution(v) && AfterSet(sn, s, val).Solution(v')
    requires t in sn.defs && sn.rank(t) < sn.rank(s)
    ensures v[t] == v'[t]
    decreases sn.rank(t)
  {
    var sn' := AfterSet(sn, s, val);
    forall u | u in sn.defs && sn.rank(u) < sn.rank(t) ensures Lookup(v, u) == Lookup(v', u) {
      LowerUnaffectedAt(sn, s, val, v, v', u);
    }
    GroupOf(sn, s);
    GroupOf(sn, t);
    ValueAgrees(sn, t, v, v');
    OthersFollow(sn, s, val, t, v');
    var solved := sn.Solved(t, v) && sn'.Solved(t, v');
    assert solved;
  }

  /** A successful set is what the next calculation finds. */
  lemma SetObserved(sn: Snapshot, s: Symbol, val: Tri, v: Values, v': Values)
    requires s in sn.defs && NewChoicesUnset(sn) && sn.Solution(v) && AfterSet(sn, s, val).Solution(v')
    requires WithinRange(sn, v, s, val)
    ensures v'[s].tri == val
    ensures sn.Visibility(s, v') == sn.Visibility(s, v)
  {
    var sn' := AfterSet(sn, s, val);
    LowerUnaffected(sn, s, val, v, v');
    GroupOf(sn, s);
    VisibilityAgrees(sn, s, v, v');
    ModAvailableAgrees(sn, s, v, v');
    var solved := sn'.Solved(s, v');
    assert solved;
  }

  /** Setting a choice value of visibility y to y moves the choice: the others of visibility y become n. */
  lemma SetMovesChoice(sn: Snapshot, s: Symbol, v: Values, v': Values, t: Symbol)
    requires s in sn.defs && NewChoicesUnset(sn) && sn.Solution(v) && AfterSet(sn, s, YES).Solution(v')
    requires sn.defs[s].group.Some? && sn.Visibility(s, v) == YES
    requires t in sn.defs && t != s && sn.defs[t].group == sn.defs[s].group
    ensures v'[s].tri == YES && AfterSet(sn, s, YES).Selection(sn.defs[s].group.value, v') == Some(s)
    ensures sn.Visibility(t, v') == YES ==> v'[t].tri == NO
  {
    var sn' := AfterSet(sn, s, YES);
    LowerUnaffected(sn, s, YES, v, v');
    GroupOf(sn, s);
    VisibilityAgrees(sn, s, v, v');
    var solved := sn'.Solved(s, v') && sn'.Solved(t, v');
    assert solved;
  }

  /** Of the choice values of visibility y exactly the selected one is y. */
  lemma ChoiceExclusive(sn: Snapshot, v: Values, c: Symbol, m: Symbol)
    requires sn.Solution(v) && c in sn.defs && c.Choice? && m in sn.defs[c].members
    requires m in sn.defs && sn.Visibility(m, v) == YES
    ensures v[m].tri == if sn.Selection(c, v) == Some(m) then YES else NO
    ensures v[c].tri == YES
    ensures sn.stored[c] == Some(m) ==> v[m].tri == YES
  {
    MemberOf(sn, c, m);
    MemberBelowChoice(sn, m, v);
    var solved := sn.Solved(m, v);
    assert solved;
  }

  /** A choice selects a visible choice value whenever there is one. */
  lemma SelectionVisible(sn: Snapshot, v: Values, c: Symbol)
    requires sn.Solution(v) && c in sn.defs && c.Choice?
    ensures var x := sn.Selection(c, v);
            if x.Some? then x.value in sn.defs[c].members && sn.Visibility(x.value, v) != NO
            else forall m :: m in sn.defs[c].members ==> sn.Visibility(m, v) == NO
  {
    var ok := SymbolOk(sn.defs, sn.modules, sn.rank, c);
    assert ok;
    FirstDefaultVisible(sn, v, c, 0);
    FirstMemberVisible(sn, v, c, 0);
  }

  lemma {:induction false} FirstDefaultVisible(sn: Snapshot, v: Values, c: Symbol, i: nat)
    requires sn.Ok() && c in sn.defs && c.Choice? && i <= |sn.defs[c].defaults|
    ensures var x := sn.FirstDefault(c, v, i);
            x.Some? ==> x.value in sn.defs[c].members && sn.Visibility(x.value, v) != NO
    decreases |sn.defs[c].defaults| - i
  {
    if i < |sn.defs[c].defaults| {
      var ok := SymbolOk(sn.defs, sn.modules, sn.rank, c);
      assert ok;
      assert sn.defs[c].defaults[i] in sn.defs[c].defaults;
      FirstDefaultVisible(sn, v, c, i + 1);
    }
  }

  lemma {:induction false} FirstMemberVisible(sn: Snapshot, v: Values, c: Symbol, i: nat)
    requires c in sn.defs && i <= |sn.defs[c].members|
    ensures var x := sn.FirstMember(c, v, i);
            if x.Some? then x.value in sn.defs[c].members && sn.Visibility(x.value, v) != NO
            else forall k :: i <= k < |sn.defs[c].members| ==> sn.Visibility(sn.defs[c].members[k], v) == NO
    decreases |sn.defs[c].members| - i
  {
    if i < |sn.defs[c].members| {
      FirstMemberVisible(sn, v, c, i + 1);
    }
  }

  // ----- Setting a symbol to the value it has -----

  /**
   * Setting `s` to `val` leaves the selection of its choice alone: the choice is not y, or it
   * selects `s` anyway, or `s` is invisible and the choice was left to itself before.
   */
  predicate KeepsSelection(sn: Snapshot, s: Symbol, val: Tri, v: Values)
    requires s in sn.defs
  {
    var g := sn.defs[s].group;
    val == YES && g.Some? && g.value in sn.defs && g.value in sn.stored && Lookup(v, g.value).tri == YES ==>
      sn.Selection(g.value, v) == if sn.Visibility(s, v) != NO then Some(s) else sn.OwnSelection(g.value, v)
  }

  /** Setting a symbol to its value changes no value, if a choice of y keeps its selection. */
  lemma SetToCurrentKeeps(sn: Snapshot, s: Symbol, v: Values)
    requires s in sn.defs && NewChoicesUnset(sn) && sn.Solution(v) && IsLogical(s)
    requires KeepsSelection(sn, s, v[s].tri, v)
    ensures AfterSet(sn, s, v[s].tri).Solution(v)
  {
    var val := v[s].tri;
    var sn' := AfterSet(sn, s, val);
    AfterSetOk(sn, s, val);
    forall t | t in sn.defs ensures sn'.Solved(t, v) {
      var solved := sn.Solved(t, v);
      assert solved;
      if t == s {
        CurrentFollows(sn, s, v);
      } else if val == YES && sn.defs[s].group.Some? && sn.defs[t].group == sn.defs[s].group {
        SiblingFollows(sn, s, t, v);
      } else {
        OthersFollow(sn, s, val, t, v);
      }
    }
  }

  lemma CurrentFollows(sn: Snapshot, s: Symbol, v: Values)
    requires s in sn.defs && NewChoicesUnset(sn) && sn.Solution(v) && IsLogical(s)
    requires KeepsSelection(sn, s, v[s].tri, v)
    ensures AfterSet(sn, s, v[s].tri).ValueIn(s, v) == v[s]
  {
    var sn' := AfterSet(sn, s, v[s].tri);
    GroupOf(sn, s);
    var solved := sn.Solved(s, v);
    assert solved;
    var g := sn.defs[s].group;
    if g.Some? {
      MemberBelowChoice(sn, s, v);
      if v[s].tri != YES {
        SelectionSame(sn, sn', g.value, v);
      }
    }
    if sn.Visibility(s, v) == NO {
      assert sn'.DefaultValue(s, v) == sn.DefaultValue(s, v);
    }
  }

  /** Once `s` is stored, its choice selects it if it is visible and is left to itself if not. */
  lemma StoredSelection(sn: Snapshot, s: Symbol, v: Values)
    requires sn.Ok() && s in sn.defs && sn.defs[s].group.Some?
    ensures var g := sn.defs[s].group.value;
            g in sn.defs && g in sn.stored && g in AfterSet(sn, s, YES).stored &&
            AfterSet(sn, s, YES).Selection(g, v) ==
              if sn.Visibility(s, v) != NO then Some(s) else sn.OwnSelection(g, v)
  {
    GroupOf(sn, s);
    FirstDefaultSame(sn, AfterSet(sn, s, YES), sn.defs[s].group.value, v, 0);
    FirstMemberSame(sn, AfterSet(sn, s, YES), sn.defs[s].group.value, v, 0);
  }

  lemma SiblingFollows(sn: Snapshot, s: Symbol, t: Symbol, v: Values)
    requires s in sn.defs && t in sn.defs && t != s && NewChoicesUnset(sn) && sn.Solution(v)
    requires sn.defs[s].group.Some? && sn.defs[t].group == sn.defs[s].group && KeepsSelection(sn, s, YES, v)
    ensures AfterSet(sn, s, YES).ValueIn(t, v) == sn.ValueIn(t, v)
  {
    var sn' := AfterSet(sn, s, YES);
    GroupOf(sn, s);
    GroupOf(sn, t);
    MemberBelowChoice(sn, t, v);
    StoredSelection(sn, s, v);
    VisibleSame(sn, s, YES, t, v);
    assert sn'.DefaultValue(t, v) == sn.DefaultValue(t, v);
  }

  /** All that is cached, values and selections, is still right after setting `s` to its value. */
  ghost predicate StillRight(sn: Snapshot, sn': Snapshot, v: Values)
    requires sn.Ok() && sn'.Ok() && sn'.defs == sn.defs
  {
    sn'.Solution(v) &&
    forall c :: c in sn.defs && c.Choice? && Lookup(v, c).tri == YES ==> sn'.Selection(c, v) == sn.Selection(c, v)
  }

  /** Skipping the invalidation is right exactly when the selection of the choice is not touched. */
  lemma SetToCurrentKeepsIff(sn: Snapshot, s: Symbol, v: Values)
    requires s in sn.defs && NewChoicesUnset(sn) && sn.Solution(v) && IsLogical(s)
    ensures AfterSet(sn, s, v[s].tri).Ok()
    ensures StillRight(sn, AfterSet(sn, s, v[s].tri), v) <==> KeepsSelection(sn, s, v[s].tri, v)
  {
    var sn' := AfterSet(sn, s, v[s].tri);
    AfterSetOk(sn, s, v[s].tri);
    GroupOf(sn, s);
    var g := sn.defs[s].group;
    if g.Some? && v[s].tri == YES {
      StoredSelection(sn, s, v);
    }
    if KeepsSelection(sn, s, v[s].tri, v) {
      SetToCurrentKeeps(sn, s, v);
      forall c | c in sn.defs && c.Choice? && Lookup(v, c).tri == YES
        ensures sn'.Selection(c, v) == sn.Selection(c, v)
      {
        if !(g == Some(c) && v[s].tri == YES) {
          SelectionSame(sn, sn', c, v);
        }
      }
    }
  }

  lemma StillRightSolution(sn: Snapshot, sn': Snapshot, v: Values)
    requires sn.Solution(v) && sn'.Ok() && sn'.defs == sn.defs && StillRight(sn, sn', v)
    ensures Solve(sn') == v
    ensures forall s :: s in sn.defs && s.Choice? && v[s].tri == YES ==> sn'.Selection(s, v) == sn.Selection(s, v)
  {
    SolutionUnique(sn', v, Solve(sn'));
    assert forall s :: s in sn.defs ==> Lookup(v, s) == v[s];
  }
}
