/** The values of symbols said case by case, from the prompts, defaults and settings alone. */
module SymbolValues {
  import opened Options
  import opened Tristate
  import opened Symbols
  import opened Expressions
  import opened SymbolSpec
  import opened SymbolText
  import opened SymbolSetting

  // ----- Prompts and defaults -----

  /** The visibility is the largest of the prompt conditions, and n without prompts. */
  lemma VisibilityIsLargest(sn: Snapshot, s: Symbol, v: Values)
    requires s in sn.defs
    ensures forall e :: e in sn.defs[s].prompts ==> EvalOpt(e, EnvOf(v)) <= sn.Visibility(s, v)
    ensures sn.Visibility(s, v) == NO || exists e :: e in sn.defs[s].prompts && EvalOpt(e, EnvOf(v)) == sn.Visibility(s, v)
  {
    LargestReached(sn.defs[s].prompts, EnvOf(v));
    forall e | e in sn.defs[s].prompts ensures EvalOpt(e, EnvOf(v)) <= sn.Visibility(s, v) {
      AnyOfBounds(sn.defs[s].prompts, e, EnvOf(v));
    }
  }

  lemma {:induction false} LargestReached(es: seq<Option<Expr>>, env: Env)
    ensures AnyOf(es, env) == NO || exists e :: e in es && EvalOpt(e, env) == AnyOf(es, env)
  {
    if es != [] {
      LargestReached(es[..|es| - 1], env);
      assert es[|es| - 1] in es;
    }
  }

  /** The default `i` is the first whose condition is not n. */
  predicate FirstActive(ds: seq<Default>, env: Env, i: nat) {
    i < |ds| && EvalOpt(ds[i].cond, env) != NO && forall j :: 0 <= j < i ==> EvalOpt(ds[j].cond, env) == NO
  }

  predicate NoneActive(ds: seq<Default>, env: Env) {
    forall j :: 0 <= j < |ds| ==> EvalOpt(ds[j].cond, env) == NO
  }

  lemma {:induction false} ActiveDefaultIs(ds: seq<Default>, env: Env, k: nat)
    requires k <= |ds| && forall j :: 0 <= j < k ==> EvalOpt(ds[j].cond, env) == NO
    ensures forall i: nat :: FirstActive(ds, env, i) ==> ActiveDefault(ds, env, k) == Some(ds[i].def)
    ensures NoneActive(ds, env) ==> ActiveDefault(ds, env, k).None?
    ensures (exists i: nat :: FirstActive(ds, env, i)) || NoneActive(ds, env)
    decreases |ds| - k
  {
    if k < |ds| {
      if EvalOpt(ds[k].cond, env) == NO {
        ActiveDefaultIs(ds, env, k + 1);
      } else {
        assert FirstActive(ds, env, k);
        assert forall i: nat :: FirstActive(ds, env, i) ==> i == k;
      }
    }
  }

  /** A symbol is written out if some prompt is visible or some default active. */
  lemma WrittenIff(sn: Snapshot, s: Symbol, v: Values)
    requires s in sn.defs
    ensures sn.Written(s, v) <==>
              (exists e :: e in sn.defs[s].prompts && EvalOpt(e, EnvOf(v)) != NO) ||
              (exists x :: x in sn.defs[s].defaults && EvalOpt(x.cond, EnvOf(v)) != NO)
  {
    var (ds, env) := (sn.defs[s].defaults, EnvOf(v));
    VisibilityIsLargest(sn, s, v);
    ActiveDefaultIs(ds, env, 0);
    hide Snapshot.Visibility, ActiveDefault;
    if !NoneActive(ds, env) {
      var i: nat :| FirstActive(ds, env, i);
      assert ds[i] in ds;
    }
  }

  // ----- Values -----

  /** m can be had: the symbol is tristate, not a choice value of visibility y, and MODULES is not n. */
  predicate ModUsable(sn: Snapshot, s: Symbol, v: Values)
    requires s in sn.defs
  {
    TypeOf(s) == ThreeState && !(sn.defs[s].group.Some? && sn.Visibility(s, v) == YES) && Lookup(v, sn.modules).tri != NO
  }

  /** Where m cannot be had it becomes y. */
  function Rounded(sn: Snapshot, s: Symbol, v: Values, x: Tri): Tri
    requires s in sn.defs
  {
    if x == MOD && IsLogical(s) && !ModUsable(sn, s, v) then YES else x
  }

  /** `w` is what the user has set or, if nothing, the value of the first active default. */
  ghost predicate Wanted(sn: Snapshot, s: Symbol, v: Values, w: Tri)
    requires s in sn.defs && s in sn.def
  {
    var (ds, env) := (sn.defs[s].defaults, EnvOf(v));
    if s !in sn.isNew then w == sn.def[s].tri
    else if s.Choice? then w == NO
    else (NoneActive(ds, env) && w == NO) || exists i: nat :: FirstActive(ds, env, i) && w == Lookup(v, ds[i].def).tri
  }

  /** m is possible only where it can be had, and then a visible value is limited by the visibility. */
  lemma LimitedByVisibility(sn: Snapshot, v: Values, s: Symbol)
    requires sn.Solution(v) && s in sn.defs && IsLogical(s)
    ensures v[s].tri == MOD ==> ModUsable(sn, s, v)
    ensures sn.Visibility(s, v) != NO && ModUsable(sn, s, v) ==> v[s].tri <= sn.Visibility(s, v)
  {
    var solved := sn.Solved(s, v);
    assert solved;
    GroupOf(sn, s);
  }

  /** A visible symbol has the value wanted if that is within its visibility, and the visibility if it is more. */
  lemma ValueOfVisible(sn: Snapshot, v: Values, s: Symbol, w: Tri)
    requires sn.Solution(v) && s in sn.defs && s in sn.def && sn.Visibility(s, v) != NO
    requires !(sn.defs[s].group.Some? && sn.Visibility(s, v) == YES) && Wanted(sn, s, v, w)
    ensures NO < w <= sn.Visibility(s, v) ==> v[s].tri == Rounded(sn, s, v, w)
    ensures w > sn.Visibility(s, v) ==> v[s].tri == Rounded(sn, s, v, sn.Visibility(s, v))
    ensures w == NO ==> v[s].tri == if sn.defs[s].optional then NO else Rounded(sn, s, v, sn.Visibility(s, v))
  {
    var solved := sn.Solved(s, v);
    assert solved;
    ActiveDefaultIs(sn.defs[s].defaults, EnvOf(v), 0);
    hide Snapshot.Visibility, ActiveDefault, Snapshot.Ok;
  }

  /** An invisible symbol has the value of its first active default; an invisible choice is n. */
  lemma ValueOfInvisible(sn: Snapshot, v: Values, s: Symbol)
    requires sn.Solution(v) && s in sn.defs && sn.Visibility(s, v) == NO
    ensures s.Choice? || NoneActive(sn.defs[s].defaults, EnvOf(v)) ==> v[s].tri == NO
    ensures forall i: nat :: !s.Choice? && FirstActive(sn.defs[s].defaults, EnvOf(v), i) ==>
              v[s].tri == Rounded(sn, s, v, Lookup(v, sn.defs[s].defaults[i].def).tri)
  {
    var solved := sn.Solved(s, v);
    assert solved;
    ActiveDefaultIs(sn.defs[s].defaults, EnvOf(v), 0);
    hide Snapshot.Visibility, ActiveDefault, Snapshot.Ok;
  }

  /** A number or string has the text set by the user while it is visible, and else that of its first active default. */
  lemma TextOfSymbol(sn: Snapshot, v: Values, s: Symbol)
    requires sn.Solution(v) && s in sn.defs && s in sn.def && !IsLogical(s)
    ensures sn.Visibility(s, v) != NO && s !in sn.isNew ==> v[s].text == sn.def[s].text
    ensures sn.Visibility(s, v) == NO || s in sn.isNew ==>
              (NoneActive(sn.defs[s].defaults, EnvOf(v)) ==> v[s].text == Some("")) &&
              forall i: nat :: FirstActive(sn.defs[s].defaults, EnvOf(v), i) ==> v[s].text == Lookup(v, sn.defs[s].defaults[i].def).text
  {
    var solved := sn.Solved(s, v);
    assert solved;
    GroupOf(sn, s);
    NumbersAreNoChoices(sn, s);
    ActiveDefaultIs(sn.defs[s].defaults, EnvOf(v), 0);
    hide Snapshot.Visibility, ActiveDefault, Snapshot.Ok;
  }

  lemma NumbersAreNoChoices(sn: Snapshot, s: Symbol)
    requires sn.Ok() && s in sn.defs && !IsLogical(s)
    ensures !s.Choice?
  {
    var ok := SymbolOk(sn.defs, sn.modules, sn.rank, s);
    assert ok;
  }

  // ----- The selection of a choice -----

  /** Default `i` of the choice is the first that is active and names a visible choice value. */
  predicate FirstOffered(sn: Snapshot, c: Symbol, v: Values, i: nat)
    requires c in sn.defs
  {
    var ds := sn.defs[c].defaults;
    i < |ds| && Offered(sn, v, ds[i]) && forall j :: 0 <= j < i ==> !Offered(sn, v, ds[j])
  }

  predicate Offered(sn: Snapshot, v: Values, x: Default) {
    EvalOpt(x.cond, EnvOf(v)) != NO && sn.Visibility(x.def, v) != NO
  }

  lemma {:induction false} OfferedIs(sn: Snapshot, c: Symbol, v: Values, k: nat)
    requires c in sn.defs && k <= |sn.defs[c].defaults|
    requires forall j :: 0 <= j < k ==> !Offered(sn, v, sn.defs[c].defaults[j])
    ensures forall i: nat :: FirstOffered(sn, c, v, i) ==> sn.FirstDefault(c, v, k) == Some(sn.defs[c].defaults[i].def)
    ensures (forall x :: x in sn.defs[c].defaults ==> !Offered(sn, v, x)) ==> sn.FirstDefault(c, v, k).None?
    decreases |sn.defs[c].defaults| - k
  {
    var ds := sn.defs[c].defaults;
    if k < |ds| {
      if Offered(sn, v, ds[k]) {
        assert ds[k] in ds;
        assert forall i: nat :: FirstOffered(sn, c, v, i) ==> i == k;
      } else {
        OfferedIs(sn, c, v, k + 1);
      }
    }
  }

  /** Value `i` of the choice is the first visible one. */
  predicate FirstSeen(sn: Snapshot, c: Symbol, v: Values, i: nat)
    requires c in sn.defs
  {
    var ms := sn.defs[c].members;
    i < |ms| && sn.Visibility(ms[i], v) != NO && forall j :: 0 <= j < i ==> sn.Visibility(ms[j], v) == NO
  }

  lemma {:induction false} SeenIs(sn: Snapshot, c: Symbol, v: Values, k: nat)
    requires c in sn.defs && k <= |sn.defs[c].members|
    requires forall j :: 0 <= j < k ==> sn.Visibility(sn.defs[c].members[j], v) == NO
    ensures forall i: nat :: FirstSeen(sn, c, v, i) ==> sn.FirstMember(c, v, k) == Some(sn.defs[c].members[i])
    decreases |sn.defs[c].members| - k
  {
    var ms := sn.defs[c].members;
    if k < |ms| {
      if sn.Visibility(ms[k], v) == NO {
        SeenIs(sn, c, v, k + 1);
      } else {
        assert forall i: nat :: FirstSeen(sn, c, v, i) ==> i == k;
      }
    }
  }

  /**
   * A choice selects the value the user asked for if that is visible, else the first active default that
   * names a visible value, else its first visible value.
   */
  lemma SelectionIs(sn: Snapshot, c: Symbol, v: Values)
    requires c in sn.defs && c in sn.stored
    ensures sn.stored[c].Some? && sn.Visibility(sn.stored[c].value, v) != NO ==> sn.Selection(c, v) == sn.stored[c]
    ensures sn.stored[c].None? || sn.Visibility(sn.stored[c].value, v) == NO ==>
              (forall i: nat :: FirstOffered(sn, c, v, i) ==> sn.Selection(c, v) == Some(sn.defs[c].defaults[i].def)) &&
              ((forall x :: x in sn.defs[c].defaults ==> !Offered(sn, v, x)) ==>
                 forall i: nat :: FirstSeen(sn, c, v, i) ==> sn.Selection(c, v) == Some(sn.defs[c].members[i]))
  {
    OfferedIs(sn, c, v, 0);
    SeenIs(sn, c, v, 0);
  }

  /** Which choice value is y, then, among those of visibility y. */
  lemma ChosenIsYes(sn: Snapshot, v: Values, c: Symbol, m: Symbol, i: nat)
    requires sn.Solution(v) && c in sn.defs && c.Choice? && m in sn.defs[c].members && m in sn.defs && sn.Visibility(m, v) == YES
    requires c in sn.stored && (sn.stored[c].None? || sn.Visibility(sn.stored[c].value, v) == NO) && FirstOffered(sn, c, v, i)
    ensures v[m].tri == YES <==> m == sn.defs[c].defaults[i].def
  {
    SelectionIs(sn, c, v);
    hide Snapshot.Selection, FirstOffered, Snapshot.Visibility;
    ChoiceExclusive(sn, v, c, m);
  }

  // ----- Setting -----

  /** A set to another value is within range exactly if the next calculation finds it. */
  lemma SetObservedIff(sn: Snapshot, s: Symbol, val: Tri, v: Values, v': Values)
    requires s in sn.defs && NewChoicesUnset(sn) && sn.Solution(v) && AfterSet(sn, s, val).Solution(v')
    requires IsLogical(s) && val != v[s].tri
    ensures v'[s].tri == val <==> WithinRange(sn, v, s, val)
  {
    var sn' := AfterSet(sn, s, val);
    if WithinRange(sn, v, s, val) {
      SetObserved(sn, s, val, v, v');
    } else {
      LowerUnaffected(sn, s, val, v, v');
      GroupOf(sn, s);
      VisibilityAgrees(sn, s, v, v');
      ModAvailableAgrees(sn, s, v, v');
      var solved := sn.Solved(s, v) && sn'.Solved(s, v');
      assert solved;
      RefusedIsLost(sn, s, val, v, v');
    }
  }

  lemma RefusedIsLost(sn: Snapshot, s: Symbol, val: Tri, v: Values, v': Values)
    requires s in sn.defs && NewChoicesUnset(sn) && sn.Solution(v) && AfterSet(sn, s, val).Solution(v')
    requires IsLogical(s) && val != v[s].tri && !WithinRange(sn, v, s, val) && AgreeBelow(sn.defs, sn.rank, v, v', sn.rank(s))
    ensures v'[s].tri != val
  {
    var sn' := AfterSet(sn, s, val);
    GroupOf(sn, s);
    VisibilityAgrees(sn, s, v, v');
    ModAvailableAgrees(sn, s, v, v');
    if sn.Visibility(s, v) == NO && !s.Choice? {
      DefaultAgrees(sn, s, v, v');
    }
    if sn.defs[s].group.Some? && sn.Visibility(s, v) == YES && val != YES {
      SelectionSame(sn, sn', sn.defs[s].group.value, v');
      SelectionAgrees(sn, sn.defs[s].group.value, v, v');
    }
    var solved := sn.Solved(s, v) && sn'.Solved(s, v');
    assert solved;
  }

  /** Setting a symbol touches its own setting, and with y the selection of its choice, which is no longer new. */
  lemma SetTouches(sn: Snapshot, s: Symbol, val: Tri)
    requires sn.Ok() && s in sn.defs
    ensures var sn' := AfterSet(sn, s, val);
            sn'.defs == sn.defs && sn'.modules == sn.modules && sn'.def.Keys == sn.def.Keys && sn'.stored.Keys == sn.stored.Keys &&
            sn'.def[s].tri == val && s !in sn'.isNew &&
            (forall t :: t in sn.defs && t != s ==> sn'.def[t] == sn.def[t]) &&
            (forall t :: t in sn.defs && t != s && Some(t) != sn.defs[s].group ==> (t in sn'.isNew <==> t in sn.isNew) && sn'.stored[t] == sn.stored[t])
    ensures var (sn', g) := (AfterSet(sn, s, val), sn.defs[s].group);
            g.Some? && g.value in sn.defs ==>
              if val == YES then sn'.stored[g.value] == Some(s) && g.value !in sn'.isNew
              else sn'.stored[g.value] == sn.stored[g.value] && (g.value in sn'.isNew <==> g.value in sn.isNew)
  {
    GroupOf(sn, s);
  }

  /** The text set is what the next calculation finds, a hexadecimal number with its prefix. */
  lemma SetTextObserved(sn: Snapshot, s: Symbol, text: string, v': Values)
    requires s in sn.defs && s in sn.def && !IsLogical(s) && AfterSetText(sn, s, text).Solution(v')
    requires sn.Visibility(s, v') != NO
    ensures v'[s].text == Some(if TypeOf(s) == Hex && !("0x" <= text) && !("0X" <= text) then "0x" + text else text)
  {
    TextOfSymbol(AfterSetText(sn, s, text), v', s);
    assert "0x"[0] == "0X"[0] == '0' && "0x"[1] == 'x' && "0X"[1] == 'X';
    assert HasHexPrefix(text) <==> "0x" <= text || "0X" <= text;
  }
}
