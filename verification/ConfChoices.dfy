/** What a file says about a choice: it has no line of its own, only those of its values. */
module ConfChoices {
  import opened Options
  import opened Tristate
  import opened Symbols
  import opened Expressions
  import opened SymbolSpec
  import opened SymbolSetting
  import opened SymbolValues
  import opened ConfFormat
  import opened ConfRoundTrip
  import opened ConfSaveLoad
  import opened ConfLines

  /** The symbol has a name of its own, and the value `v` gives it is one of its type. */
  ghost predicate Sayable(defs: Defs, s: Symbol, v: Values) {
    s in defs && s in v && s.Config? && NameOk(s.name) && (IsLogical(s) && v[s].tri == MOD ==> TypeOf(s) == ThreeState)
  }

  predicate ValueOfChoice(defs: Defs, g: Symbol, s: Symbol) {
    s in defs && defs[s].group == Some(g)
  }

  /** The choice has been told `x` and the selection `y`, as far as they are given, and else is as it was. */
  ghost predicate Told(sn: Snapshot, sn': Snapshot, g: Symbol, x: Option<Tri>, y: Option<Symbol>) {
    g in sn.def && g in sn'.def && g in sn.stored && g in sn'.stored &&
    sn'.def[g].tri == (if x.Some? then x.value else sn.def[g].tri) && sn'.stored[g] == if y.Some? then y else sn.stored[g]
  }

  /** What the line for `s` tells the choice. */
  function ToldValue(defs: Defs, g: Symbol, s: Symbol, v: Values): Option<Tri> {
    if ValueOfChoice(defs, g, s) && s in v && v[s].tri != NO then Some(v[s].tri) else None
  }

  function ToldSelection(defs: Defs, g: Symbol, s: Symbol, v: Values): Option<Symbol> {
    if ValueOfChoice(defs, g, s) && s in v && v[s].tri == YES then Some(s) else None
  }

  /** The last that the lines for `order` tell it. */
  function LastValue(defs: Defs, g: Symbol, order: seq<Symbol>, v: Values): Option<Tri> {
    if order == [] then None
    else
      var x := ToldValue(defs, g, order[|order| - 1], v);
      if x.Some? then x else LastValue(defs, g, order[..|order| - 1], v)
  }

  function LastSelection(defs: Defs, g: Symbol, order: seq<Symbol>, v: Values): Option<Symbol> {
    if order == [] then None
    else
      var y := ToldSelection(defs, g, order[|order| - 1], v);
      if y.Some? then y else LastSelection(defs, g, order[..|order| - 1], v)
  }

  // ----- One line -----

  lemma OwnLineRead(sn: Snapshot, g: Symbol, s: Symbol, v: Values)
    requires Reading(sn) && g in sn.defs && Sayable(sn.defs, s, v) && sn.defs[s].group == Some(g)
    ensures Told(sn, ReadLine(sn, LineOf(s, v[s])), g, ToldValue(sn.defs, g, s, v), ToldSelection(sn.defs, g, s, v))
  {
    GroupOf(sn, s);
    assert s != g && g in sn.def && g in sn.stored;
    if v[s].tri == NO {
      assert "# " + s.name + " is not set" == "# " + s.name + " " + "is not set";
      UnsetLineRead(sn, s, "is not set");
    } else {
      var p := if v[s].tri == MOD then "m" else "y";
      assert s.name + "=" + p == LineOf(s, v[s]);
      var sn1 := MemberLine(sn, s, p);
    }
    hide ReadLine, Reading;
  }

  lemma LineShape(s: Symbol, x: Value) returns (p: string)
    requires s.Config?
    ensures LineOf(s, x) == "# " + s.name + " " + "is not set" || LineOf(s, x) == s.name + "=" + p
  {
    p := if IsLogical(s) then if x.tri == MOD then "m" else "y" else if TypeOf(s) == Str then Escape(Text(x)) else Text(x);
    assert "# " + s.name + " is not set" == "# " + s.name + " " + "is not set";
    hide Escape;
  }

  lemma OtherLineRead(sn: Snapshot, g: Symbol, s: Symbol, v: Values)
    requires Reading(sn) && g in sn.defs && g.Choice? && Sayable(sn.defs, s, v) && sn.defs[s].group != Some(g)
    ensures Told(sn, ReadLine(sn, LineOf(s, v[s])), g, None, None)
  {
    GroupOf(sn, s);
    assert s != g && g in sn.def && g in sn.stored;
    var p := LineShape(s, v[s]);
    hide ReadLine, LineOf;
    if LineOf(s, v[s]) == "# " + s.name + " " + "is not set" {
      UnsetLineRead(sn, s, "is not set");
    } else if !IsLogical(s) {
      TextLine(sn, s, p);
    } else if sn.defs[s].group.None? {
      LogicalLine(sn, s, p);
    } else {
      var sn1 := MemberLine(sn, s, p);
    }
  }

  // ----- The whole file -----

  lemma ToldTwice(a: Snapshot, b: Snapshot, c: Snapshot, defs: Defs, g: Symbol, order: seq<Symbol>, s: Symbol, v: Values)
    requires Told(a, b, g, LastValue(defs, g, order, v), LastSelection(defs, g, order, v))
    requires Told(b, c, g, ToldValue(defs, g, s, v), ToldSelection(defs, g, s, v))
    ensures Told(a, c, g, LastValue(defs, g, order + [s], v), LastSelection(defs, g, order + [s], v))
  {
    assert (order + [s])[..|order|] == order;
  }

  lemma NothingTold(sn: Snapshot, g: Symbol, x: Option<Tri>, y: Option<Symbol>)
    requires Reading(sn) && g in sn.defs && x.None? && y.None?
    ensures Told(sn, sn, g, x, y)
  {
  }

  /** Reading a file tells the choice what the last of its values that is not n has, and selects the last that is y. */
  lemma {:induction false} BodyRead(sn: Snapshot, q: Snapshot, v: Values, entries: seq<Entry>, g: Symbol)
    requires v.Keys == sn.defs.Keys && Reading(q) && q.defs == sn.defs && g in sn.defs && g.Choice? && TitlesOk(entries)
    requires forall s :: s in Emitted(sn, v, entries) ==> Sayable(sn.defs, s, v)
    ensures var order := Emitted(sn, v, entries);
            Told(q, ReadLines(q, Body(sn, v, entries)), g, LastValue(sn.defs, g, order, v), LastSelection(sn.defs, g, order, v))
  {
    if entries == [] {
      NothingTold(q, g, LastValue(sn.defs, g, [], v), LastSelection(sn.defs, g, [], v));
    } else {
      hide Reading, ReadLine, ReadLines, Told, Sayable, Harmless, OneLine, LineOf, LastValue, LastSelection, Snapshot.Written;
      var (init, e) := (entries[..|entries| - 1], entries[|entries| - 1]);
      BodyRead(sn, q, v, init, g);
      var q1 := ReadLines(q, Body(sn, v, init));
      ReadLinesTwice(q, Body(sn, v, init), EntryLines(sn, v, init, e));
      if Emits(sn, v, init, e) {
        assert e.s in Emitted(sn, v, entries);
        SayableIn(sn.defs, e.s, v);
        LineRead(q1, g, e.s, v);
        ConfRoundTrip.ReadOne(q1, LineOf(e.s, v[e.s]));
        ToldTwice(q, q1, ReadLine(q1, LineOf(e.s, v[e.s])), sn.defs, g, Emitted(sn, v, init), e.s, v);
      } else {
        assert e in entries;
        TitleHarmless(sn, v, init, e);
        ReadHarmless(q1, EntryLines(sn, v, init, e));
        assert Emitted(sn, v, init) + [] == Emitted(sn, v, init);
      }
    }
  }

  lemma SayableIn(defs: Defs, s: Symbol, v: Values)
    requires Sayable(defs, s, v)
    ensures s in defs && s in v
  {
  }

  lemma LineRead(sn: Snapshot, g: Symbol, s: Symbol, v: Values)
    requires Reading(sn) && g in sn.defs && g.Choice? && Sayable(sn.defs, s, v)
    ensures Told(sn, ReadLine(sn, LineOf(s, v[s])), g, ToldValue(sn.defs, g, s, v), ToldSelection(sn.defs, g, s, v))
  {
    hide Reading, ReadLine, LineOf, Told;
    if sn.defs[s].group == Some(g) {
      OwnLineRead(sn, g, s, v);
    } else {
      OtherLineRead(sn, g, s, v);
    }
  }

  lemma TitleHarmless(sn: Snapshot, v: Values, before: seq<Entry>, e: Entry)
    requires v.Keys == sn.defs.Keys && !Emits(sn, v, before, e) && (e.Heading? ==> Harmless("# " + e.title))
    ensures forall l :: l in EntryLines(sn, v, before, e) ==> Harmless(l)
  {
    assert Find("#", ' ', 0) == 1;
  }

  // ----- Whether a choice comes back -----

  /** Of the values of the choice in `order`, the `k`th is y and no other is. */
  ghost predicate OnlyYes(defs: Defs, g: Symbol, order: seq<Symbol>, v: Values, k: nat) {
    k < |order| && ValueOfChoice(defs, g, order[k]) && order[k] in v && v[order[k]].tri == YES &&
    forall j :: 0 <= j < |order| && j != k && ValueOfChoice(defs, g, order[j]) && order[j] in v ==> v[order[j]].tri != YES
  }

  /** Behind the `k`th all are n. */
  ghost predicate NoneBehind(defs: Defs, g: Symbol, order: seq<Symbol>, v: Values, k: nat) {
    forall j :: k < j < |order| && ValueOfChoice(defs, g, order[j]) && order[j] in v ==> v[order[j]].tri == NO
  }

  lemma {:induction false} LastIs(defs: Defs, g: Symbol, order: seq<Symbol>, v: Values, k: nat)
    requires OnlyYes(defs, g, order, v, k)
    ensures LastSelection(defs, g, order, v) == Some(order[k])
    ensures LastValue(defs, g, order, v) == Some(if NoneBehind(defs, g, order, v, k) then YES else MOD)
  {
    var n := |order| - 1;
    var init := order[..n];
    if k < n {
      assert init[k] == order[k];
      assert forall j :: 0 <= j < n ==> init[j] == order[j];
      LastIs(defs, g, init, v, k);
      assert NoneBehind(defs, g, order, v, k) <==> NoneBehind(defs, g, init, v, k) && ToldValue(defs, g, order[n], v).None?;
    }
  }

  /** Everything but choices has an ordinary name. */
  ghost predicate OrdinaryNames(defs: Defs) {
    forall s :: s in defs && !s.Choice? ==> s.Config? && NameOk(s.name)
  }

  lemma {:induction false} EmittedSayable(sn: Snapshot, v: Values, entries: seq<Entry>)
    requires sn.Solution(v) && OrdinaryNames(sn.defs)
    ensures forall s :: s in Emitted(sn, v, entries) ==> Sayable(sn.defs, s, v)
  {
    if entries != [] {
      var (init, e) := (entries[..|entries| - 1], entries[|entries| - 1]);
      EmittedSayable(sn, v, init);
      if Emits(sn, v, init, e) && IsLogical(e.s) {
        LimitedByVisibility(sn, v, e.s);
      }
      hide Snapshot.Written, Snapshot.Ok, Snapshot.Solved;
    }
  }

  /**
   * After a file has been written and read, the choice asks for the value that was y; but it has y itself
   * only if no value behind that one in the file is m, and m otherwise.
   */
  lemma ChoiceReadBack(sn: Snapshot, v: Values, entries: seq<Entry>, g: Symbol, k: nat) returns (r: Snapshot)
    requires SettingsOk(sn) && NamesUnique(sn.defs) && sn.Solution(v) && OrdinaryNames(sn.defs) && TitlesOk(entries)
    requires g in sn.defs && g.Choice? && OnlyYes(sn.defs, g, Emitted(sn, v, entries), v, k)
    ensures var order := Emitted(sn, v, entries);
            r == ReadFile(sn, File(sn, v, entries)) && r.defs == sn.defs && r.modules == sn.modules && g !in r.isNew &&
            g in r.def && g in r.stored && r.stored[g] == Some(order[k]) &&
            r.def[g].tri == if NoneBehind(sn.defs, g, order, v, k) then YES else MOD
  {
    var (order, lines) := (Emitted(sn, v, entries), Body(sn, v, entries));
    EmittedSayable(sn, v, entries);
    LastIs(sn.defs, g, order, v, k);
    ResetReading(sn);
    HeaderHarmless();
    hide Reading, ReadLines, SettingsOk, Snapshot.Ok, Snapshot.Solution, Harmless, Emitted, Body, OnlyYes, NoneBehind, LastValue, LastSelection, Sayable;
    BodyRead(sn, Reset(sn), v, entries, g);
    ReadHarmless(Reset(sn), HEADER);
    ReadLinesTwice(Reset(sn), HEADER, lines);
    r := ReadFile(sn, File(sn, v, entries));
  }

  /** So where all prompts of the choice are at y, it is y again if and only if there is no such value, or m cannot be had. */
  lemma ChoiceBackIff(sn: Snapshot, v: Values, entries: seq<Entry>, g: Symbol, k: nat, v': Values)
    requires SettingsOk(sn) && NamesUnique(sn.defs) && sn.Solution(v) && OrdinaryNames(sn.defs) && TitlesOk(entries)
    requires g in sn.defs && g.Choice? && OnlyYes(sn.defs, g, Emitted(sn, v, entries), v, k)
    requires ReadFile(sn, File(sn, v, entries)).Solution(v') && sn.Visibility(g, v') == YES
    ensures v'[g].tri == YES <==> NoneBehind(sn.defs, g, Emitted(sn, v, entries), v, k) || !ModUsable(sn, g, v')
    ensures v'[g].tri != YES ==> v'[g].tri == MOD
  {
    var r := ChoiceReadBack(sn, v, entries, g, k);
    ChoiceAlone(r, g);
    hide SettingsOk, Snapshot.Ok, Snapshot.Solution, Emitted, OnlyYes, NoneBehind, File, ReadFile;
    ValueOfVisible(r, v', g, r.def[g].tri);
  }

  lemma ChoiceAlone(sn: Snapshot, g: Symbol)
    requires sn.Ok() && g in sn.defs && g.Choice?
    ensures sn.defs[g].group.None? && IsLogical(g)
  {
    var ok := SymbolOk(sn.defs, sn.modules, sn.rank, g);
    assert ok;
    GroupOf(sn, g);
  }

  // ----- A choice that does not -----

  const MODULES: Symbol := Config("MODULES", Boolean)
  const PICK: Symbol := Choice(0, ThreeState)
  const ONE: Symbol := Config("ONE", ThreeState)
  const TWO: Symbol := Config("TWO", ThreeState)

  const ONE_PROMPT: Expr := Sym(PICK)
  const TWO_PROMPT: Expr := Bin(And, Sym(PICK), Sym(ConstMod))

  /** MODULES is y, and of the values of a tristate choice the second has a prompt with the condition m. */
  function PickDefs(): Defs {
    map[MODULES := SymbolDef([], [Default(ConstYes, None)], true, None, []),
        PICK := SymbolDef([None], [], false, None, [ONE, TWO]),
        ONE := SymbolDef([Some(ONE_PROMPT)], [], true, Some(PICK), []),
        TWO := SymbolDef([Some(TWO_PROMPT)], [], true, Some(PICK), [])]
  }

  function PickRank(s: Symbol): nat {
    if s == MODULES then 0 else if s.Choice? then 1 else 2
  }

  function PickNew(): Snapshot {
    Initial(PickDefs(), MODULES, PickRank)
  }

  /** TWO has been set to m and ONE to y. */
  ghost function PickSet(): Snapshot {
    PickNewAt();
    AfterSet(AfterSet(PickNew(), TWO, MOD), ONE, YES)
  }

  lemma PickNewAt()
    ensures PickNew().defs == PickDefs() && PickDefs().Keys == PickNew().def.Keys == PickNew().stored.Keys == {MODULES, PICK, ONE, TWO}
  {
  }

  ghost predicate PickSettings(sn: Snapshot) {
    MODULES in sn.isNew && PICK !in sn.isNew && ONE !in sn.isNew && TWO !in sn.isNew &&
    sn.def.Keys == sn.stored.Keys == {MODULES, PICK, ONE, TWO} && sn.stored[PICK] == Some(ONE) &&
    sn.def[PICK] == Value(None, NO) && sn.def[ONE] == Value(None, YES) && sn.def[TWO] == Value(None, MOD)
  }

  lemma PickSetIs()
    ensures var sn := PickSet();
            sn.defs == PickDefs() && sn.modules == MODULES && PickSettings(sn)
  {
    PickNewAt();
  }

  function PickValues(): Values {
    map[MODULES := Value(None, YES), PICK := Value(None, YES), ONE := Value(None, YES), TWO := Value(None, MOD)]
  }

  lemma PickSymbolsOk()
    ensures SymbolOk(PickDefs(), MODULES, PickRank, MODULES)
    ensures SymbolOk(PickDefs(), MODULES, PickRank, PICK)
  {
  }

  lemma OneTwoOk()
    ensures SymbolOk(PickDefs(), MODULES, PickRank, ONE)
    ensures SymbolOk(PickDefs(), MODULES, PickRank, TWO)
  {
    var defs := PickDefs();
    assert Under(Sym(PICK), PICK) && Under(TWO_PROMPT, PICK);
    assert ExprBelow(Sym(PICK), defs, PickRank, 2) && ExprBelow(Sym(ConstMod), defs, PickRank, 2);
    assert ExprBelow(TWO_PROMPT, defs, PickRank, 2);
  }

  lemma PickOk()
    ensures SettingsOk(PickSet()) && PickSet().Ok()
  {
    PickSymbolsOk();
    OneTwoOk();
    PickNewAt();
    hide SymbolOk, Snapshot.Ok;
    InitialOk(PickDefs(), MODULES, PickRank);
    hide SettingsOk;
    AfterSetSettingsOk(PickNew(), TWO, MOD);
    AfterSetSettingsOk(AfterSet(PickNew(), TWO, MOD), ONE, YES);
    SettingsAreOk(PickSet());
  }

  lemma SettingsAreOk(sn: Snapshot)
    requires SettingsOk(sn)
    ensures sn.Ok()
  {
  }

  lemma PickVisibility(sn: Snapshot, v: Values)
    requires sn.defs == PickDefs() && PICK in v && v[PICK].tri == YES
    ensures sn.Visibility(MODULES, v) == NO && sn.Visibility(PICK, v) == YES && sn.Visibility(ONE, v) == YES && sn.Visibility(TWO, v) == MOD
  {
    var env := EnvOf(v);
    AnyOfStep([None], 0, env);
    AnyOfStep([Some(ONE_PROMPT)], 0, env);
    AnyOfStep([Some(TWO_PROMPT)], 0, env);
    assert Eval(ONE_PROMPT, env) == YES && Eval(Sym(ConstMod), env) == MOD;
  }

  /** MODULES, ONE and the choice are y and TWO, which cannot be more, is m. */
  lemma PickSolution()
    ensures PickSet().Solution(PickValues())
  {
    var (sn, v) := (PickSet(), PickValues());
    PickOk();
    PickSetIs();
    hide Snapshot.Ok, Snapshot.Solved, PickSet;
    PickSolved(sn);
    assert sn.defs.Keys == {MODULES, PICK, ONE, TWO};
  }

  lemma PickSolved(sn: Snapshot)
    requires sn.Ok() && sn.defs == PickDefs() && sn.modules == MODULES && PickSettings(sn)
    ensures forall s :: s in sn.defs ==> sn.Solved(s, PickValues())
  {
    var v := PickValues();
    PickVisibility(sn, v);
    hide Snapshot.Visibility, Snapshot.Ok;
    assert sn.Selection(PICK, v) == Some(ONE);
    assert sn.ModAvailable(TWO, v);
    assert sn.Solved(MODULES, v) && sn.Solved(PICK, v) && sn.Solved(ONE, v) && sn.Solved(TWO, v);
    assert sn.defs.Keys == {MODULES, PICK, ONE, TWO};
  }

  /** In whatever solution MODULES is y and the choice visible. */
  lemma PickVisible(sn: Snapshot, v: Values)
    requires sn.Solution(v) && sn.defs == PickDefs() && sn.modules == MODULES
    ensures PICK in v && sn.Visibility(PICK, v) == YES && ModUsable(sn, PICK, v)
  {
    var env := EnvOf(v);
    AnyOfStep([None], 0, env);
    assert FirstActive(sn.defs[MODULES].defaults, env, 0);
    assert sn.Visibility(MODULES, v) == NO;
    ValueOfInvisible(sn, v, MODULES);
    assert Lookup(v, ConstYes).tri == YES;
    hide Snapshot.Solution;
  }

  function PickEntries(): seq<Entry> {
    [Item(PICK), Item(ONE), Item(TWO)]
  }

  lemma PickEmitted(sn: Snapshot)
    requires sn.defs == PickDefs()
    ensures Emitted(sn, PickValues(), PickEntries()) == [ONE, TWO]
  {
    var (v, es) := (PickValues(), PickEntries());
    PickVisibility(sn, v);
    hide Snapshot.Visibility;
    assert es[..2] == [Item(PICK), Item(ONE)] && es[..2][..1] == [Item(PICK)] && es[..1][..0] == [];
    assert Emitted(sn, v, []) == [];
    assert Emitted(sn, v, [Item(PICK)]) == [];
    assert Emitted(sn, v, [Item(PICK), Item(ONE)]) == [ONE];
  }

  lemma PickNames()
    ensures NamesUnique(PickDefs()) && OrdinaryNames(PickDefs())
  {
    assert "ONE"[0] != "TWO"[0] && "ONE"[0] != "MODULES"[0] && "TWO"[0] != "MODULES"[0];
  }

  lemma PickOnly()
    ensures OnlyYes(PickDefs(), PICK, [ONE, TWO], PickValues(), 0) && !NoneBehind(PickDefs(), PICK, [ONE, TWO], PickValues(), 0)
  {
    assert ValueOfChoice(PickDefs(), PICK, [ONE, TWO][1]);
  }

  lemma TitlesNone()
    ensures TitlesOk(PickEntries())
  {
  }

  /** The choice was y, and after saving and loading it is m. */
  lemma ChoiceLost()
    ensures SettingsOk(PickSet()) && NamesUnique(PickSet().defs) && PickSet().Solution(PickValues()) && PickValues()[PICK].tri == YES
    ensures forall v': Values :: ReadFile(PickSet(), File(PickSet(), PickValues(), PickEntries())).Solution(v') ==> PICK in v' && v'[PICK].tri == MOD
  {
    var sn := PickSet();
    hide SettingsOk, Snapshot.Ok, Snapshot.Solution, File, ReadFile, PickSet, TitlesOk, NamesUnique, OrdinaryNames;
    PickOk();
    PickSetIs();
    PickNames();
    PickSolution();
    TitlesNone();
    forall v': Values | ReadFile(sn, File(sn, PickValues(), PickEntries())).Solution(v') ensures PICK in v' && v'[PICK].tri == MOD {
      LostIn(sn, v');
    }
  }

  lemma LostIn(sn: Snapshot, v': Values)
    requires sn.defs == PickDefs() && sn.modules == MODULES && SettingsOk(sn) && NamesUnique(sn.defs) && sn.Solution(PickValues())
    requires OrdinaryNames(sn.defs) && TitlesOk(PickEntries())
    requires ReadFile(sn, File(sn, PickValues(), PickEntries())).Solution(v')
    ensures PICK in v' && v'[PICK].tri == MOD
  {
    hide SettingsOk, Snapshot.Ok, Snapshot.Solution, Emitted, OnlyYes, NoneBehind, File, ReadFile, TitlesOk, NamesUnique, OrdinaryNames, Snapshot.Visibility, ModUsable;
    PickEmitted(sn);
    PickOnly();
    var r := ChoiceReadBack(sn, PickValues(), PickEntries(), PICK, 0);
    PickVisible(r, v');
    SameVisible(sn, r, v');
    ChoiceBackIff(sn, PickValues(), PickEntries(), PICK, 0, v');
  }

  lemma SameVisible(sn: Snapshot, r: Snapshot, v: Values)
    requires sn.defs == r.defs && sn.modules == r.modules && PICK in r.defs
    ensures sn.Visibility(PICK, v) == r.Visibility(PICK, v) && (ModUsable(sn, PICK, v) <==> ModUsable(r, PICK, v))
  {
  }
}
