/** Loading a saved configuration restores every value. */
module ConfSaveLoad {
  import opened Options
  import opened Tristate
  import opened Symbols
  import opened Expressions
  import opened SymbolSpec
  import opened SymbolText
  import opened SymbolSetting
  import opened ConfFormat
  import opened ConfRoundTrip

  /** What conf_write writes. */
  ghost function File(sn: Snapshot, v: Values, entries: seq<Entry>): seq<string>
    requires v.Keys == sn.defs.Keys
  {
    HEADER + Body(sn, v, entries)
  }

  /**
   * A visible number or string that the user has not set and whose text the file can hold takes
   * its value from a default that carries no tristate value of its own: the file has only the text.
   */
  ghost predicate DefaultKept(sn: Snapshot, v: Values, s: Symbol)
    requires s in sn.defs
  {
    var d := ActiveDefault(sn.defs[s].defaults, EnvOf(v), 0);
    var vis := sn.Visibility(s, v);
    !IsLogical(s) && s in sn.isNew && vis != NO && d.Some? && TextValid(TypeOf(s), Text(Lookup(v, d.value))) ==>
      var tri := Lookup(v, d.value).tri;
      if sn.defs[s].optional then tri == NO else tri == MOD ==> vis == MOD
  }

  ghost predicate DefaultsKept(sn: Snapshot, v: Values) {
    forall s :: s in sn.defs ==> DefaultKept(sn, v, s)
  }

  /** A number or string always has a text. */
  lemma {:induction false} HasText(sn: Snapshot, v: Values, s: Symbol)
    requires SettingsOk(sn) && sn.Solution(v) && s in sn.defs && !IsLogical(s)
    ensures v[s].text.Some?
    decreases sn.rank(s)
  {
    TextIsOk(sn, s);
    var ok := SymbolOk(sn.defs, sn.modules, sn.rank, s);
    assert ok;
    var d := ActiveDefault(sn.defs[s].defaults, EnvOf(v), 0);
    if d.Some? && d.value in sn.defs {
      HasText(sn, v, d.value);
    }
    GroupOf(sn, s);
    var solved := sn.Solved(s, v);
    assert solved;
  }

  /** With its line read back a logical symbol keeps its value. */
  lemma LogicalReloaded(sn: Snapshot, r: Snapshot, v: Values, s: Symbol)
    requires sn.Solution(v) && r.Ok() && r.defs == sn.defs && r.modules == sn.modules
    requires s in sn.defs && IsLogical(s) && !s.Choice? && sn.defs[s].group.None?
    requires sn.Visibility(s, v) == NO || (s !in r.isNew && r.def[s].tri == v[s].tri)
    ensures r.ValueIn(s, v) == v[s]
  {
    var solved := sn.Solved(s, v);
    assert solved;
    assert r.DefaultValue(s, v) == sn.DefaultValue(s, v);
  }

  lemma TextReloaded(sn: Snapshot, r: Snapshot, v: Values, s: Symbol)
    requires SettingsOk(sn) && sn.Solution(v) && r.Ok() && r.defs == sn.defs && r.modules == sn.modules
    requires s in sn.defs && !IsLogical(s) && !s.Choice? && sn.defs[s].group.None?
    requires sn.Visibility(s, v) == NO || SettingIs(r, s, v[s], true)
    ensures r.ValueIn(s, v) == v[s] <==> DefaultKept(sn, v, s)
  {
    TextIsOk(sn, s);
    HasText(sn, v, s);
    var solved := sn.Solved(s, v);
    assert solved;
    assert r.DefaultValue(s, v) == sn.DefaultValue(s, v);
  }

  lemma Reloaded(sn: Snapshot, r: Snapshot, v: Values, entries: seq<Entry>, s: Symbol)
    requires SettingsOk(sn) && sn.Solution(v) && r.Ok() && r.defs == sn.defs && r.modules == sn.modules
    requires ChoiceFree(sn.defs) && AllListed(sn.defs, entries) && SettingsAre(sn, v, entries, r) && s in sn.defs
    ensures r.ValueIn(s, v) == v[s] <==> DefaultKept(sn, v, s)
  {
    assert SettingIs(r, s, v[s], Item(s) in entries && sn.Written(s, v));
    assert sn.Visibility(s, v) != NO ==> SettingIs(r, s, v[s], true);
    if IsLogical(s) {
      LogicalReloaded(sn, r, v, s);
    } else {
      TextReloaded(sn, r, v, s);
    }
  }

  lemma BodyOneLine(sn: Snapshot, v: Values, entries: seq<Entry>)
    requires v.Keys == sn.defs.Keys && Storable(sn, v) && TitlesOk(entries)
    ensures forall l :: l in Body(sn, v, entries) ==> OneLine(l)
  {
    if entries != [] {
      var (init, last) := (entries[..|entries| - 1], entries[|entries| - 1]);
      assert last in entries;
      BodyOneLine(sn, v, init);
      if Emits(sn, v, init, last) {
        LineIsOneLine(last.s, v[last.s]);
      }
    }
  }

  lemma LineIsOneLine(s: Symbol, x: Value)
    requires NameOk(NameOf(s)) && OneLine(Text(x)) && (TypeOf(s) == Str ==> PlainText(Text(x)))
    ensures OneLine(LineOf(s, x))
  {
    if IsLogical(s) && x.tri == NO {
      UnsetLine(NameOf(s));
    } else if TypeOf(s) == Str {
      EscapePlain(Text(x));
    }
  }

  /** The settings after the saved file has been loaded. */
  ghost function Loaded(sn: Snapshot, v: Values, entries: seq<Entry>): Snapshot
    requires SettingsOk(sn) && NamesUnique(sn.defs) && v.Keys == sn.defs.Keys
  {
    ReadFile(sn, SplitLines(Content(File(sn, v, entries))))
  }

  lemma LoadedSettings(sn: Snapshot, v: Values, entries: seq<Entry>) returns (r: Snapshot)
    requires SettingsOk(sn) && sn.Solution(v) && Storable(sn, v) && TitlesOk(entries)
    ensures r == Loaded(sn, v, entries) && SettingsOk(r)
    ensures r.defs == sn.defs && r.modules == sn.modules && SettingsAre(sn, v, entries, r)
  {
    assert v.Keys == sn.defs.Keys && sn.Ok() && NamesUnique(sn.defs) && ChoiceFree(sn.defs);
    assert File(sn, v, entries) == HEADER + Body(sn, v, entries);
    hide *;
    FileReadBack(sn, v, entries);
    ResetReading(sn);
    HeaderHarmless();
    ReadHarmless(Reset(sn), HEADER);
    ReadLinesTwice(Reset(sn), HEADER, Body(sn, v, entries));
    r := ReadBody(sn, v, entries);
    ReadBackParts(sn, v, entries, r);
    NoChoices(sn, r, File(sn, v, entries));
    LoadedIs(sn, v, entries);
  }

  lemma LoadedIs(sn: Snapshot, v: Values, entries: seq<Entry>)
    requires SettingsOk(sn) && NamesUnique(sn.defs) && v.Keys == sn.defs.Keys
    requires SplitLines(Content(File(sn, v, entries))) == File(sn, v, entries)
    ensures Loaded(sn, v, entries) == ReadFile(sn, File(sn, v, entries))
  {
  }

  lemma FileReadBack(sn: Snapshot, v: Values, entries: seq<Entry>)
    requires v.Keys == sn.defs.Keys && Storable(sn, v) && TitlesOk(entries)
    ensures SplitLines(Content(File(sn, v, entries))) == File(sn, v, entries)
  {
    BodyOneLine(sn, v, entries);
    HeaderOneLine();
    SplitContent(File(sn, v, entries));
  }

  lemma NoChoices(sn: Snapshot, r: Snapshot, lines: seq<string>)
    requires SettingsOk(sn) && NamesUnique(sn.defs) && ChoiceFree(sn.defs) && Reading(Reset(sn))
    requires r == ReadLines(Reset(sn), lines)
    ensures r == ReadFile(sn, lines) && SettingsOk(r)
  {
    hide ReadLines;
    assert (set c | c in r.defs && c.Choice?) == {};
    assert r.isNew - {} == r.isNew;
  }

  /** Saving and loading restores all values exactly when no default's tristate value is lost. */
  lemma SaveLoad(sn: Snapshot, v: Values, entries: seq<Entry>)
    requires SettingsOk(sn) && sn.Solution(v) && Storable(sn, v) && TitlesOk(entries) && AllListed(sn.defs, entries)
    ensures Solve(Loaded(sn, v, entries)) == v <==> DefaultsKept(sn, v)
  {
    var r := LoadedSettings(sn, v, entries);
    forall s | s in sn.defs ensures r.Solved(s, v) <==> DefaultKept(sn, v, s) {
      Reloaded(sn, r, v, entries, s);
    }
    if r.Solution(v) {
      SolutionUnique(r, v, Solve(r));
    }
  }

  lemma {:induction false} BodySame(sn: Snapshot, r: Snapshot, v: Values, entries: seq<Entry>)
    requires v.Keys == sn.defs.Keys && r.defs == sn.defs
    ensures Body(r, v, entries) == Body(sn, v, entries)
  {
    if entries != [] {
      BodySame(sn, r, v, entries[..|entries| - 1]);
    }
  }

  /** Saving what has been loaded gives the same file again. */
  lemma SaveLoadSave(sn: Snapshot, v: Values, entries: seq<Entry>)
    requires SettingsOk(sn) && sn.Solution(v) && Storable(sn, v) && TitlesOk(entries) && AllListed(sn.defs, entries)
    requires DefaultsKept(sn, v)
    ensures var r := Loaded(sn, v, entries);
            r.defs == sn.defs && File(r, Solve(r), entries) == File(sn, v, entries)
  {
    var r := LoadedSettings(sn, v, entries);
    SaveLoad(sn, v, entries);
    BodySame(sn, r, v, entries);
  }

  // ----- A title that reads like a setting -----

  function TitleOf(s: Symbol): Entry
    requires s.Config?
  {
    Heading(s.name + " is not set", None)
  }

  lemma TitleLine(sn: Snapshot, s: Symbol)
    requires Reading(sn) && s in sn.defs && s.Config? && NameOk(s.name)
    ensures s in sn.def && ReadLine(sn, "# " + s.name + " is not set") == ReadUnset(sn, s)
  {
    UnsetLine(s.name);
    assert Named(sn.defs, s.name) == Some(s);
    hide UnsetName, ReadUnset, Snapshot.Ok;
  }

  lemma FrameLines()
    ensures Harmless("") && Harmless("#")
  {
    assert Find("#", ' ', 0) == 1;
  }

  /** The lines of the title set the symbol to n. */
  lemma ReadTitle(sn: Snapshot, s: Symbol)
    requires Reading(sn) && s in sn.defs && s.Config? && NameOk(s.name)
    ensures s in sn.def && ReadLines(sn, ["", "#", "# " + s.name + " is not set", "#"]) == ReadUnset(sn, s)
  {
    TitleLine(sn, s);
    ReadUnsetKeeps(sn, s);
    FrameLines();
    var line := "# " + s.name + " is not set";
    hide Harmless, Reading, ReadLine, ReadUnset, ReadLines;
    ReadHarmless(sn, ["", "#"]);
    ReadOne(sn, ["", "#"], line);
    ReadHarmless(ReadUnset(sn, s), ["#"]);
    ReadLinesTwice(sn, ["", "#"] + [line], ["#"]);
    assert ["", "#", line, "#"] == ["", "#"] + [line] + ["#"];
  }

  lemma ReadOne(sn: Snapshot, lines: seq<string>, line: string)
    requires Reading(sn)
    ensures ReadLines(sn, lines + [line]) == ReadLine(ReadLines(sn, lines), line)
  {
    assert (lines + [line])[..|lines|] == lines;
  }

  /** With the title at the end of the menu the symbol is n after loading, whatever was saved. */
  lemma TitleUnsets(sn: Snapshot, v: Values, init: seq<Entry>, s: Symbol) returns (r: Snapshot)
    requires SettingsOk(sn) && sn.Solution(v) && Storable(sn, v) && TitlesOk(init)
    requires s in sn.defs && IsLogical(s)
    ensures s.Config? && r == Loaded(sn, v, init + [TitleOf(s)]) && SettingsOk(r)
    ensures r.defs == sn.defs && r.modules == sn.modules && s in r.def && r.def[s].tri == NO && s !in r.isNew
  {
    assert v.Keys == sn.defs.Keys && sn.Ok() && NamesUnique(sn.defs) && ChoiceFree(sn.defs) && NameOk(NameOf(s));
    var entries := init + [TitleOf(s)];
    TitleBody(sn, v, init, s);
    TitleFile(sn, v, init, s);
    LoadedIs(sn, v, entries);
    ResetReading(sn);
    HeaderHarmless();
    hide SettingsOk, Snapshot.Ok, Snapshot.Solution, Storable, TitlesOk, Harmless, Reading, ReadLines, ReadLine, Body, NamesUnique, ReadFile;
    ReadHarmless(Reset(sn), HEADER);
    ReadLinesTwice(Reset(sn), HEADER, Body(sn, v, entries));
    var r0 := ReadBody(sn, v, init);
    ReadBackParts(sn, v, init, r0);
    ReadLinesTwice(Reset(sn), Body(sn, v, init), TitleLines(s));
    ReadTitle(r0, s);
    ReadUnsetKeeps(r0, s);
    r := ReadUnset(r0, s);
    NoChoices(sn, r, File(sn, v, entries));
  }

  function TitleLines(s: Symbol): seq<string>
    requires s.Config?
  {
    ["", "#", "# " + s.name + " is not set", "#"]
  }

  lemma TitleBody(sn: Snapshot, v: Values, init: seq<Entry>, s: Symbol)
    requires v.Keys == sn.defs.Keys && s.Config?
    ensures Body(sn, v, init + [TitleOf(s)]) == Body(sn, v, init) + TitleLines(s)
  {
    var entries := init + [TitleOf(s)];
    assert entries[..|entries| - 1] == init;
    assert EvalOpt(None, EnvOf(v)) == YES;
    assert "# " + (s.name + " is not set") == "# " + s.name + " is not set";
  }

  lemma TitleFile(sn: Snapshot, v: Values, init: seq<Entry>, s: Symbol)
    requires v.Keys == sn.defs.Keys && Storable(sn, v) && TitlesOk(init) && s in sn.defs && s.Config? && NameOk(s.name)
    ensures SplitLines(Content(File(sn, v, init + [TitleOf(s)]))) == File(sn, v, init + [TitleOf(s)])
  {
    TitleBody(sn, v, init, s);
    BodyOneLine(sn, v, init);
    TitleOneLine(s);
    HeaderOneLine();
    hide Body, OneLine, TitleLines;
    SplitContent(File(sn, v, init + [TitleOf(s)]));
  }

  lemma TitleOneLine(s: Symbol)
    requires s.Config? && NameOk(s.name)
    ensures forall l :: l in TitleLines(s) ==> OneLine(l)
  {
    UnsetLine(s.name);
  }

  lemma HeaderOneLine()
    ensures forall l :: l in HEADER ==> OneLine(l)
  {
  }

  /** So a symbol that the user may set to n, and has not, loses its value. */
  lemma TitleLost(sn: Snapshot, v: Values, init: seq<Entry>, s: Symbol)
    requires SettingsOk(sn) && sn.Solution(v) && Storable(sn, v) && TitlesOk(init)
    requires s in sn.defs && IsLogical(s) && sn.defs[s].optional && sn.Visibility(s, v) != NO && v[s].tri != NO
    ensures s.Config? && Solve(Loaded(sn, v, init + [TitleOf(s)])) != v
  {
    var r := TitleUnsets(sn, v, init, s);
    if r.Solution(v) {
      UnsetIsNo(r, v, s);
    }
  }

  lemma UnsetIsNo(r: Snapshot, v: Values, s: Symbol)
    requires r.Solution(v) && s in r.defs && IsLogical(s) && s.Config? && r.defs[s].group.None? && r.defs[s].optional
    requires r.Visibility(s, v) != NO && r.def[s].tri == NO && s !in r.isNew
    ensures v[s].tri == NO
  {
    var solved := r.Solved(s, v);
    assert solved;
  }

  const TEXT: Symbol := Config("TEXT", Str)

  /** A string symbol with an unconditional prompt and default m, and no MODULES. */
  function TextWithDefaultM(): Snapshot {
    Initial(map[TEXT := SymbolDef([None], [Default(ConstMod, None)], true, None, [])], Config("MODULES", Unknown), _ => 0)
  }

  lemma TextWithDefaultMOk()
    ensures SettingsOk(TextWithDefaultM())
  {
    var sn := TextWithDefaultM();
    InitialOk(sn.defs, sn.modules, sn.rank);
  }

  lemma TextWithDefaultMSolution(v: Values)
    requires v == map[TEXT := Value(Some("m"), MOD)]
    ensures TextWithDefaultM().Solution(v) && !DefaultsKept(TextWithDefaultM(), v)
  {
    TextWithDefaultMOk();
    var sn := TextWithDefaultM();
    assert sn.Ok();
    hide SettingsOk, Snapshot.Ok;
    AnyOfStep([None], 0, EnvOf(v));
    assert sn.Visibility(TEXT, v) == YES;
    assert sn.Solved(TEXT, v);
    assert !DefaultKept(sn, v, TEXT);
  }

  /** Its value is m before saving, and n after loading. */
  lemma DefaultLost(v: Values, entries: seq<Entry>)
    requires v == map[TEXT := Value(Some("m"), MOD)] && entries == [Item(TEXT)]
    ensures var sn := TextWithDefaultM();
            SettingsOk(sn) && sn.Solution(v) && Storable(sn, v) && Solve(Loaded(sn, v, entries)) != v
  {
    TextWithDefaultMOk();
    TextWithDefaultMSolution(v);
    var sn := TextWithDefaultM();
    hide SettingsOk, Snapshot.Solution;
    assert PlainText("m");
    assert Storable(sn, v);
    SaveLoad(sn, v, entries);
  }
}
