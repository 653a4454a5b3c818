/** config/confdata.c: reading and writing the configuration file. */
module ConfData {
  import opened Options
  import opened Tristate
  import opened Symbols
  import opened Expressions
  import opened SymbolSpec
  import opened SymbolCache
  import opened SymbolText
  import opened SymbolSetting
  import opened SymbolTables
  import opened ConfFormat
  import opened ConfRoundTrip
  import opened ConfSaveLoad

  // ----- conf_read -----

  /** One line of the file. */
  method ReadLine(table: SymbolTable, line: string)
    requires Reading(table.Snap()) && IsCString(line)
    modifies table`def, table`isNew, table`stored
    ensures Reading(table.Snap()) && table.Snap() == ConfFormat.ReadLine(old(table.Snap()), line)
  {
    ReadLineKeeps(table.Snap(), line);
    if line == "" {
      return;
    }
    if line[0] == '#' {
      var name := UnsetName(line);
      if name.Some? {
        var s := Named(table.defs, name.value);
        if s.Some? && IsLogical(s.value) {
          table.def := table.def[s.value := table.def[s.value].(tri := NO)];
          table.isNew := table.isNew - {s.value};
        }
      }
    } else if 'A' <= line[0] <= 'Z' {
      var i := Find(line, '=', 0);
      if i < |line| {
        var s := Named(table.defs, line[..i]);
        if s.Some? {
          var p := line[i + 1..];
          Assign(table, s.value, p);
          PassToChoice(table, s.value);
        }
      }
    }
  }

  /** The assignment `s=p`. */
  method Assign(table: SymbolTable, s: Symbol, p: string)
    requires Reading(table.Snap()) && s in table.defs && IsCString(p)
    modifies table`def, table`isNew
    ensures Reading(table.Snap()) && table.Snap() == ReadAssigned(old(table.Snap()), s, p)
  {
    ReadAssignedKeeps(table.Snap(), s, p);
    var tri := None;
    if TypeOf(s) == ThreeState && CharAt(p, 0) == 'm' {
      tri := Some(MOD);
    } else if IsLogical(s) && CharAt(p, 0) == 'y' {
      tri := Some(YES);
    } else if IsLogical(s) && CharAt(p, 0) == 'n' {
      tri := Some(NO);
    }
    if tri.Some? {
      table.def := table.def[s := table.def[s].(tri := tri.value)];
      table.isNew := table.isNew - {s};
    } else if !IsLogical(s) {
      var ok := PlainValid(TypeOf(s), p);
      if ok {
        table.def := table.def[s := table.def[s].(text := Some(p))];
        table.isNew := table.isNew - {s};
      }
    }
  }

  /** What the file says about a choice value it also says about the choice. */
  method PassToChoice(table: SymbolTable, s: Symbol)
    requires Reading(table.Snap()) && s in table.defs
    modifies table`def, table`stored
    ensures Reading(table.Snap()) && table.Snap() == ReadMember(old(table.Snap()), s)
  {
    ReadMemberKeeps(table.Snap(), s);
    GroupOf(table.Snap(), s);
    var g := table.defs[s].group;
    if g.Some? {
      if table.def[s].tri == YES {
        table.stored := table.stored[g.value := Some(s)];
      }
      table.def := table.def[g.value := table.def[g.value].(tri := table.def[s].tri)];
    }
  }

  /** The loop over the lines. */
  method ReadAll(table: SymbolTable, lines: seq<string>)
    requires Reading(table.Snap()) && forall l :: l in lines ==> IsCString(l)
    modifies table`def, table`isNew, table`stored
    ensures Reading(table.Snap()) && table.Snap() == ReadLines(old(table.Snap()), lines)
  {
    ghost var sn := table.Snap();
    hide Reading, ConfFormat.ReadLine;
    for i := 0 to |lines|
      invariant Reading(table.Snap()) && table.Snap() == ReadLines(sn, lines[..i])
    {
      assert lines[..i + 1][..i] == lines[..i] && lines[i] in lines;
      ReadLine(table, lines[i]);
    }
    assert lines[..|lines|] == lines;
  }

  /** conf_read: everything is forgotten, then the lines are taken one by one. */
  method Read(table: SymbolTable, lines: seq<string>)
    requires table.Inv() && NamesUnique(table.defs) && forall l :: l in lines ==> IsCString(l)
    modifies table
    ensures table.Inv() && table.changeCount == 1
    ensures table.Snap() == ReadFile(old(table.Snap()), lines)
  {
    ghost var sn := table.Snap();
    assert SettingsOk(sn) && NamesUnique(sn.defs);
    hide *;
    Forget(table);
    ghost var q := table.Snap();
    assert q == Reset(sn) && Reading(q);
    ReadAll(table, lines);
    assert table.Snap() == ReadLines(q, lines);
    SettleChoices(table, sn, lines);
  }

  /** The last loop of conf_read: no choice is new. */
  method SettleChoices(table: SymbolTable, ghost sn: Snapshot, ghost lines: seq<string>)
    requires SettingsOk(sn) && NamesUnique(sn.defs) && Reading(Reset(sn)) && table.Snap() == ReadLines(Reset(sn), lines)
    requires table.curr.Keys == table.selected.Keys == table.visible.Keys == table.defs.Keys
    requires table.valid == table.emitted == {}
    modifies table`isNew, table`changeCount
    ensures table.Inv() && table.changeCount == 1 && table.Snap() == ReadFile(sn, lines)
  {
    hide SettingsOk, Reading, ReadLines, Reset, Snapshot.Ok, Snapshot.Solution;
    ChoicesSettle(table.Snap());
    table.isNew := table.isNew - set c | c in table.defs && c.Choice?;
    table.changeCount := 1;
    table.NothingSet();
  }

  /** The first loop of conf_read: every symbol is new and has no value. */
  method Forget(table: SymbolTable)
    requires table.Inv() && NamesUnique(table.defs)
    modifies table
    ensures table.Snap() == Reset(old(table.Snap())) && Reading(table.Snap())
    ensures table.curr.Keys == table.selected.Keys == table.visible.Keys == table.defs.Keys
    ensures table.valid == table.emitted == {}
  {
    hide SettingsOk, Reading, Shape, Snapshot.Ok, Snapshot.Solution, AllCoherent;
    ForgetOk(table.Snap());
    table.CacheDomains(table.View(), table.Snap(), Solve(table.Snap()));
    table.isNew := table.defs.Keys;
    table.valid, table.emitted := {}, {};
    table.def := map s | s in table.defs :: Value(None, NO);
    table.stored := map s | s in table.defs :: None;
  }

  lemma ForgetOk(sn: Snapshot)
    requires SettingsOk(sn) && NamesUnique(sn.defs)
    ensures sn.Ok() && Reading(Reset(sn))
  {
    ResetReading(sn);
  }

  // ----- conf_write -----

  /** The loop that puts a backslash before every quote and backslash. */
  method EscapeText(t: string) returns (r: string)
    ensures r == Escape(t)
  {
    hide Escape, NeedsEscape;
    r := "";
    var i := 0;
    assert t[0..] == t && "" + Escape(t) == Escape(t);
    while i < |t|
      invariant i <= |t| && r + Escape(t[i..]) == Escape(t)
    {
      ghost var start := i;
      while i < |t| && !NeedsEscape(t[i])
        invariant start <= i <= |t| && r + Escape(t[i..]) == Escape(t)
      {
        EscapeStep(t, i, r);
        r, i := r + [t[i]], i + 1;
      }
      while i < |t| && NeedsEscape(t[i])
        invariant start <= i <= |t| && r + Escape(t[i..]) == Escape(t)
        invariant start < i || i == |t| || NeedsEscape(t[i])
      {
        EscapeStep(t, i, r);
        r, i := r + ['\\', t[i]], i + 1;
      }
    }
    EscapeEnd(t);
  }

  lemma EscapeEnd(t: string)
    ensures forall r: string :: r + Escape(t[|t|..]) == r
  {
  }

  lemma EscapeStep(t: string, i: nat, r: string)
    requires i < |t|
    ensures var next := if NeedsEscape(t[i]) then ['\\', t[i]] else [t[i]];
            r + Escape(t[i..]) == (r + next) + Escape(t[i + 1..])
  {
    assert t[i..][1..] == t[i + 1..];
  }

  /** The line for a calculated symbol. */
  method SymbolLine(table: SymbolTable, s: Symbol) returns (line: string)
    requires s in table.defs && s in table.curr && TypeOf(s) != Unknown
    ensures line == LineOf(s, table.curr[s])
  {
    var x := table.curr[s];
    if IsLogical(s) {
      if x.tri == NO {
        line := "# " + NameOf(s) + " is not set";
      } else if x.tri == MOD {
        line := NameOf(s) + "=m";
      } else {
        line := NameOf(s) + "=y";
      }
    } else if TypeOf(s) == Str {
      var text := EscapeText(table.StringValue(s));
      line := NameOf(s) + "=" + text;
    } else {
      line := NameOf(s) + "=" + table.StringValue(s);
    }
  }

  /** The write flags used up are those of the entries `before`. */
  ghost predicate Progress(sn: Snapshot, v: Values, c: Cache, before: seq<Entry>) {
    Shape(sn, v, c) && AllCoherent(sn, v, c) && ChoiceFree(sn.defs) &&
    forall s :: s in sn.defs ==>
      (s in c.emitted <==> Item(s) in before && sn.Written(s, v)) && (s in c.emitted ==> s !in c.write)
  }

  lemma ProgressStart(sn: Snapshot, v: Values, c: Cache)
    requires Shape(sn, v, c) && AllCoherent(sn, v, c) && ChoiceFree(sn.defs) && c.emitted == {}
    ensures Progress(sn, v, c, [])
  {
  }

  lemma ProgressKept(sn: Snapshot, v: Values, a: Cache, b: Cache, before: seq<Entry>)
    requires Progress(sn, v, a, before) && Shape(sn, v, b) && AllCoherent(sn, v, b)
    requires b.emitted == a.emitted
    requires forall t :: t in a.valid && t in sn.defs && sn.defs[t].group.None? ==> (t in b.write <==> t in a.write)
    ensures Progress(sn, v, b, before)
  {
  }

  lemma FlagIsEmits(sn: Snapshot, v: Values, c: Cache, before: seq<Entry>, s: Symbol)
    requires Progress(sn, v, c, before) && s in c.valid
    ensures s in c.write <==> Emits(sn, v, before, Item(s))
  {
    if s !in c.emitted {
      WriteIsRight(sn, v, c, s);
    }
  }

  lemma ProgressEmit(sn: Snapshot, v: Values, c: Cache, before: seq<Entry>, s: Symbol)
    requires Progress(sn, v, c, before) && s in c.valid && s in c.write
    ensures Progress(sn, v, c.(write := c.write - {s}, emitted := c.emitted + {s}), before + [Item(s)])
  {
    FlagIsEmits(sn, v, c, before, s);
    EmitKeeps(sn, v, c, s);
  }

  lemma ProgressSkip(sn: Snapshot, v: Values, c: Cache, before: seq<Entry>, e: Entry)
    requires Progress(sn, v, c, before) && !Emits(sn, v, before, e)
    ensures Progress(sn, v, c, before + [e])
  {
  }

  lemma NotStale(table: SymbolTable, before: seq<Entry>)
    requires table.Right() && Progress(table.Snap(), Solve(table.Snap()), table.View(), before)
    ensures table.Fresh()
  {
    hide AllCoherent, Shape;
    table.NeverStale();
  }

  lemma RightLines(table: SymbolTable, before: seq<Entry>, s: Symbol)
    requires table.Right()
    ensures var (sn, v) := (table.Snap(), Solve(table.Snap()));
            sn.Ok() && v.Keys == sn.defs.Keys &&
            EntryLines(sn, v, before, Item(s)) == if Emits(sn, v, before, Item(s)) then [LineOf(s, v[s])] else []
  {
    hide LineOf;
  }

  /** A symbol of the menu: one line if it is to be written and has not been yet. */
  method WriteSymbol(table: SymbolTable, s: Symbol, ghost before: seq<Entry>) returns (lines: seq<string>)
    requires table.Right() && Progress(table.Snap(), Solve(table.Snap()), table.View(), before)
    requires TypeOf(s) == Unknown <==> s !in table.defs
    requires TypeOf(table.modules) == Unknown <==> table.modules !in table.defs
    modifies table`curr, table`selected, table`visible, table`valid, table`write, table`emitted
    ensures table.Right() && Progress(table.Snap(), Solve(table.Snap()), table.View(), before + [Item(s)])
    ensures lines == EntryLines(table.Snap(), Solve(table.Snap()), before, Item(s))
  {
    hide Progress, Snapshot.Solution, LineOf, EntryLines, Emits;
    ghost var (sn, v) := (table.Snap(), Solve(table.Snap()));
    hide SymbolTable.Right, Snapshot.Ok;
    RightLines(table, before, s);
    var due := ToWrite(table, s, before);
    if !due {
      ProgressSkip(sn, v, table.View(), before, Item(s));
      return [];
    }
    var line := Emit(table, s, before);
    lines := [line];
  }

  /** The write flag is used up and the line produced. */
  method Emit(table: SymbolTable, s: Symbol, ghost before: seq<Entry>) returns (line: string)
    requires table.Right() && Progress(table.Snap(), Solve(table.Snap()), table.View(), before)
    requires s in table.valid && s in table.write
    requires TypeOf(table.modules) == Unknown <==> table.modules !in table.defs
    modifies table`curr, table`selected, table`visible, table`valid, table`write, table`emitted
    ensures table.Right() && Progress(table.Snap(), Solve(table.Snap()), table.View(), before + [Item(s)])
    ensures s in table.defs && line == LineOf(s, Solve(table.Snap())[s])
  {
    hide Progress, SymbolTable.Right, LineOf;
    MarkWritten(table, s, before);
    if TypeOf(s) == ThreeState {
      CalcMore(table, table.modules, before + [Item(s)]);
    }
    ValidIsRight(table, s);
    line := SymbolLine(table, s);
  }

  lemma ValidIsRight(table: SymbolTable, s: Symbol)
    requires table.Right() && s in table.valid
    ensures s in table.defs && s in table.curr && TypeOf(s) != Unknown && table.curr[s] == Solve(table.Snap())[s]
  {
    IsRight(table.Snap(), Solve(table.Snap()), table.View(), s);
    var ok := SymbolOk(table.defs, table.modules, table.rank, s);
    assert ok;
  }

  method CalcMore(table: SymbolTable, s: Symbol, ghost before: seq<Entry>)
    requires table.Right() && Progress(table.Snap(), Solve(table.Snap()), table.View(), before)
    requires TypeOf(s) == Unknown <==> s !in table.defs
    modifies table`curr, table`selected, table`visible, table`valid, table`write
    ensures table.Right() && Progress(table.Snap(), Solve(table.Snap()), table.View(), before)
    ensures old(table.valid) <= table.valid && (s in table.defs ==> s in table.valid)
  {
    ghost var (sn, v) := (table.Snap(), Solve(table.Snap()));
    NotStale(table, before);
    table.Calc(s);
    hide Progress, SettingsOk, AllCoherent, Shape;
    ProgressKept(sn, v, old(table.View()), table.View(), before);
  }

  /** sym_calc_value and a look at SYMBOL_WRITE. */
  method ToWrite(table: SymbolTable, s: Symbol, ghost before: seq<Entry>) returns (due: bool)
    requires table.Right() && Progress(table.Snap(), Solve(table.Snap()), table.View(), before)
    requires TypeOf(s) == Unknown <==> s !in table.defs
    modifies table`curr, table`selected, table`visible, table`valid, table`write
    ensures table.Right() && Progress(table.Snap(), Solve(table.Snap()), table.View(), before)
    ensures due <==> Emits(table.Snap(), Solve(table.Snap()), before, Item(s))
    ensures due ==> s in table.valid && s in table.write
  {
    hide Progress, SymbolTable.Right, SettingsOk, AllCoherent, Shape;
    if s.Choice? {
      return false;
    }
    CalcMore(table, s, before);
    if s !in table.defs {
      return false;
    }
    FlagIsEmits(table.Snap(), Solve(table.Snap()), table.View(), before, s);
    due := s in table.write;
  }

  method MarkWritten(table: SymbolTable, s: Symbol, ghost before: seq<Entry>)
    requires table.Right() && Progress(table.Snap(), Solve(table.Snap()), table.View(), before)
    requires s in table.valid && s in table.write
    modifies table`write, table`emitted
    ensures table.Right() && Progress(table.Snap(), Solve(table.Snap()), table.View(), before + [Item(s)])
  {
    hide Progress, SettingsOk, AllCoherent, Shape;
    ghost var (sn, v) := (table.Snap(), Solve(table.Snap()));
    ProgressEmit(sn, v, table.View(), before, s);
    EmitKeeps(sn, v, table.View(), s);
    table.write := table.write - {s};
    table.emitted := table.emitted + {s};
  }

  /** A title, if its condition is not n. */
  method WriteHeading(table: SymbolTable, e: Entry, ghost k: nat, ghost before: seq<Entry>) returns (lines: seq<string>)
    requires table.Right() && Progress(table.Snap(), Solve(table.Snap()), table.View(), before)
    requires e.Heading? && OptBelow(e.cond, table.defs, table.rank, k)
    modifies table`curr, table`selected, table`visible, table`valid, table`write
    ensures table.Right() && Progress(table.Snap(), Solve(table.Snap()), table.View(), before + [e])
    ensures lines == EntryLines(table.Snap(), Solve(table.Snap()), before, e)
  {
    ghost var (sn, v) := (table.Snap(), Solve(table.Snap()));
    NotStale(table, before);
    hide Progress, SettingsOk, AllCoherent, Shape;
    var r := table.CalcCondition(e.cond, k);
    ProgressKept(sn, v, old(table.View()), table.View(), before);
    ProgressSkip(sn, v, table.View(), before, e);
    lines := if r == NO then [] else ["", "#", "# " + e.title, "#"];
  }

  /** The entries of a menu tree: every symbol with a type is declared, and conditions are below `k`. */
  ghost predicate EntriesOk(table: SymbolTable, entries: seq<Entry>, k: nat) {
    (TypeOf(table.modules) == Unknown <==> table.modules !in table.defs) &&
    forall e :: e in entries ==>
      (e.Item? ==> (TypeOf(e.s) == Unknown <==> e.s !in table.defs)) &&
      (e.Heading? ==> OptBelow(e.cond, table.defs, table.rank, k))
  }

  method WriteEntry(table: SymbolTable, e: Entry, ghost k: nat, ghost before: seq<Entry>) returns (lines: seq<string>)
    requires table.Right() && Progress(table.Snap(), Solve(table.Snap()), table.View(), before)
    requires EntriesOk(table, [e], k)
    modifies table`curr, table`selected, table`visible, table`valid, table`write, table`emitted
    ensures table.Right() && Progress(table.Snap(), Solve(table.Snap()), table.View(), before + [e])
    ensures lines == EntryLines(table.Snap(), Solve(table.Snap()), before, e)
  {
    assert e in [e];
    hide Progress, SymbolTable.Right, OptBelow;
    match e
    case Item(s) => lines := WriteSymbol(table, s, before);
    case Heading(_, _) => lines := WriteHeading(table, e, k, before);
    case Untitled =>
      ProgressSkip(table.Snap(), Solve(table.Snap()), table.View(), before, e);
      lines := [];
  }

  /** conf_write: the lines of the file, and the changes count as saved. */
  method Write(table: SymbolTable, entries: seq<Entry>, ghost k: nat) returns (lines: seq<string>)
    requires table.Inv() && ChoiceFree(table.defs) && EntriesOk(table, entries, k)
    modifies table
    ensures table.Inv() && table.changeCount == 0 && table.Snap() == old(table.Snap())
    ensures lines == File(table.Snap(), Solve(table.Snap()), entries)
  {
    hide Progress, SymbolTable.Right, SymbolTable.Inv, EntriesOk, ChoiceFree, Body;
    StartWrite(table);
    lines := WriteAll(table, entries, k);
    lines := HEADER + lines;
    MarkSaved(table);
  }

  /** The end of conf_write: there is nothing unsaved. */
  method MarkSaved(table: SymbolTable)
    requires table.Right()
    modifies table`changeCount
    ensures table.Inv() && table.changeCount == 0
  {
    hide SettingsOk, Shape, AllCoherent;
    table.changeCount := 0;
  }

  /** Without unsaved changes the write flags may be used up, so everything is calculated anew. */
  method StartWrite(table: SymbolTable)
    requires table.Inv() && ChoiceFree(table.defs)
    modifies table`valid, table`emitted, table`changeCount
    ensures table.Right() && Progress(table.Snap(), Solve(table.Snap()), table.View(), [])
  {
    hide Progress, SettingsOk;
    if table.changeCount == 0 {
      table.ClearAllValid();
    }
    ProgressStart(table.Snap(), Solve(table.Snap()), table.View());
  }

  method WriteAll(table: SymbolTable, entries: seq<Entry>, ghost k: nat) returns (lines: seq<string>)
    requires table.Right() && Progress(table.Snap(), Solve(table.Snap()), table.View(), []) && EntriesOk(table, entries, k)
    modifies table`curr, table`selected, table`visible, table`valid, table`write, table`emitted
    ensures table.Right() && lines == Body(table.Snap(), Solve(table.Snap()), entries)
  {
    hide Progress, SymbolTable.Right, EntryLines;
    lines := [];
    for i := 0 to |entries|
      invariant table.Right() && Progress(table.Snap(), Solve(table.Snap()), table.View(), entries[..i])
      invariant lines == Body(table.Snap(), Solve(table.Snap()), entries[..i])
    {
      EntryAt(table, entries, k, i);
      var next := WriteEntry(table, entries[i], k, entries[..i]);
      lines := lines + next;
      BodyNext(table.Snap(), Solve(table.Snap()), entries[..i], entries[i]);
    }
    assert entries[..|entries|] == entries;
  }

  lemma EntryAt(table: SymbolTable, entries: seq<Entry>, k: nat, i: nat)
    requires EntriesOk(table, entries, k) && i < |entries|
    ensures EntriesOk(table, [entries[i]], k) && entries[..i + 1] == entries[..i] + [entries[i]]
  {
    assert entries[i] in entries;
  }
}
