/** Whole runs: calculating, setting, loading and saving in any order. */
module ConfRuns {
  import opened SymbolCache
  import opened Tristate
  import opened Symbols
  import opened SymbolSpec
  import opened SymbolText
  import opened SymbolSetting
  import opened SymbolTables
  import opened ConfFormat
  import opened ConfRoundTrip
  import opened ConfSaveLoad
  import opened ConfData

  datatype Operation =
    | Calculate(s: Symbol)
    | SetTo(s: Symbol, val: Tri)
    | SetText(s: Symbol, text: string)
    | Load(lines: seq<string>)
    | Save

  ghost predicate OperationOk(defs: Defs, op: Operation) {
    match op
    case Calculate(s) => TypeOf(s) == Unknown <==> s !in defs
    case SetTo(s, _) => s in defs && IsLogical(s)
    case SetText(s, text) => s in defs && !IsLogical(s) && IsCString(text)
    case Load(lines) => forall l :: l in lines ==> IsCString(l)
    case Save => true
  }

  /** The user settings after one operation; a set out of range is refused. */
  ghost function After(sn: Snapshot, op: Operation): (r: Snapshot)
    requires SettingsOk(sn) && NamesUnique(sn.defs) && OperationOk(sn.defs, op)
    ensures SettingsOk(r) && r.defs == sn.defs
  {
    match op
    case SetTo(s, val) =>
      if val == Lookup(Solve(sn), s).tri || WithinRange(sn, Solve(sn), s, val) then
        AfterSetSettingsOk(sn, s, val);
        AfterSet(sn, s, val)
      else sn
    case SetText(s, text) =>
      if TextValid(TypeOf(s), text) then
        AfterSetTextOk(sn, s, text);
        AfterSetText(sn, s, text)
      else sn
    case Load(lines) => ReadFile(sn, lines)
    case _ => sn
  }

  ghost function AfterAll(sn: Snapshot, ops: seq<Operation>): (r: Snapshot)
    requires SettingsOk(sn) && NamesUnique(sn.defs) && forall op :: op in ops ==> OperationOk(sn.defs, op)
    ensures SettingsOk(r) && r.defs == sn.defs
  {
    if ops == [] then sn
    else
      assert ops[|ops| - 1] in ops;
      After(AfterAll(sn, ops[..|ops| - 1]), ops[|ops| - 1])
  }

  /** The files saved: at each save, what follows from the settings at that moment. */
  ghost function Saved(sn: Snapshot, ops: seq<Operation>, entries: seq<Entry>): seq<seq<string>>
    requires SettingsOk(sn) && NamesUnique(sn.defs) && forall op :: op in ops ==> OperationOk(sn.defs, op)
  {
    if ops == [] then []
    else
      var sn1 := AfterAll(sn, ops[..|ops| - 1]);
      Saved(sn, ops[..|ops| - 1], entries) +
      if ops[|ops| - 1].Save? then [File(sn1, Solve(sn1), entries)] else []
  }

  /** One more operation. */
  lemma NextOperation(sn: Snapshot, ops: seq<Operation>, entries: seq<Entry>, i: nat)
    requires OpsOk(sn, ops) && i < |ops|
    ensures OpsOk(sn, ops[..i]) && OpsOk(sn, ops[..i + 1]) && OperationOk(sn.defs, ops[i])
    ensures AfterAll(sn, ops[..i + 1]) == After(AfterAll(sn, ops[..i]), ops[i])
    ensures var sn1 := AfterAll(sn, ops[..i]);
            Saved(sn, ops[..i + 1], entries) ==
              Saved(sn, ops[..i], entries) + if ops[i].Save? then [File(sn1, Solve(sn1), entries)] else []
  {
    assert ops[..i + 1][..i] == ops[..i] && ops[i] in ops;
    hide After, File, OperationOk, SettingsOk, NamesUnique;
  }

  ghost predicate OpsOk(sn: Snapshot, ops: seq<Operation>) {
    SettingsOk(sn) && NamesUnique(sn.defs) && forall op :: op in ops ==> OperationOk(sn.defs, op)
  }

  lemma NoOperation(sn: Snapshot, ops: seq<Operation>, entries: seq<Entry>)
    requires OpsOk(sn, ops)
    ensures ops[..0] == [] && ops[..|ops|] == ops && AfterAll(sn, ops[..0]) == sn && Saved(sn, ops[..0], entries) == []
  {
    hide OperationOk, SettingsOk, NamesUnique;
  }

  /** A run of the program, for declarations without choices. */
  method Run(table: SymbolTable, ops: seq<Operation>, entries: seq<Entry>, ghost k: nat) returns (files: seq<seq<string>>)
    requires table.Inv() && ChoiceFree(table.defs) && NamesUnique(table.defs) && EntriesOk(table, entries, k)
    requires forall op :: op in ops ==> OperationOk(table.defs, op)
    modifies table
    ensures table.Inv() && table.Snap() == AfterAll(old(table.Snap()), ops)
    ensures files == Saved(old(table.Snap()), ops, entries)
  {
    ghost var sn := table.Snap();
    assert OpsOk(sn, ops);
    hide *;
    files := [];
    NoOperation(sn, ops, entries);
    for i := 0 to |ops|
      invariant OpsOk(sn, ops) && OpsOk(sn, ops[..i])
      invariant table.Inv() && table.Snap() == AfterAll(sn, ops[..i])
      invariant files == Saved(sn, ops[..i], entries)
    {
      NextOperation(sn, ops, entries, i);
      var file := Perform(table, ops[i], entries, k);
      SavedNow(sn, ops, entries, i, file);
      files := files + file;
    }
  }

  lemma AfterSave(sn: Snapshot, op: Operation)
    requires SettingsOk(sn) && NamesUnique(sn.defs) && OperationOk(sn.defs, op)
    ensures op.Save? ==> After(sn, op) == sn
  {
  }

  /** A save leaves the settings alone. */
  lemma SavedNow(sn: Snapshot, ops: seq<Operation>, entries: seq<Entry>, i: nat, file: seq<seq<string>>)
    requires OpsOk(sn, ops) && i < |ops| && OpsOk(sn, ops[..i]) && OpsOk(sn, ops[..i + 1])
    requires var sn' := AfterAll(sn, ops[..i + 1]); file == if ops[i].Save? then [File(sn', Solve(sn'), entries)] else []
    ensures Saved(sn, ops[..i + 1], entries) == Saved(sn, ops[..i], entries) + file
  {
    AfterSave(AfterAll(sn, ops[..i]), ops[i]);
    NextOperation(sn, ops, entries, i);
    hide AfterAll, Saved, File, SettingsOk, NamesUnique, After, OperationOk, OpsOk;
  }

  method Perform(table: SymbolTable, op: Operation, entries: seq<Entry>, ghost k: nat) returns (file: seq<seq<string>>)
    requires table.Inv() && ChoiceFree(table.defs) && NamesUnique(table.defs) && EntriesOk(table, entries, k)
    requires OperationOk(table.defs, op)
    modifies table
    ensures table.Inv() && SettingsOk(old(table.Snap())) && table.Snap() == After(old(table.Snap()), op)
    ensures file == if op.Save? then [File(table.Snap(), Solve(table.Snap()), entries)] else []
  {
    assert SettingsOk(table.Snap());
    hide SettingsOk, NamesUnique, ChoiceFree, EntriesOk, File, AfterSet, AfterSetText, ReadFile, TextValid, WithinRange,
      SymbolTable.Inv, SymbolTable.Right, Snapshot.Ok, Snapshot.Solution, IsCString;
    file := [];
    match op
    case Calculate(s) =>
      CalcOnly(table, s);
    case SetTo(s, val) =>
      SetLogical(table, s, val);
    case SetText(s, text) =>
      var _ := table.SetString(s, text);
    case Load(lines) =>
      Read(table, lines);
    case Save =>
      var lines := Write(table, entries, k);
      file := [lines];
  }

  method CalcOnly(table: SymbolTable, s: Symbol)
    requires table.Inv() && ChoiceFree(table.defs) && (TypeOf(s) == Unknown <==> s !in table.defs)
    modifies table
    ensures table.Inv() && table.Fresh() && table.Snap() == old(table.Snap()) && (s in table.defs ==> s in table.valid)
  {
    hide SettingsOk, AllCoherent, AllFresh, Shape, Snapshot.Ok, Snapshot.Solution;
    table.NeverStale();
    table.Calc(s);
  }

  lemma NoSelection(sn: Snapshot, s: Symbol, val: Tri, v: Values)
    requires ChoiceFree(sn.defs) && s in sn.defs
    ensures KeepsSelection(sn, s, val, v)
  {
  }

  lemma AfterSetTo(sn: Snapshot, s: Symbol, val: Tri)
    requires SettingsOk(sn) && NamesUnique(sn.defs) && s in sn.defs && IsLogical(s)
    ensures OperationOk(sn.defs, SetTo(s, val)) && s in sn.def
    ensures After(sn, SetTo(s, val)) ==
            if val == Lookup(Solve(sn), s).tri || WithinRange(sn, Solve(sn), s, val) then AfterSet(sn, s, val) else sn
  {
    hide WithinRange, AfterSet, NamesUnique;
  }

  method SetLogical(table: SymbolTable, s: Symbol, val: Tri)
    requires table.Inv() && ChoiceFree(table.defs) && NamesUnique(table.defs) && s in table.defs && IsLogical(s)
    modifies table
    ensures table.Inv() && SettingsOk(old(table.Snap())) && table.Snap() == After(old(table.Snap()), SetTo(s, val))
  {
    ghost var sn := table.Snap();
    assert SettingsOk(sn) && table.Expected(s) == Lookup(Solve(sn), s);
    NoSelection(sn, s, val, Solve(sn));
    AfterSetTo(sn, s, val);
    hide *;
    CalcOnly(table, s);
    var ok := table.SetTristate(s, val);
  }

  /** The setting lines of a file are those of the symbols written out, one for each. */
  lemma {:induction false} BodyOfItems(sn: Snapshot, v: Values, entries: seq<Entry>)
    requires v.Keys == sn.defs.Keys && forall e :: e in entries ==> !e.Heading?
    ensures |Body(sn, v, entries)| == |Emitted(sn, v, entries)|
    ensures forall i :: 0 <= i < |Body(sn, v, entries)| ==>
              var s := Emitted(sn, v, entries)[i]; s in sn.defs && Body(sn, v, entries)[i] == LineOf(s, v[s])
  {
    if entries != [] {
      BodyOfItems(sn, v, entries[..|entries| - 1]);
      assert entries[|entries| - 1] in entries;
    }
  }
}
