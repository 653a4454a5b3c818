/** The lines of a .config file: what conf_write makes of a value and conf_read of a line. */
module ConfFormat {
  import opened Options
  import opened Tristate
  import opened Symbols
  import opened Expressions
  import opened SymbolSpec
  import opened SymbolText
  import opened SymbolSetting

  // ----- Writing -----

  predicate NeedsEscape(c: char) {
    c == '"' || c == '\\'
  }

  /** The text of a string symbol with a backslash before every quote and backslash. */
  function Escape(t: string): string {
    if t == "" then ""
    else (if NeedsEscape(t[0]) then ['\\', t[0]] else [t[0]]) + Escape(t[1..])
  }

  function NameOf(s: Symbol): string {
    if s.Config? then s.name else ""
  }

  /** The line for a symbol of value `x`. */
  function LineOf(s: Symbol, x: Value): string {
    if IsLogical(s) then
      if x.tri == NO then "# " + NameOf(s) + " is not set"
      else NameOf(s) + (if x.tri == MOD then "=m" else "=y")
    else NameOf(s) + "=" + if TypeOf(s) == Str then Escape(Text(x)) else Text(x)
  }

  // ----- Reading -----

  /** strchr from position `i`; the length of the line stands for NULL. */
  function Find(line: string, c: char, i: nat): (k: nat)
    requires i <= |line|
    ensures i <= k <= |line| && (k < |line| ==> line[k] == c)
    ensures forall j :: i <= j < k ==> line[j] != c
    decreases |line| - i
  {
    if i == |line| || line[i] == c then i else Find(line, c, i + 1)
  }

  /** The symbol name in a line of the form `# NAME is not set`, as conf_read picks it out. */
  function UnsetName(line: string): Option<string>
    requires line != "" && line[0] == '#'
  {
    var i := Find(line, ' ', 0);
    if i == |line| then None
    else
      var k := Find(line, ' ', i + 1);
      if k == |line| || !("is not set" <= line[k + 1..]) then None
      else Some(if i >= 2 then line[2..i] else line[2..k])
  }

  /** No two declared symbols share a name. */
  ghost predicate NamesUnique(defs: Defs) {
    forall s, t :: s in defs && t in defs && s.Config? && t.Config? && s.name == t.name ==> s == t
  }

  /** sym_find among the declared symbols. */
  function Named(defs: Defs, name: string): (r: Option<Symbol>)
    requires NamesUnique(defs)
    ensures r.Some? ==> r.value in defs && r.value.Config? && r.value.name == name
    ensures r.None? ==> forall s :: s in defs && s.Config? ==> s.name != name
  {
    if exists s :: s in defs && s.Config? && s.name == name then
      var s :| s in defs && s.Config? && s.name == name;
      Some(s)
    else None
  }

  /** The setting of one symbol after its line has been read. */
  ghost function ReadUnset(sn: Snapshot, s: Symbol): Snapshot
    requires s in sn.def
  {
    if IsLogical(s) then sn.(def := sn.def[s := sn.def[s].(tri := NO)], isNew := sn.isNew - {s}) else sn
  }

  ghost function ReadAssigned(sn: Snapshot, s: Symbol, p: string): Snapshot
    requires s in sn.def
  {
    if IsLogical(s) then
      if TypeOf(s) == ThreeState && CharAt(p, 0) == 'm' then
        sn.(def := sn.def[s := sn.def[s].(tri := MOD)], isNew := sn.isNew - {s})
      else if CharAt(p, 0) == 'y' then sn.(def := sn.def[s := sn.def[s].(tri := YES)], isNew := sn.isNew - {s})
      else if CharAt(p, 0) == 'n' then sn.(def := sn.def[s := sn.def[s].(tri := NO)], isNew := sn.isNew - {s})
      else sn
    else if TextValid(TypeOf(s), p) then
      sn.(def := sn.def[s := sn.def[s].(text := Some(p))], isNew := sn.isNew - {s})
    else sn
  }

  /** A choice value that has been assigned passes the value, and y also the selection, to its choice. */
  ghost function ReadMember(sn: Snapshot, s: Symbol): Snapshot
    requires s in sn.def && s in sn.defs
  {
    var g := sn.defs[s].group;
    if g.None? || g.value !in sn.def then sn
    else
      var sn1 := if sn.def[s].tri == YES then sn.(stored := sn.stored[g.value := Some(s)]) else sn;
      sn1.(def := sn.def[g.value := sn.def[g.value].(tri := sn.def[s].tri)])
  }

  ghost function ReadLine(sn: Snapshot, line: string): Snapshot
    requires NamesUnique(sn.defs) && sn.defs.Keys <= sn.def.Keys
  {
    if line == "" then sn
    else if line[0] == '#' then
      var name := UnsetName(line);
      if name.None? then sn
      else
        var s := Named(sn.defs, name.value);
        if s.None? then sn else ReadUnset(sn, s.value)
    else if 'A' <= line[0] <= 'Z' then
      var i := Find(line, '=', 0);
      if i == |line| then sn
      else
        var s := Named(sn.defs, line[..i]);
        if s.None? then sn
        else
          var sn1 := ReadAssigned(sn, s.value, line[i + 1..]);
          ReadMember(sn1, s.value)
    else sn
  }

  /** What reading keeps from line to line. */
  ghost predicate Reading(sn: Snapshot) {
    sn.Ok() && NewTextsUnset(sn) && NamesUnique(sn.defs)
  }

  ghost function ReadLines(sn: Snapshot, lines: seq<string>): Snapshot
    requires Reading(sn)
    ensures Reading(ReadLines(sn, lines))
    ensures var r := ReadLines(sn, lines); r.defs == sn.defs && r.modules == sn.modules && r.rank == sn.rank
  {
    if lines == [] then sn
    else
      var sn1 := ReadLines(sn, lines[..|lines| - 1]);
      ReadLineKeeps(sn1, lines[|lines| - 1]);
      ReadLine(sn1, lines[|lines| - 1])
  }

  lemma ReadLineKeeps(sn: Snapshot, line: string)
    requires Reading(sn)
    ensures Reading(ReadLine(sn, line))
    ensures var r := ReadLine(sn, line); r.defs == sn.defs && r.modules == sn.modules && r.rank == sn.rank
  {
    hide ReadUnset, ReadAssigned, ReadMember, UnsetName;
    if line != "" && 'A' <= line[0] <= 'Z' && Find(line, '=', 0) < |line| {
      var i := Find(line, '=', 0);
      var s := Named(sn.defs, line[..i]);
      if s.Some? {
        ReadAssignedKeeps(sn, s.value, line[i + 1..]);
        ReadMemberKeeps(ReadAssigned(sn, s.value, line[i + 1..]), s.value);
      }
    } else if line != "" && line[0] == '#' && UnsetName(line).Some? {
      var s := Named(sn.defs, UnsetName(line).value);
      if s.Some? {
        ReadUnsetKeeps(sn, s.value);
      }
    }
  }

  lemma Redefined(sn: Snapshot, sn': Snapshot)
    requires sn.Ok() && sn'.defs == sn.defs && sn'.modules == sn.modules && sn'.rank == sn.rank
    requires sn'.def.Keys == sn.def.Keys && sn'.stored.Keys == sn.stored.Keys
    requires forall c :: c in sn.defs && sn'.stored[c].Some? && sn'.stored[c] != sn.stored[c] ==>
               sn'.stored[c].value in sn.defs[c].members
    ensures sn'.Ok()
  {
    forall t | t in sn'.defs ensures SymbolOk(sn'.defs, sn'.modules, sn'.rank, t) {
      var ok := SymbolOk(sn.defs, sn.modules, sn.rank, t);
      assert ok;
    }
  }

  lemma ReadUnsetKeeps(sn: Snapshot, s: Symbol)
    requires Reading(sn) && s in sn.defs
    ensures Reading(ReadUnset(sn, s))
    ensures var r := ReadUnset(sn, s); r.defs == sn.defs && r.modules == sn.modules && r.rank == sn.rank
  {
    var sn' := ReadUnset(sn, s);
    Redefined(sn, sn');
    forall t | t in sn.defs && !IsLogical(t) ensures TextOk(sn', t) {
      TextIsOk(sn, t);
    }
  }

  lemma ReadAssignedKeeps(sn: Snapshot, s: Symbol, p: string)
    requires Reading(sn) && s in sn.defs
    ensures Reading(ReadAssigned(sn, s, p))
    ensures var r := ReadAssigned(sn, s, p); r.defs == sn.defs && r.modules == sn.modules && r.rank == sn.rank
  {
    var sn' := ReadAssigned(sn, s, p);
    Redefined(sn, sn');
    hide Snapshot.Ok, TextValid, NamesUnique, CharAt;
    forall t | t in sn.defs && !IsLogical(t) ensures TextOk(sn', t) {
      TextIsOk(sn, t);
    }
  }

  lemma ReadMemberKeeps(sn: Snapshot, s: Symbol)
    requires Reading(sn) && s in sn.defs
    ensures Reading(ReadMember(sn, s))
    ensures var r := ReadMember(sn, s); r.defs == sn.defs && r.modules == sn.modules && r.rank == sn.rank
  {
    GroupOf(sn, s);
    var sn' := ReadMember(sn, s);
    Redefined(sn, sn');
    forall t | t in sn.defs && !IsLogical(t) ensures TextOk(sn', t) {
      TextIsOk(sn, t);
    }
  }

  /** All settings forgotten, as at the start of conf_read. */
  ghost function Reset(sn: Snapshot): Snapshot {
    Initial(sn.defs, sn.modules, sn.rank)
  }

  /** conf_read: no choice is new afterwards. */
  ghost function ReadFile(sn: Snapshot, lines: seq<string>): Snapshot
    requires SettingsOk(sn) && NamesUnique(sn.defs)
    ensures SettingsOk(ReadFile(sn, lines))
  {
    ResetReading(sn);
    var r := ReadLines(Reset(sn), lines);
    ChoicesSettle(r);
    r.(isNew := r.isNew - set c | c in r.defs && c.Choice?)
  }

  lemma ResetReading(sn: Snapshot)
    requires sn.Ok() && NamesUnique(sn.defs)
    ensures Reading(Reset(sn))
  {
    forall t | t in sn.defs ensures SymbolOk(sn.defs, sn.modules, sn.rank, t) {
      var ok := SymbolOk(sn.defs, sn.modules, sn.rank, t);
      assert ok;
    }
    InitialOk(sn.defs, sn.modules, sn.rank);
  }

  lemma ChoicesSettle(sn: Snapshot)
    requires Reading(sn)
    ensures SettingsOk(sn.(isNew := sn.isNew - set c | c in sn.defs && c.Choice?))
  {
    var sn' := sn.(isNew := sn.isNew - set c | c in sn.defs && c.Choice?);
    Redefined(sn, sn');
    forall s | s in sn.defs && s in sn.def && !IsLogical(s)
      ensures TextOk(sn', s)
    {
      var ok := SymbolOk(sn.defs, sn.modules, sn.rank, s);
      assert ok;
      TextIsOk(sn, s);
    }
  }
}
