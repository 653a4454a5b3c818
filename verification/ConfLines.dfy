/** What single lines of a configuration file mean, written and read. */
module ConfLines {
  import opened Options
  import opened Tristate
  import opened Symbols
  import opened Expressions
  import opened SymbolSpec
  import opened SymbolText
  import opened SymbolSetting
  import opened ConfFormat
  import opened ConfRoundTrip

  // ----- Reading -----

  /** Only the setting of `s` has changed, to `x`; it is new or not as before unless `touched`. */
  ghost predicate OnlySet(sn: Snapshot, sn': Snapshot, s: Symbol, x: Value, touched: bool) {
    sn'.defs == sn.defs && sn'.modules == sn.modules && sn'.def.Keys == sn.def.Keys && sn'.stored == sn.stored &&
    s in sn'.def && sn'.def[s] == x && (forall t :: t in sn.def && t != s ==> sn'.def[t] == sn.def[t]) &&
    forall t :: t in sn'.isNew <==> t in sn.isNew && !(t == s && touched)
  }

  lemma LineOfName(sn: Snapshot, s: Symbol, p: string)
    requires Reading(sn) && s in sn.defs && s.Config? && NameOk(s.name)
    ensures s in sn.def && ReadLine(sn, s.name + "=" + p) == ReadMember(ReadAssigned(sn, s, p), s)
  {
    AssignedLine(s.name, p);
    assert Named(sn.defs, s.name) == Some(s);
    hide ReadAssigned, ReadMember, Snapshot.Ok, NewTextsUnset;
  }

  /** The text after the equals sign stands for a value of the logical symbol `s`. */
  predicate Names(s: Symbol, p: string) {
    p != "" && (p[0] == 'y' || p[0] == 'n' || (p[0] == 'm' && TypeOf(s) == ThreeState))
  }

  function ValueNamed(s: Symbol, p: string): Tri
    requires Names(s, p)
  {
    if p[0] == 'y' then YES else if p[0] == 'n' then NO else MOD
  }

  lemma AssignedValue(sn: Snapshot, s: Symbol, p: string)
    requires sn.Ok() && s in sn.defs && s in sn.def && IsLogical(s)
    ensures if Names(s, p) then OnlySet(sn, ReadAssigned(sn, s, p), s, sn.def[s].(tri := ValueNamed(s, p)), true) else ReadAssigned(sn, s, p) == sn
  {
    hide Snapshot.Ok;
  }

  /** `NAME=y`, `NAME=n` and, for a tristate symbol, `NAME=m` set the symbol to that; anything else is ignored. */
  lemma LogicalLine(sn: Snapshot, s: Symbol, p: string)
    requires Reading(sn) && s in sn.defs && s.Config? && NameOk(s.name) && IsLogical(s) && sn.defs[s].group.None?
    ensures var sn' := ReadLine(sn, s.name + "=" + p);
            if Names(s, p) then OnlySet(sn, sn', s, sn.def[s].(tri := ValueNamed(s, p)), true) else sn' == sn
  {
    LineOfName(sn, s, p);
    AssignedValue(sn, s, p);
    hide ReadLine, Reading, ReadAssigned, Names;
  }

  /** `NAME=text` sets a number or string if the text is valid for it, and is ignored otherwise. */
  lemma TextLine(sn: Snapshot, s: Symbol, p: string)
    requires Reading(sn) && s in sn.defs && s.Config? && NameOk(s.name) && !IsLogical(s)
    ensures var sn' := ReadLine(sn, s.name + "=" + p);
            if TextValid(TypeOf(s), p) then OnlySet(sn, sn', s, sn.def[s].(text := Some(p)), true) else sn' == sn
  {
    LineOfName(sn, s, p);
    GroupOf(sn, s);
    hide ReadLine, Reading, TextValid;
  }

  lemma CommentName(n: string, rest: string)
    requires NameOk(n)
    ensures var line := "# " + n + " " + rest;
            line[0] == '#' && UnsetName(line) == if "is not set" <= rest then Some(n) else None
  {
    var line := "# " + n + " " + rest;
    assert forall i :: 2 <= i < 2 + |n| ==> line[i] == n[i - 2];
    FindIs(line, ' ', 0, 1);
    FindIs(line, ' ', 2, 2 + |n|);
    assert line[3 + |n|..] == rest && line[2..2 + |n|] == n;
  }

  /** `# NAME is not set`, whatever follows, sets a logical symbol to n; other comments say nothing. */
  lemma UnsetLineRead(sn: Snapshot, s: Symbol, rest: string)
    requires Reading(sn) && s in sn.defs && s.Config? && NameOk(s.name)
    ensures var sn' := ReadLine(sn, "# " + s.name + " " + rest);
            if IsLogical(s) && "is not set" <= rest then OnlySet(sn, sn', s, sn.def[s].(tri := NO), true) else sn' == sn
  {
    CommentName(s.name, rest);
    assert Named(sn.defs, s.name) == Some(s);
    hide UnsetName, Snapshot.Ok, NewTextsUnset;
  }

  /** The value of `s` is passed on to its choice `g`, and y makes it the selection; nothing else has changed. */
  ghost predicate PassedOn(sn: Snapshot, sn': Snapshot, s: Symbol, g: Symbol) {
    s in sn.def && g in sn.def && sn'.defs == sn.defs && sn'.modules == sn.modules && sn'.isNew == sn.isNew &&
    sn'.def == sn.def[g := sn.def[g].(tri := sn.def[s].tri)] &&
    sn'.stored == if sn.def[s].tri == YES then sn.stored[g := Some(s)] else sn.stored
  }

  /**
   * A line about a value `s` of the choice `g` sets it if it names a value, like any other; then the choice
   * gets what `s` has, and a y makes `s` the stored selection.
   */
  lemma MemberLine(sn: Snapshot, s: Symbol, p: string) returns (sn1: Snapshot)
    requires Reading(sn) && s in sn.defs && s.Config? && NameOk(s.name) && sn.defs[s].group.Some?
    ensures IsLogical(s) && s in sn.def
    ensures if Names(s, p) then OnlySet(sn, sn1, s, sn.def[s].(tri := ValueNamed(s, p)), true) else sn1 == sn
    ensures PassedOn(sn1, ReadLine(sn, s.name + "=" + p), s, sn.defs[s].group.value)
  {
    LineOfName(sn, s, p);
    GroupOf(sn, s);
    AssignedValue(sn, s, p);
    sn1 := ReadAssigned(sn, s, p);
    hide ReadLine, Reading, ReadAssigned, Names;
  }

  /** So `NAME=y` selects the value and makes the choice y, and any other value does not touch the selection. */
  lemma MemberSelected(sn: Snapshot, s: Symbol, p: string)
    requires Reading(sn) && s in sn.defs && s.Config? && NameOk(s.name) && sn.defs[s].group.Some? && Names(s, p)
    ensures var (sn', g) := (ReadLine(sn, s.name + "=" + p), sn.defs[s].group.value);
            s in sn'.def && g in sn'.def && sn'.def[s].tri == sn'.def[g].tri == ValueNamed(s, p) && s !in sn'.isNew &&
            g in sn'.stored && (p[0] == 'y' ==> sn'.stored[g] == Some(s)) && (p[0] != 'y' ==> sn'.stored == sn.stored)
  {
    var sn1 := MemberLine(sn, s, p);
    GroupOf(sn, s);
    assert sn.stored.Keys == sn.defs.Keys;
    hide ReadLine, Snapshot.Ok;
  }

  /** A line for a name that no symbol has, and a line that begins otherwise, say nothing. */
  lemma OtherLine(sn: Snapshot, line: string)
    requires Reading(sn)
    ensures line != "" && line[0] != '#' && !('A' <= line[0] <= 'Z') ==> ReadLine(sn, line) == sn
    ensures forall n, p :: NameOk(n) && line == n + "=" + p && (forall s :: s in sn.defs && s.Config? ==> s.name != n) ==>
              ReadLine(sn, line) == sn
  {
    forall n, p | NameOk(n) && line == n + "=" + p && forall s :: s in sn.defs && s.Config? ==> s.name != n
      ensures ReadLine(sn, line) == sn
    {
      AssignedLine(n, p);
      assert Named(sn.defs, n).None?;
    }
  }

  /** Before the first line everything is new and unset; after the last no choice is new. */
  lemma FileFrame(sn: Snapshot, lines: seq<string>)
    requires SettingsOk(sn) && NamesUnique(sn.defs)
    ensures Reset(sn).isNew == sn.defs.Keys && forall s :: s in sn.defs ==> Reset(sn).def[s] == Value(None, NO) && Reset(sn).stored[s].None?
    ensures Reading(Reset(sn)) && ReadFile(sn, lines).def == ReadLines(Reset(sn), lines).def &&
            ReadFile(sn, lines).stored == ReadLines(Reset(sn), lines).stored
    ensures forall s :: s in ReadFile(sn, lines).isNew <==> s in ReadLines(Reset(sn), lines).isNew && !(s in sn.defs && s.Choice?)
  {
    ResetReading(sn);
  }

  // ----- Writing -----

  /** The lines as they stand in the file. */
  lemma LineForms(s: Symbol, x: Value)
    requires s.Config?
    ensures IsLogical(s) ==> LineOf(s, x) == (if x.tri == NO then "# " + s.name + " is not set" else if x.tri == MOD then s.name + "=m" else s.name + "=y")
    ensures !IsLogical(s) && TypeOf(s) != Str ==> LineOf(s, x) == s.name + "=" + Text(x)
    ensures TypeOf(s) == Str && PlainText(Text(x)) ==> LineOf(s, x) == s.name + "=" + Text(x)
  {
    if TypeOf(s) == Str && PlainText(Text(x)) {
      EscapePlain(Text(x));
    }
  }

  /** What the text was before its quotes and backslashes got a backslash. */
  function Unescape(t: string): string {
    if t == "" then ""
    else if t[0] == '\\' && |t| > 1 then [t[1]] + Unescape(t[2..])
    else [t[0]] + Unescape(t[1..])
  }

  /** No quote or backslash stands without one before it, and nothing else gets one. */
  predicate WellEscaped(t: string) {
    t == "" ||
    (if t[0] == '\\' then |t| > 1 && (t[1] == '\\' || t[1] == '"') && WellEscaped(t[2..])
     else t[0] != '"' && WellEscaped(t[1..]))
  }

  lemma {:induction false} EscapeReversible(t: string)
    ensures Unescape(Escape(t)) == t && WellEscaped(Escape(t))
  {
    if t != "" {
      EscapeReversible(t[1..]);
      var (e, r) := (Escape(t), Escape(t[1..]));
      if t[0] == '"' || t[0] == '\\' {
        assert e == ['\\', t[0]] + r && e[2..] == r;
      } else {
        assert e == [t[0]] + r && e[1..] == r;
      }
      assert t == [t[0]] + t[1..];
    }
  }
}
