/** Saving the configuration and reading it back. */
module ConfRoundTrip {
  import opened Options
  import opened Tristate
  import opened Symbols
  import opened Expressions
  import opened SymbolSpec
  import opened SymbolText
  import opened SymbolSetting
  import opened ConfFormat

  /** A menu entry as conf_write meets it: a symbol, a titled comment or menu, or nothing to show. */
  datatype Entry =
    | Item(s: Symbol)
    | Heading(title: string, cond: Option<Expr>)
    | Untitled

  const HEADER: seq<string> := ["#", "# Automatically " + "generated make config: don't edit", "#"]

  /** The symbols written to the file: each entry of a symbol that is written out, the first time. */
  ghost function Emitted(sn: Snapshot, v: Values, entries: seq<Entry>): seq<Symbol> {
    if entries == [] then []
    else
      var (init, last) := (entries[..|entries| - 1], entries[|entries| - 1]);
      Emitted(sn, v, init) + if Emits(sn, v, init, last) then [last.s] else []
  }

  ghost predicate Emits(sn: Snapshot, v: Values, before: seq<Entry>, e: Entry) {
    e.Item? && !e.s.Choice? && e.s in sn.defs && sn.Written(e.s, v) && e !in before
  }

  /** The lines below the header. */
  ghost function Body(sn: Snapshot, v: Values, entries: seq<Entry>): seq<string>
    requires v.Keys == sn.defs.Keys
  {
    if entries == [] then []
    else
      var (init, last) := (entries[..|entries| - 1], entries[|entries| - 1]);
      Body(sn, v, init) + EntryLines(sn, v, init, last)
  }

  ghost function EntryLines(sn: Snapshot, v: Values, before: seq<Entry>, e: Entry): seq<string>
    requires v.Keys == sn.defs.Keys
  {
    if Emits(sn, v, before, e) then [LineOf(e.s, v[e.s])]
    else if e.Heading? && EvalOpt(e.cond, EnvOf(v)) != NO then ["", "#", "# " + e.title, "#"]
    else []
  }

  /** Each symbol that is written out and has an entry is written exactly once. */
  lemma {:induction false} EmittedOnce(sn: Snapshot, v: Values, entries: seq<Entry>)
    ensures forall i, j :: 0 <= i < j < |Emitted(sn, v, entries)| ==> Emitted(sn, v, entries)[i] != Emitted(sn, v, entries)[j]
    ensures forall s :: s in Emitted(sn, v, entries) <==>
              Item(s) in entries && !s.Choice? && s in sn.defs && sn.Written(s, v)
  {
    if entries != [] {
      var (init, last) := (entries[..|entries| - 1], entries[|entries| - 1]);
      EmittedOnce(sn, v, init);
      assert entries == init + [last];
    }
  }

  // ----- Lines as one text -----

  function Content(lines: seq<string>): string {
    if lines == [] then "" else lines[0] + "\n" + Content(lines[1..])
  }

  /** fgets until the end of the file. */
  function SplitLines(t: string): seq<string>
    decreases |t|
  {
    if t == "" then []
    else
      var k := Find(t, '\n', 0);
      if k == |t| then [t] else [t[..k]] + SplitLines(t[k + 1..])
  }

  predicate OneLine(t: string) {
    forall i :: 0 <= i < |t| ==> t[i] != '\n'
  }

  lemma FindIs(t: string, c: char, i: nat, k: nat)
    requires i <= k < |t| && t[k] == c && forall j :: i <= j < k ==> t[j] != c
    ensures Find(t, c, i) == k
  {
    var f := Find(t, c, i);
    if k < f {
      assert false;
    }
  }

  lemma FirstLine(l: string, rest: string)
    requires OneLine(l)
    ensures SplitLines(l + "\n" + rest) == [l] + SplitLines(rest)
  {
    var t := l + "\n" + rest;
    assert forall i :: 0 <= i < |l| ==> t[i] == l[i];
    FindIs(t, '\n', 0, |l|);
    assert t[..|l|] == l && t[|l| + 1..] == rest;
  }

  lemma {:induction false} SplitContent(lines: seq<string>)
    requires forall l :: l in lines ==> OneLine(l)
    ensures SplitLines(Content(lines)) == lines
  {
    if lines != [] {
      assert lines[0] in lines;
      FirstLine(lines[0], Content(lines[1..]));
      SplitContent(lines[1..]);
    }
  }

  // ----- Reading one written line -----

  /** Symbol names as the grammar allows them, with an upper-case first letter. */
  predicate NameOk(n: string) {
    n != "" && 'A' <= n[0] <= 'Z' &&
    forall i :: 0 <= i < |n| ==> n[i] != ' ' && n[i] != '=' && n[i] != '\n'
  }

  /** Text without quote, backslash and newline. */
  predicate PlainText(t: string) {
    forall i :: 0 <= i < |t| ==> !NeedsEscape(t[i]) && t[i] != '\n'
  }

  lemma {:induction false} EscapePlain(t: string)
    requires PlainText(t)
    ensures Escape(t) == t
  {
    if t != "" {
      EscapePlain(t[1..]);
      assert t == [t[0]] + t[1..];
    }
  }

  lemma UnsetLine(n: string)
    requires NameOk(n)
    ensures var line := "# " + n + " is not set"; line[0] == '#' && UnsetName(line) == Some(n) && OneLine(line)
  {
    var line := "# " + n + " is not set";
    assert forall i :: 2 <= i < 2 + |n| ==> line[i] == n[i - 2];
    FindIs(line, ' ', 0, 1);
    FindIs(line, ' ', 2, 2 + |n|);
    assert line[3 + |n|..] == "is not set";
    assert line[2..2 + |n|] == n;
  }

  lemma AssignedLine(n: string, p: string)
    requires NameOk(n)
    ensures var line := n + "=" + p;
            'A' <= line[0] <= 'Z' && Find(line, '=', 0) == |n| && line[..|n|] == n && line[|n| + 1..] == p
  {
    var line := n + "=" + p;
    assert forall i :: 0 <= i < |n| ==> line[i] == n[i];
    FindIs(line, '=', 0, |n|);
  }

  /** The setting of `s` that reading its line leads to. */
  ghost function Restored(sn: Snapshot, s: Symbol, x: Value): Snapshot
    requires s in sn.def
  {
    if IsLogical(s) then sn.(def := sn.def[s := sn.def[s].(tri := x.tri)], isNew := sn.isNew - {s})
    else if TextValid(TypeOf(s), Text(x)) then
      sn.(def := sn.def[s := sn.def[s].(text := Some(Text(x)))], isNew := sn.isNew - {s})
    else sn
  }

  ghost predicate ChoiceFree(defs: Defs) {
    forall s :: s in defs ==> s.Config? && defs[s].group.None?
  }

  lemma LineReadBack(sn: Snapshot, s: Symbol, x: Value)
    requires Reading(sn) && ChoiceFree(sn.defs) && s in sn.defs && NameOk(NameOf(s))
    requires TypeOf(s) == Str ==> PlainText(Text(x))
    requires x.tri == MOD ==> !IsLogical(s) || TypeOf(s) == ThreeState
    ensures ReadLine(sn, LineOf(s, x)) == Restored(sn, s, x)
  {
    if IsLogical(s) {
      LogicalReadBack(sn, s, x);
    } else {
      TextReadBack(sn, s, x);
    }
  }

  lemma LogicalReadBack(sn: Snapshot, s: Symbol, x: Value)
    requires Reading(sn) && ChoiceFree(sn.defs) && s in sn.defs && NameOk(NameOf(s)) && IsLogical(s)
    requires x.tri == MOD ==> TypeOf(s) == ThreeState
    ensures ReadLine(sn, LineOf(s, x)) == Restored(sn, s, x)
  {
    if x.tri == NO {
      assert Named(sn.defs, NameOf(s)) == Some(s);
      UnsetLine(NameOf(s));
    } else {
      SetReadBack(sn, s, x);
    }
  }

  lemma SetReadBack(sn: Snapshot, s: Symbol, x: Value)
    requires Reading(sn) && ChoiceFree(sn.defs) && s in sn.defs && NameOk(NameOf(s)) && IsLogical(s)
    requires x.tri != NO && (x.tri == MOD ==> TypeOf(s) == ThreeState)
    ensures ReadLine(sn, LineOf(s, x)) == Restored(sn, s, x)
  {
    var (n, p) := (NameOf(s), if x.tri == MOD then "m" else "y");
    assert Named(sn.defs, n) == Some(s);
    AssignedLine(n, p);
    assert LineOf(s, x) == n + "=" + p;
  }

  lemma TextReadBack(sn: Snapshot, s: Symbol, x: Value)
    requires Reading(sn) && ChoiceFree(sn.defs) && s in sn.defs && NameOk(NameOf(s)) && !IsLogical(s)
    requires TypeOf(s) == Str ==> PlainText(Text(x))
    ensures ReadLine(sn, LineOf(s, x)) == Restored(sn, s, x)
  {
    var n := NameOf(s);
    assert Named(sn.defs, n) == Some(s);
    if TypeOf(s) == Str {
      EscapePlain(Text(x));
    }
    AssignedLine(n, Text(x));
    assert LineOf(s, x) == n + "=" + Text(x);
  }

  // ----- Reading back the whole file -----

  lemma {:induction false} ReadLinesTwice(sn: Snapshot, a: seq<string>, b: seq<string>)
    requires Reading(sn)
    ensures ReadLines(sn, a + b) == ReadLines(ReadLines(sn, a), b)
  {
    if b == [] {
      assert a + b == a;
    } else {
      var n := |b| - 1;
      ReadLinesTwice(sn, a, b[..n]);
      assert (a + b)[..|a + b| - 1] == a + b[..n];
    }
  }

  lemma ReadOne(sn: Snapshot, line: string)
    requires Reading(sn)
    ensures ReadLines(sn, [line]) == ReadLine(sn, line)
  {
    assert [line][..0] == [];
  }

  /** A line of this form sets nothing. */
  predicate Harmless(line: string) {
    line == "" || (line[0] == '#' && UnsetName(line).None?)
  }

  lemma {:induction false} ReadHarmless(sn: Snapshot, lines: seq<string>)
    requires Reading(sn) && forall l :: l in lines ==> Harmless(l)
    ensures ReadLines(sn, lines) == sn
  {
    if lines != [] {
      ReadHarmless(sn, lines[..|lines| - 1]);
      assert lines[|lines| - 1] in lines;
    }
  }

  lemma CommentHarmless(word: string, rest: string)
    requires forall i :: 0 <= i < |word| ==> word[i] != ' '
    requires !("is not set" <= rest)
    ensures Harmless("# " + word + " " + rest)
  {
    var line := "# " + word + " " + rest;
    assert forall i :: 2 <= i < 2 + |word| ==> line[i] == word[i - 2];
    FindIs(line, ' ', 0, 1);
    FindIs(line, ' ', 2, 2 + |word|);
    assert line[3 + |word|..] == rest;
  }

  lemma HeaderHarmless()
    ensures forall l :: l in HEADER ==> Harmless(l)
  {
    var rest := "generated make config: don't edit";
    assert "# Automatically " == "# " + "Automatically" + " ";
    assert HEADER[1] == "# " + "Automatically" + " " + rest;
    assert rest[0] == 'g' && "is not set"[0] == 'i';
    CommentHarmless("Automatically", rest);
    assert Find("#", ' ', 0) == 1;
  }

  /** What a file can carry: no choices, ordinary names, and texts without quote, backslash and newline. */
  ghost predicate Storable(sn: Snapshot, v: Values)
    requires v.Keys == sn.defs.Keys
  {
    ChoiceFree(sn.defs) && NamesUnique(sn.defs) &&
    forall s :: s in sn.defs ==>
      NameOk(NameOf(s)) && OneLine(Text(v[s])) && (TypeOf(s) == Str ==> PlainText(Text(v[s])))
  }

  /** No title reads like a setting. */
  predicate TitlesOk(entries: seq<Entry>) {
    forall e :: e in entries && e.Heading? ==> OneLine(e.title) && Harmless("# " + e.title)
  }

  /** Every symbol with a prompt has a menu entry. */
  ghost predicate AllListed(defs: Defs, entries: seq<Entry>) {
    forall s :: s in defs && defs[s].prompts != [] ==> Item(s) in entries
  }

  /** In `r` the symbol `s` is set to `x` if its line was read, and else not at all. */
  ghost predicate SettingIs(r: Snapshot, s: Symbol, x: Value, read: bool)
    requires s in r.def
  {
    if !read || (!IsLogical(s) && !TextValid(TypeOf(s), Text(x))) then
      r.def[s] == Value(None, NO) && s in r.isNew
    else
      s !in r.isNew && if IsLogical(s) then r.def[s].tri == x.tri else r.def[s] == Value(Some(Text(x)), NO)
  }

  ghost predicate SettingsAre(sn: Snapshot, v: Values, entries: seq<Entry>, r: Snapshot)
    requires v.Keys == sn.defs.Keys && r.def.Keys == sn.defs.Keys
  {
    forall s :: s in sn.defs ==> SettingIs(r, s, v[s], Item(s) in entries && sn.Written(s, v))
  }

  /** `r` are the settings after the lines for `entries` have been read: exactly their written symbols are set. */
  ghost predicate ReadBack(sn: Snapshot, v: Values, entries: seq<Entry>, r: Snapshot) {
    v.Keys == sn.defs.Keys && Reading(Reset(sn)) && r == ReadLines(Reset(sn), Body(sn, v, entries)) &&
    Reading(r) && r.defs == sn.defs && SettingsAre(sn, v, entries, r)
  }

  lemma {:induction false} ReadBody(sn: Snapshot, v: Values, entries: seq<Entry>) returns (r: Snapshot)
    requires SettingsOk(sn) && sn.Solution(v) && Storable(sn, v) && TitlesOk(entries)
    ensures ReadBack(sn, v, entries, r)
  {
    hide *;
    if entries == [] {
      r := Reset(sn);
      NothingRead(sn, v);
    } else {
      var i := |entries| - 1;
      SolutionDomain(sn, v);
      TitlesFront(entries);
      r := ReadBody(sn, v, entries[..i]);
      r := ReadNext(sn, v, entries[..i], entries[i], r);
      assert entries[..i] + [entries[i]] == entries;
    }
  }

  lemma SolutionDomain(sn: Snapshot, v: Values)
    requires sn.Solution(v)
    ensures v.Keys == sn.defs.Keys
  {
  }

  /** A title that does not read like a setting. */
  predicate TitleOk(e: Entry) {
    e.Heading? ==> Harmless("# " + e.title)
  }

  lemma TitlesFront(entries: seq<Entry>)
    requires entries != [] && TitlesOk(entries)
    ensures TitlesOk(entries[..|entries| - 1]) && TitleOk(entries[|entries| - 1])
  {
    assert entries[|entries| - 1] in entries;
  }

  lemma NothingRead(sn: Snapshot, v: Values)
    requires SettingsOk(sn) && sn.Solution(v) && Storable(sn, v)
    ensures ReadBack(sn, v, [], Reset(sn))
  {
    ResetReading(sn);
  }

  lemma ReadNext(sn: Snapshot, v: Values, init: seq<Entry>, last: Entry, q: Snapshot) returns (r: Snapshot)
    requires SettingsOk(sn) && sn.Solution(v) && v.Keys == sn.defs.Keys && Storable(sn, v) && TitleOk(last)
    requires ReadBack(sn, v, init, q)
    ensures ReadBack(sn, v, init + [last], r)
  {
    ItemStorable(sn, v, last);
    BodyNext(sn, v, init, last);
    ReadBackParts(sn, v, init, q);
    assert last.Heading? ==> Harmless("# " + last.title);
    hide *;
    ReadLinesTwice(Reset(sn), Body(sn, v, init), EntryLines(sn, v, init, last));
    ReadEntry(sn, v, init, last, q);
    r := ReadLines(q, EntryLines(sn, v, init, last));
    ReadBackMade(sn, v, init + [last], r);
  }

  lemma BodyNext(sn: Snapshot, v: Values, init: seq<Entry>, last: Entry)
    requires v.Keys == sn.defs.Keys
    ensures Body(sn, v, init + [last]) == Body(sn, v, init) + EntryLines(sn, v, init, last)
  {
    hide EntryLines;
    assert (init + [last])[..|init|] == init;
  }

  lemma ReadBackParts(sn: Snapshot, v: Values, entries: seq<Entry>, r: Snapshot)
    requires ReadBack(sn, v, entries, r)
    ensures v.Keys == sn.defs.Keys && Reading(Reset(sn)) && r == ReadLines(Reset(sn), Body(sn, v, entries))
    ensures Reading(r) && r.def.Keys == sn.defs.Keys == r.defs.Keys && r.defs == sn.defs && SettingsAre(sn, v, entries, r)
  {
  }

  lemma ReadBackMade(sn: Snapshot, v: Values, entries: seq<Entry>, r: Snapshot)
    requires v.Keys == sn.defs.Keys && Reading(Reset(sn)) && r == ReadLines(Reset(sn), Body(sn, v, entries))
    requires Reading(r) && r.defs == sn.defs && SettingsAre(sn, v, entries, r)
    ensures ReadBack(sn, v, entries, r)
  {
  }

  lemma ItemStorable(sn: Snapshot, v: Values, e: Entry)
    requires v.Keys == sn.defs.Keys && Storable(sn, v)
    ensures ChoiceFree(sn.defs)
    ensures e.Item? && e.s in sn.defs ==> NameOk(NameOf(e.s)) && (TypeOf(e.s) == Str ==> PlainText(Text(v[e.s])))
  {
  }

  lemma ReadEntry(sn: Snapshot, v: Values, init: seq<Entry>, last: Entry, q: Snapshot)
    requires SettingsOk(sn) && sn.Solution(v) && ChoiceFree(sn.defs)
    requires last.Item? && last.s in sn.defs ==>
               NameOk(NameOf(last.s)) && (TypeOf(last.s) == Str ==> PlainText(Text(v[last.s])))
    requires last.Heading? ==> Harmless("# " + last.title)
    requires Reading(q) && q.defs == sn.defs && SettingsAre(sn, v, init, q)
    ensures var r := ReadLines(q, EntryLines(sn, v, init, last));
            Reading(r) && r.defs == sn.defs && SettingsAre(sn, v, init + [last], r)
  {
    assert v.Keys == sn.defs.Keys == q.def.Keys;
    hide *;
    var lines := EntryLines(sn, v, init, last);
    if Emits(sn, v, init, last) {
      EmitsLine(sn, v, init, last);
      ReadOne(q, lines[0]);
      ReadItem(sn, v, init, last.s, q);
    } else {
      NoSetting(sn, v, init, last, q);
      ReadHarmless(q, lines);
    }
  }

  lemma EmitsLine(sn: Snapshot, v: Values, init: seq<Entry>, e: Entry)
    requires v.Keys == sn.defs.Keys && Emits(sn, v, init, e)
    ensures e.Item? && e.s in sn.defs && sn.Written(e.s, v) && Item(e.s) !in init
    ensures EntryLines(sn, v, init, e) == [LineOf(e.s, v[e.s])]
  {
  }

  lemma NoSetting(sn: Snapshot, v: Values, init: seq<Entry>, last: Entry, q: Snapshot)
    requires v.Keys == sn.defs.Keys == q.def.Keys && ChoiceFree(sn.defs)
    requires !Emits(sn, v, init, last) && (last.Heading? ==> Harmless("# " + last.title))
    requires SettingsAre(sn, v, init, q)
    ensures forall l :: l in EntryLines(sn, v, init, last) ==> Harmless(l)
    ensures SettingsAre(sn, v, init + [last], q)
  {
    hide Snapshot.Written, SettingIs, EvalOpt;
    assert Find("#", ' ', 0) == 1;
    forall s | s in sn.defs
      ensures SettingIs(q, s, v[s], Item(s) in init + [last] && sn.Written(s, v))
    {
      assert SettingIs(q, s, v[s], Item(s) in init && sn.Written(s, v));
    }
  }

  lemma ReadItem(sn: Snapshot, v: Values, init: seq<Entry>, s: Symbol, q: Snapshot)
    requires SettingsOk(sn) && sn.Solution(v) && ChoiceFree(sn.defs)
    requires s in sn.defs && NameOk(NameOf(s)) && (TypeOf(s) == Str ==> PlainText(Text(v[s])))
    requires Reading(q) && q.defs == sn.defs && SettingsAre(sn, v, init, q)
    requires sn.Written(s, v) && Item(s) !in init
    ensures var r := ReadLine(q, LineOf(s, v[s]));
            Reading(r) && r.defs == sn.defs && SettingsAre(sn, v, init + [Item(s)], r)
  {
    CalculatedDefinite(sn, v);
    assert TypeOf(s) == Boolean ==> EnvOf(v).tri(s) != MOD;
    LineReadBack(q, s, v[s]);
    ReadLineKeeps(q, LineOf(s, v[s]));
    assert q.def.Keys == q.defs.Keys;
    ItemSet(sn, v, init, s, q);
  }

  lemma ItemSet(sn: Snapshot, v: Values, init: seq<Entry>, s: Symbol, q: Snapshot)
    requires v.Keys == sn.defs.Keys && s in sn.defs && q.defs == sn.defs && q.def.Keys == sn.defs.Keys
    requires SettingsAre(sn, v, init, q) && sn.Written(s, v) && Item(s) !in init
    ensures SettingsAre(sn, v, init + [Item(s)], Restored(q, s, v[s]))
  {
    hide Snapshot.Written;
    var r := Restored(q, s, v[s]);
    forall t | t in sn.defs
      ensures SettingIs(r, t, v[t], Item(t) in init + [Item(s)] && sn.Written(t, v))
    {
      assert SettingIs(q, t, v[t], Item(t) in init && sn.Written(t, v));
    }
  }
}
