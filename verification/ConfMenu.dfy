/** conf_write over the menu tree itself. */
module ConfMenu {
  import opened Options
  import opened Tristate
  import opened Symbols
  import opened Expressions
  import opened SymbolSpec
  import opened SymbolTables
  import opened ConfRoundTrip
  import opened ConfSaveLoad
  import opened ConfData
  import opened MenuForest
  import opened MenuDeps
  import opened MenuFinalization
  import opened MenuWalk

  /** What conf_write looks at in a menu structure. */
  function EntryFor(e: MenuEntry): Entry
    requires EntryOk(e)
  {
    if e.sym.Some? then Item(e.sym.value)
    else if e.prompt.Some? then
      var p := e.props[e.prompt.value];
      Heading(p.text.value, p.visible)
    else Untitled
  }

  function EntriesFor(e: Entries, order: seq<Id>): seq<Entry>
    requires forall i :: i in order ==> i in e && EntryOk(e[i])
  {
    seq(|order|, k requires 0 <= k < |order| => assert order[k] in order; EntryFor(e[order[k]]))
  }

  /** The configuration is written in the order of the menu tree. */
  method WriteMenu(table: SymbolTable, tree: MenuTree, root: Id, ghost l: Forest, ghost k: nat) returns (lines: seq<string>)
    requires root in tree.list && ContextOk(tree.Pointers(), AtRoot, root)
    requires Chain(tree.Pointers(), tree.list[root], l, Some(root), None)
    requires forall i :: i in PreOrder(l) ==> i in tree.entries && EntryOk(tree.entries[i])
    requires table.Inv() && ChoiceFree(table.defs) && EntriesOk(table, EntriesFor(tree.entries, PreOrder(l)), k)
    modifies table
    ensures table.Inv() && table.changeCount == 0 && table.Snap() == old(table.Snap())
    ensures lines == File(table.Snap(), Solve(table.Snap()), EntriesFor(tree.entries, PreOrder(l)))
  {
    hide SymbolTable.Inv, File;
    var order := Walk(tree, root, l);
    lines := Write(table, EntriesFor(tree.entries, order), k);
  }

  /** An entry without symbol adds its title to the file exactly when it has a prompt whose condition is not n. */
  lemma TitleIff(sn: Snapshot, v: Values, e: Entries, order: seq<Id>, i: Id)
    requires v.Keys == sn.defs.Keys && (forall j :: j in order ==> j in e && EntryOk(e[j]))
    requires i in e && EntryOk(e[i]) && e[i].sym.None?
    ensures var shown := e[i].prompt.Some? && EvalOpt(e[i].props[e[i].prompt.value].visible, EnvOf(v)) != NO;
            Body(sn, v, EntriesFor(e, order + [i])) == Body(sn, v, EntriesFor(e, order)) +
              if shown then ["", "#", "# " + e[i].props[e[i].prompt.value].text.value, "#"] else []
  {
    var (init, last) := (EntriesFor(e, order), EntryFor(e[i]));
    assert EntriesFor(e, order + [i]) == init + [last];
    assert (init + [last])[..|init|] == init;
  }

  /** Each written symbol that has an entry in the tree stands in the file exactly once. */
  lemma WrittenOnce(sn: Snapshot, v: Values, e: Entries, l: Forest)
    requires forall i :: i in PreOrder(l) ==> i in e && EntryOk(e[i])
    ensures var order := Emitted(sn, v, EntriesFor(e, PreOrder(l)));
            (forall i, j :: 0 <= i < j < |order| ==> order[i] != order[j]) &&
            forall s :: s in order <==>
              (exists i :: i in PreOrder(l) && e[i].sym == Some(s)) && !s.Choice? && s in sn.defs && sn.Written(s, v)
  {
    var entries := EntriesFor(e, PreOrder(l));
    EmittedOnce(sn, v, entries);
    hide Snapshot.Written, Emitted;
    forall s: Symbol ensures Item(s) in entries <==> exists i :: i in PreOrder(l) && e[i].sym == Some(s) {
      if Item(s) in entries {
        var k :| 0 <= k < |entries| && entries[k] == Item(s);
        assert PreOrder(l)[k] in PreOrder(l) && e[PreOrder(l)[k]].sym == Some(s);
      }
      if i :| i in PreOrder(l) && e[i].sym == Some(s) {
        var k :| 0 <= k < |PreOrder(l)| && PreOrder(l)[k] == i;
        assert entries[k] == Item(s);
      }
    }
  }
}
