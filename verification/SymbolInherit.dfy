/** A run in which an invisible choice takes over a stale value from its default. */
module SymbolInherit {
  import opened Options
  import opened Tristate
  import opened Symbols
  import opened Expressions
  import opened SymbolSpec
  import opened SymbolCache
  import opened SymbolSetting
  import opened SymbolTables

  const COND: Symbol := Config("COND", Boolean)
  const GROUP: Symbol := Choice(0, Boolean)
  const MEMBER: Symbol := Config("MEMBER", Boolean)
  const MODULES: Symbol := Config("MODULES", Unknown)

  const COND_DEF: SymbolDef := SymbolDef([None], [], true, None, [])
  const GROUP_DEF: SymbolDef := SymbolDef([Some(Sym(COND))], [Default(MEMBER, None)], false, None, [MEMBER])
  const MEMBER_DEF: SymbolDef := SymbolDef([Some(Sym(GROUP))], [], true, Some(GROUP), [])

  /** A choice with the prompt condition COND and an unconditional default. */
  function GroupDefs(): Defs {
    map[COND := COND_DEF, GROUP := GROUP_DEF, MEMBER := MEMBER_DEF]
  }

  function GroupRank(s: Symbol): nat {
    if s == COND then 0 else if s == GROUP then 1 else 2
  }

  /** All of COND, the choice and MEMBER are n, or all are y. */
  function GroupValues(val: Tri): Values {
    map[COND := Value(None, val), GROUP := Value(None, val), MEMBER := Value(None, val)]
  }

  lemma GroupOk()
    ensures forall s :: s in GroupDefs() ==> SymbolOk(GroupDefs(), MODULES, GroupRank, s)
  {
    assert SymbolOk(GroupDefs(), MODULES, GroupRank, COND);
    assert ExprBelow(Sym(COND), GroupDefs(), GroupRank, 1);
    assert SymbolOk(GroupDefs(), MODULES, GroupRank, GROUP);
    assert ExprBelow(Sym(GROUP), GroupDefs(), GroupRank, 2) && Under(Sym(GROUP), GROUP);
    assert SymbolOk(GroupDefs(), MODULES, GroupRank, MEMBER);
  }

  /** The settings: the user has set COND to `val`, or nothing yet, and has not touched the rest. */
  ghost predicate OnlyCondSet(sn: Snapshot, val: Tri) {
    sn.Ok() && sn.defs == GroupDefs() && sn.modules == MODULES && GROUP in sn.isNew && MEMBER in sn.isNew &&
    sn.stored[GROUP].None? && (if COND in sn.isNew then val == NO else sn.def[COND].tri == val)
  }

  lemma GroupVisibility(sn: Snapshot, val: Tri)
    requires OnlyCondSet(sn, val)
    ensures var v := GroupValues(val);
            sn.Visibility(COND, v) == YES && sn.Visibility(GROUP, v) == val && sn.Visibility(MEMBER, v) == val
  {
    var env := EnvOf(GroupValues(val));
    AnyOfStep([None], 0, env);
    AnyOfStep([Some(Sym(COND))], 0, env);
    AnyOfStep([Some(Sym(GROUP))], 0, env);
  }

  lemma GroupDefault(sn: Snapshot, val: Tri)
    requires OnlyCondSet(sn, val)
    ensures ActiveDefault(sn.defs[GROUP].defaults, EnvOf(GroupValues(val)), 0) == Some(MEMBER)
    ensures val == YES ==> sn.Selection(GROUP, GroupValues(val)) == Some(MEMBER)
  {
    GroupVisibility(sn, val);
    hide Snapshot.Visibility, Snapshot.Ok;
    assert EvalOpt(None, EnvOf(GroupValues(val))) == YES;
    if val == YES {
      assert sn.FirstDefault(GROUP, GroupValues(val), 0) == Some(MEMBER);
    }
  }

  /** They follow COND. */
  lemma GroupSolution(sn: Snapshot, val: Tri)
    requires OnlyCondSet(sn, val) && val != MOD
    ensures sn.Solution(GroupValues(val))
  {
    var v := GroupValues(val);
    GroupVisibility(sn, val);
    GroupDefault(sn, val);
    hide Snapshot.Visibility, Snapshot.Selection, Snapshot.Ok;
    assert sn.Solved(COND, v);
    assert sn.Solved(GROUP, v);
    assert sn.Solved(MEMBER, v);
  }

  lemma GroupSolve(sn: Snapshot, val: Tri)
    requires OnlyCondSet(sn, val) && val != MOD
    ensures Solve(sn) == GroupValues(val)
  {
    GroupSolution(sn, val);
    hide OnlyCondSet;
    SolutionUnique(sn, Solve(sn), GroupValues(val));
  }

  // ----- The run -----

  /** The user sets COND, which has the value `old`. */
  method SetCond(table: SymbolTable, ghost was: Tri, val: Tri)
    requires table.Inv() && table.Fresh() && OnlyCondSet(table.Snap(), was) && was != MOD && val != MOD && val != was
    modifies table
    ensures table.Inv() && table.valid == {} && OnlyCondSet(table.Snap(), val)
    ensures ValuesStay(old(table.View()), table.View())
  {
    hide AllFresh, Shape, AllCoherent, ValuesStay, Snapshot.Solution, SettingsOk, WithinRange, KeepsSelection;
    ghost var sn := table.Snap();
    GroupSolve(sn, was);
    CondInRange(sn, was, val);
    assert COND in sn.defs && SettingsOk(sn);
    hide AfterSet, OnlyCondSet, Snapshot.Ok;
    table.Calc(COND);
    ghost var c := table.View();
    var ok := table.SetTristate(COND, val);
    CondIsSet(sn, was, val);
    StaysTwice(old(table.View()), c, table.View());
  }

  lemma StaysTwice(a: Cache, b: Cache, c: Cache)
    requires ValuesStay(a, b) && ValuesStay(b, c) && a.valid <= b.valid
    ensures ValuesStay(a, c)
  {
  }

  lemma CondInRange(sn: Snapshot, was: Tri, val: Tri)
    requires OnlyCondSet(sn, was) && val != MOD
    ensures WithinRange(sn, GroupValues(was), COND, val)
  {
    GroupVisibility(sn, was);
  }

  lemma CondIsSet(sn: Snapshot, was: Tri, val: Tri)
    requires OnlyCondSet(sn, was) && SettingsOk(sn) && COND in sn.def
    ensures OnlyCondSet(AfterSet(sn, COND, val), val)
  {
    AfterSetOk(sn, COND, val);
  }

  lemma FreshWhileSet(sn: Snapshot, c: Cache)
    requires OnlyCondSet(sn, YES)
    ensures AllFresh(sn, Solve(sn), c)
  {
    GroupSolve(sn, YES);
    GroupVisibility(sn, YES);
    hide OnlyCondSet;
  }

  /**
   * COND is set to y, MEMBER calculated, and COND set to n again.  Calculating MEMBER once more leads
   * to the choice, which should be n but takes over the y that MEMBER still has.
   */
  method KeepsOldValue() returns (table: SymbolTable, x: Value)
    ensures table.Settings() && table.Expected(GROUP).tri == NO && GROUP in table.valid
    ensures x.tri != NO
  {
    hide SymbolTable.Inv, OnlyCondSet, SettingsOk, Snapshot.Ok;
    table := Start();
    SetCond(table, NO, YES);
    CalcMember(table);
    SetCond(table, YES, NO);
    x := CalcMemberAgain(table);
  }

  method Start() returns (table: SymbolTable)
    ensures fresh(table) && table.Inv() && table.Fresh() && OnlyCondSet(table.Snap(), NO)
  {
    hide SymbolOk, Snapshot.Solution, Shape, AllCoherent, AllFresh;
    GroupOk();
    table := new SymbolTable(GroupDefs(), MODULES, GroupRank);
    table.StartsFresh();
    NothingSet();
  }

  lemma NothingSet()
    requires Initial(GroupDefs(), MODULES, GroupRank).Ok()
    ensures OnlyCondSet(Initial(GroupDefs(), MODULES, GroupRank), NO)
  {
    hide Snapshot.Ok;
  }

  method CalcMember(table: SymbolTable)
    requires table.Inv() && OnlyCondSet(table.Snap(), YES)
    modifies table
    ensures table.Inv() && table.Fresh() && OnlyCondSet(table.Snap(), YES)
    ensures MEMBER in table.valid && MEMBER in table.curr && table.curr[MEMBER].tri == YES
  {
    hide Snapshot.Solution, Shape, AllCoherent, AllFresh, ValuesStay;
    FreshWhileSet(table.Snap(), table.View());
    GroupSolve(table.Snap(), YES);
    table.Calc(MEMBER);
  }

  /** The first steps of sym_calc_value for MEMBER, up to the value that the choice gets. */
  method CalcMemberAgain(table: SymbolTable) returns (x: Value)
    requires table.Inv() && table.valid == {} && OnlyCondSet(table.Snap(), NO)
    requires MEMBER in table.curr && table.curr[MEMBER].tri == YES
    modifies table
    ensures table.Settings() && table.Expected(GROUP).tri == NO && GROUP in table.valid
    ensures x.tri != NO
  {
    hide SymbolTable.Inv, AllCoherent, AllFresh, Shape, Snapshot.Solution, Filled, Working, Ready, CanCalc, Stale;
    hide SettingsOk, Snapshot.Ok, OnlyCondSet, Snapshot.RawValue, Snapshot.Visibility;
    ghost var (sn, v) := (table.Snap(), GroupValues(NO));
    BeforeAgain(table);
    table.valid := table.valid + {MEMBER};
    ghost var c := table.View();
    MarkMember(sn, v, c);
    // The condition of its prompt is the choice.
    EnterGroup(table, sn, v);
    x := table.CalcRaw(GROUP, c, sn, v);
    WorkingOn(sn, v, c, table.View(), GROUP);
  }

  lemma BeforeAgain(table: SymbolTable)
    requires table.Inv() && table.valid == {} && OnlyCondSet(table.Snap(), NO)
    ensures table.Settings() && table.Snap().Ok() && Solve(table.Snap()) == GroupValues(NO)
    ensures table.Snap().Solution(GroupValues(NO)) && Shape(table.Snap(), GroupValues(NO), table.View())
    ensures table.Expected(GROUP).tri == NO && GROUP in table.defs && GROUP in table.Snap().def && GROUP in table.Snap().stored
    ensures table.Snap().RawValue(GROUP, GroupValues(NO)).tri == NO
  {
    GroupSolve(table.Snap(), NO);
    GroupStale(table.Snap());
    hide AllCoherent, Snapshot.RawValue;
  }

  lemma MarkMember(sn: Snapshot, v: Values, c: Cache)
    requires OnlyCondSet(sn, NO) && c.valid == {MEMBER} && Shape(sn, v, c.(valid := {}))
    ensures Shape(sn, v, c) && CanCalc(sn, v, c, GROUP)
  {
    MemberOf(sn, GROUP, MEMBER);
    hide Snapshot.Ok, Right, GroupValid;
  }

  /** sym_calc_value for the choice, up to its visibility. */
  method EnterGroup(table: SymbolTable, ghost sn: Snapshot, ghost v: Values)
    requires OnlyCondSet(sn, NO) && sn.Solution(v) && v == GroupValues(NO) && sn == table.Snap() && Shape(sn, v, table.View())
    requires table.valid == {MEMBER} && CanCalc(sn, v, table.View(), GROUP)
    requires MEMBER in table.curr && table.curr[MEMBER].tri == YES
    modifies table`curr, table`selected, table`visible, table`valid, table`write
    ensures table.Valid(sn, v) && Working(sn, v, old(table.View()), table.View(), GROUP)
    ensures GROUP in sn.defs && sn.defs[GROUP].group.None? && GROUP !in table.write && Stale(sn, v, table.View(), GROUP)
  {
    hide AllFresh, Snapshot.Ok, Snapshot.Solution, Filled, Working, Ready, CanCalc, Stale;
    ghost var c0 := table.View();
    table.valid := table.valid + {GROUP};
    table.write := table.write - {GROUP};
    ghost var c1 := table.View();
    MarkValid(sn, v, c0, GROUP, table.write);
    NoOtherChoice(sn, v, c1);
    table.CalcVisibility(GROUP, sn, v);
    StartWorking(sn, v, c0, c1, table.View(), GROUP);
    StillStale(sn, v, c1, table.View());
  }

  lemma NoOtherChoice(sn: Snapshot, v: Values, c: Cache)
    requires sn.defs == GroupDefs() && GROUP in c.valid
    ensures AllFresh(sn, v, c)
  {
  }

  lemma GroupStale(sn: Snapshot)
    requires OnlyCondSet(sn, NO)
    ensures var v := GroupValues(NO);
            GROUP in sn.def && GROUP in sn.stored && sn.Visibility(GROUP, v) == NO && sn.RawValue(GROUP, v).tri == NO &&
            ActiveDefault(sn.defs[GROUP].defaults, EnvOf(v), 0) == Some(MEMBER)
  {
    GroupVisibility(sn, NO);
    GroupDefault(sn, NO);
  }

  lemma StillStale(sn: Snapshot, v: Values, c: Cache, c': Cache)
    requires Shape(sn, v, c) && Shape(sn, v, c') && Filled(sn, v, c, c', {}) && v == GroupValues(NO) && OnlyCondSet(sn, NO)
    requires MEMBER in c.valid && c.curr[MEMBER].tri == YES
    ensures Stale(sn, v, c', GROUP)
  {
    GroupStale(sn);
    KeptAt(sn, v, c, c', {}, MEMBER);
  }
}
