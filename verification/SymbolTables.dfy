/** config/symbol.c: symbol values calculated on demand and kept until something is set. */
module SymbolTables {
  import opened Options
  import opened Tristate
  import opened Symbols
  import opened Expressions
  import opened SymbolSpec
  import opened SymbolCache
  import opened SymbolSetting
  import opened SymbolText

  class SymbolTable {
    const defs: Defs
    const modules: Symbol
    ghost const rank: Symbol -> nat

    var curr: map<Symbol, Value>
    /** S_VAL of curr, for choices: the selected choice value. */
    var selected: map<Symbol, Option<Symbol>>
    var def: map<Symbol, Value>
    /** S_VAL of def, for choices: the choice value the user asked for. */
    var stored: map<Symbol, Option<Symbol>>
    var visible: map<Symbol, Tri>
    /** The symbols with SYMBOL_VALID, SYMBOL_NEW and SYMBOL_WRITE. */
    var valid: set<Symbol>
    var isNew: set<Symbol>
    var write: set<Symbol>
    ghost var emitted: set<Symbol>
    var changeCount: nat

    ghost function View(): Cache
      reads `curr, `selected, `visible, `valid, `write, `emitted
    {
      Cache(curr, selected, visible, valid, write, emitted)
    }

    /** `sn` is what is declared and set, `v` what the values should be, and the tables are complete. */
    ghost predicate Valid(sn: Snapshot, v: Values)
      reads this
    {
      defs == sn.defs && modules == sn.modules && rank == sn.rank &&
      def == sn.def && isNew == sn.isNew && stored == sn.stored &&
      sn.Solution(v) && Shape(sn, v, View()) && AllFresh(sn, v, View())
    }

    /** The value of a symbol as it stands in memory. */
    function Known(s: Symbol): Value
      reads `curr
      requires s in defs ==> s in curr
    {
      if s in defs then curr[s] else FixedValue(s)
    }

    /** sym_get_string_value. */
    function StringValue(s: Symbol): string
      reads `curr
      requires s in defs ==> s in curr
    {
      if IsLogical(s) then Letter(Known(s).tri)
      else match s
        case ConstYes => "y"
        case ConstMod => "m"
        case ConstNo => "n"
        case _ => Text(Known(s))
    }

    // ----- expr_calc_value -----

    method CalcExpr(e: Expr, ghost k: nat, ghost sn: Snapshot, ghost v: Values) returns (r: Tri)
      requires Valid(sn, v) && Ready(sn, v, View(), k) && ExprBelow(e, defs, rank, k)
      modifies `curr, `selected, `visible, `valid, `write
      ensures Valid(sn, v) && Filled(sn, v, old(View()), View(), {})
      ensures r == Eval(e, EnvOf(v)) && Visited(e, defs.Keys, valid)
      decreases defs.Keys - valid, 2, Size(e)
    {
      match e
      case Sym(s) =>
        CalcValue(s, k, sn, v);
        r := Known(s).tri;
      case Not(x) =>
        r := CalcExpr(x, k, sn, v);
        r := Negate(r);
      case Bin(op, x, y) =>
        r := CalcBin(op, x, y, k, sn, v);
      case Cmp(rel, x, y) =>
        r := CalcCmp(rel, x, y, k, sn, v);
    }

    method CalcCmp(rel: Rel, x: Symbol, y: Symbol, ghost k: nat, ghost sn: Snapshot, ghost v: Values) returns (r: Tri)
      requires Valid(sn, v) && Ready(sn, v, View(), k)
      requires SymbolBelow(x, defs, rank, k) && SymbolBelow(y, defs, rank, k)
      modifies `curr, `selected, `visible, `valid, `write
      ensures Valid(sn, v) && Filled(sn, v, old(View()), View(), {})
      ensures r == Eval(Cmp(rel, x, y), EnvOf(v)) && Visited(Cmp(rel, x, y), defs.Keys, valid)
      decreases defs.Keys - valid, 2, 0
    {
      CalcValue(x, k, sn, v);
      ReadyKept(sn, v, old(View()), View(), {}, k);
      ghost var mid := View();
      CalcValue(y, k, sn, v);
      FilledTwice(sn, v, old(View()), mid, View(), {});
      if x in defs {
        KeptAt(sn, v, mid, View(), {}, x);
      }
      StringIsText(x, v);
      StringIsText(y, v);
      r := Truth((StringValue(x) == StringValue(y)) == (rel == Equal));
    }

    lemma StringIsText(s: Symbol, v: Values)
      requires s in defs ==> s in curr
      requires TypeOf(s) == Unknown ==> s !in defs
      requires Known(s) == Lookup(v, s)
      ensures StringValue(s) == TextOf(s, EnvOf(v))
    {
    }

    method CalcBin(op: Op, x: Expr, y: Expr, ghost k: nat, ghost sn: Snapshot, ghost v: Values) returns (r: Tri)
      requires Valid(sn, v) && Ready(sn, v, View(), k)
      requires ExprBelow(x, defs, rank, k) && ExprBelow(y, defs, rank, k)
      modifies `curr, `selected, `visible, `valid, `write
      ensures Valid(sn, v) && Filled(sn, v, old(View()), View(), {})
      ensures r == Combine(op, Eval(x, EnvOf(v)), Eval(y, EnvOf(v)))
      ensures Visited(x, defs.Keys, valid) && Visited(y, defs.Keys, valid)
      decreases defs.Keys - valid, 2, Size(x) + Size(y)
    {
      var r1 := CalcExpr(x, k, sn, v);
      ReadyKept(sn, v, old(View()), View(), {}, k);
      ghost var mid := View();
      var r2 := CalcExpr(y, k, sn, v);
      VisitedMore(x, defs.Keys, mid.valid, valid);
      FilledTwice(sn, v, old(View()), mid, View(), {});
      r := Combine(op, r1, r2);
    }

    method CalcOpt(e: Option<Expr>, ghost k: nat, ghost sn: Snapshot, ghost v: Values) returns (r: Tri)
      requires Valid(sn, v) && Ready(sn, v, View(), k) && OptBelow(e, defs, rank, k)
      modifies `curr, `selected, `visible, `valid, `write
      ensures Valid(sn, v) && Filled(sn, v, old(View()), View(), {})
      ensures r == EvalOpt(e, EnvOf(v)) && (e.Some? ==> Visited(e.value, defs.Keys, valid))
      decreases defs.Keys - valid, 3
    {
      if e.None? {
        return YES;
      }
      r := CalcExpr(e.value, k, sn, v);
    }

    // ----- sym_calc_visibility -----

    method CalcVisibility(s: Symbol, ghost sn: Snapshot, ghost v: Values)
      requires Valid(sn, v) && s in defs && Ready(sn, v, View(), rank(s))
      modifies `curr, `selected, `visible, `valid, `write
      ensures Valid(sn, v) && Filled(sn, v, old(View()), View(), {})
      ensures visible[s] == sn.Visibility(s, v) && GroupValid(sn, v, View(), s)
      decreases defs.Keys - valid, 5
    {
      var vis := CalcPrompts(s, sn, v);
      ghost var mid := View();
      visible := visible[s := vis];
      VisibilityKept(sn, v, mid, s);
      AllFreshKept(sn, v, mid, View(), {});
      FilledTwice(sn, v, old(View()), mid, View(), {});
    }

    method CalcPrompts(s: Symbol, ghost sn: Snapshot, ghost v: Values) returns (vis: Tri)
      requires Valid(sn, v) && s in defs && Ready(sn, v, View(), rank(s))
      modifies `curr, `selected, `visible, `valid, `write
      ensures Valid(sn, v) && Filled(sn, v, old(View()), View(), {})
      ensures vis == sn.Visibility(s, v) && GroupValid(sn, v, View(), s)
      decreases defs.Keys - valid, 4
    {
      hide Filled, Ready, Settled, Coherent;
      var prompts := defs[s].prompts;
      assert SymbolOk(defs, modules, rank, s);
      vis := NO;
      FilledNothing(sn, v, View(), {});
      for i := 0 to |prompts|
        invariant Valid(sn, v) && Filled(sn, v, old(View()), View(), {})
        invariant vis == AnyOf(prompts[..i], EnvOf(v))
        invariant defs[s].group.Some? && vis != NO ==> defs[s].group.value in valid
      {
        ghost var mid := View();
        ReadyKept(sn, v, old(View()), mid, {}, rank(s));
        ValidGrows(sn, v, old(View()), mid, {});
        AnyOfStep(prompts, i, EnvOf(v));
        var r := CalcOpt(prompts[i], rank(s), sn, v);
        ValidGrows(sn, v, mid, View(), {});
        if defs[s].group.Some? && r != NO {
          GroupVisited(sn, s, prompts[i], v, valid);
        }
        FilledTwice(sn, v, old(View()), mid, View(), {});
        vis := Combine(Or, vis, r);
      }
      assert prompts[..|prompts|] == prompts;
    }

    // ----- sym_get_default_prop and sym_get_type -----

    method GetDefault(s: Symbol, ghost sn: Snapshot, ghost v: Values) returns (d: Option<Symbol>)
      requires Valid(sn, v) && s in defs && Ready(sn, v, View(), rank(s))
      modifies `curr, `selected, `visible, `valid, `write
      ensures Valid(sn, v) && Filled(sn, v, old(View()), View(), {})
      ensures d == ActiveDefault(defs[s].defaults, EnvOf(v), 0)
      decreases defs.Keys - valid, 4
    {
      var defaults := defs[s].defaults;
      assert SymbolOk(defs, modules, rank, s);
      FilledNothing(sn, v, View(), {});
      for i := 0 to |defaults|
        invariant Valid(sn, v) && Filled(sn, v, old(View()), View(), {})
        invariant ActiveDefault(defaults, EnvOf(v), 0) == ActiveDefault(defaults, EnvOf(v), i)
      {
        ghost var mid := View();
        ReadyKept(sn, v, old(View()), mid, {}, rank(s));
        assert defaults[i] in defaults;
        var r := CalcOpt(defaults[i].cond, rank(s), sn, v);
        FilledTwice(sn, v, old(View()), mid, View(), {});
        if r != NO {
          return Some(defaults[i].def);
        }
      }
      return None;
    }

    method GetType(s: Symbol, ghost sn: Snapshot, ghost v: Values) returns (t: SymbolType)
      requires Valid(sn, v) && s in defs && Ready(sn, v, View(), rank(s))
      requires visible[s] == sn.Visibility(s, v)
      modifies `curr, `selected, `visible, `valid, `write
      ensures Valid(sn, v) && Filled(sn, v, old(View()), View(), {})
      ensures t == if TypeOf(s) == ThreeState && !sn.ModAvailable(s, v) then Boolean else TypeOf(s)
      decreases defs.Keys - valid, 4
    {
      t := TypeOf(s);
      FilledNothing(sn, v, View(), {});
      if t == ThreeState {
        if defs[s].group.Some? && visible[s] == YES {
          t := Boolean;
        } else {
          assert SymbolOk(defs, modules, rank, s);
          CalcValue(modules, rank(s), sn, v);
          if Known(modules).tri == NO {
            t := Boolean;
          }
        }
      }
    }

    // ----- sym_calc_value -----

    method CalcValue(s: Symbol, ghost k: nat, ghost sn: Snapshot, ghost v: Values)
      requires Valid(sn, v) && SymbolBelow(s, defs, rank, k) && Ready(sn, v, View(), k)
      modifies `curr, `selected, `visible, `valid, `write
      ensures Valid(sn, v) && Filled(sn, v, old(View()), View(), {})
      ensures s in defs ==> s in valid && curr[s] == v[s]
      decreases defs.Keys - valid, 1
    {
      FilledNothing(sn, v, View(), {});
      if s in defs {
        ReadyCanCalc(sn, v, View(), s, k);
        if s !in valid {
          CalcSymbol(s, sn, v);
        }
      }
    }

    /** The symbol is not valid: its visibility is found first, then its value. */
    method CalcSymbol(s: Symbol, ghost sn: Snapshot, ghost v: Values)
      requires Valid(sn, v) && s in defs && CanCalc(sn, v, View(), s) && s !in valid
      modifies `curr, `selected, `visible, `valid, `write
      ensures Valid(sn, v) && Filled(sn, v, old(View()), View(), {})
      ensures s in valid && curr[s] == v[s]
      decreases defs.Keys - valid, 0
    {
      hide Filled, Ready, Coherent, Settled, CanCalc, AllFresh, FreshAt, Snapshot.Ok;
      ghost var c0 := View();
      valid := valid + {s};
      if defs[s].group.None? {
        write := write - {s};
      }
      ghost var c1 := View();
      MarkValid(sn, v, c0, s, write);
      MarkFresh(sn, v, c0, c1, s);
      CalcVisibility(s, sn, v);
      FreshKept(sn, v, c1, View(), {}, s);
      FreshNotStale(sn, v, View(), s);
      StartWorking(sn, v, c0, c1, View(), s);
      FinishValue(s, c0, sn, v);
    }

    /** The last part of sym_calc_value: the default, the user's value, and what limits them. */
    method FinishValue(s: Symbol, ghost c0: Cache, ghost sn: Snapshot, ghost v: Values)
      requires Valid(sn, v) && Working(sn, v, c0, View(), s) && !Stale(sn, v, View(), s)
      requires defs[s].group.None? ==> s !in write
      modifies `curr, `selected, `visible, `valid, `write
      ensures Valid(sn, v) && Filled(sn, v, c0, View(), {})
      ensures s in valid && curr[s] == v[s]
      decreases defs.Keys - valid, 11
    {
      hide Shape, Working, AllFresh, FreshAt, Stale, Filled, Ready, Coherent, Settled, GroupValid, Snapshot.Solution, Snapshot.RawValue, Snapshot.Written;
      WorkingOn(sn, v, c0, View(), s);
      var x := CalcRaw(s, c0, sn, v);
      x := RuleOutMod(s, x, c0, sn, v);
      StoreValue(s, x, c0, sn, v);
    }

    /** The value is recorded; a choice also finds its selection. */
    method StoreValue(s: Symbol, x: Value, ghost c0: Cache, ghost sn: Snapshot, ghost v: Values)
      requires Valid(sn, v) && Working(sn, v, c0, View(), s) && x == v[s]
      requires defs[s].group.None? ==> (s in write <==> sn.Written(s, v))
      modifies `curr, `selected, `visible, `valid, `write
      ensures Valid(sn, v) && Filled(sn, v, c0, View(), {})
      ensures s in valid && curr[s] == v[s]
      decreases defs.Keys - valid, 10, 0
    {
      hide Shape, Working, AllFresh, FreshAt, Stale, Filled, Ready, Coherent, Settled, GroupValid, Snapshot.Solution, Snapshot.Written;
      WorkingOn(sn, v, c0, View(), s);
      Domains(sn, v, View());
      curr := curr[s := x];
      WorkingSetCurr(sn, v, c0, old(View()), s, x);
      WorkingOn(sn, v, c0, View(), s);
      if s.Choice? {
        FinishChoice(s, c0, sn, v);
      } else {
        NotAChoice(sn, v, c0, View(), s);
      }
      WorkingOn(sn, v, c0, View(), s);
      Domains(sn, v, View());
      WorkingDone(sn, v, c0, View(), s);
    }

    method RuleOutMod(s: Symbol, raw: Value, ghost c0: Cache, ghost sn: Snapshot, ghost v: Values) returns (x: Value)
      requires Valid(sn, v) && Working(sn, v, c0, View(), s)
      requires raw.tri == sn.RawValue(s, v).tri && (IsLogical(s) || raw.text == sn.RawValue(s, v).text)
      modifies `curr, `selected, `visible, `valid, `write
      ensures Valid(sn, v) && Working(sn, v, c0, View(), s) && old(valid) <= valid
      ensures defs[s].group.None? ==> (s in write <==> s in old(write))
      ensures x == v[s]
      decreases defs.Keys - valid, 8
    {
      hide Shape, Working, AllFresh, FreshAt, Stale, Filled, Ready, Coherent, Settled, GroupValid, Snapshot.Solution;
      WorkingOn(sn, v, c0, View(), s);
      WorkingReady(sn, v, c0, View(), s);
      var t := GetType(s, sn, v);
      WorkingStep(sn, v, c0, old(View()), View(), s);
      CalculatedValue(sn, v, s, raw);
      x := Value(if IsLogical(s) then None else raw.text, raw.tri);
      if t == Boolean && x.tri == MOD {
        x := x.(tri := YES);
      }
    }

    /** Before m is ruled out: the value is right exactly when nothing stale is taken over. */
    method CalcRaw(s: Symbol, ghost c0: Cache, ghost sn: Snapshot, ghost v: Values) returns (x: Value)
      requires Valid(sn, v) && Working(sn, v, c0, View(), s)
      requires defs[s].group.None? ==> s !in write
      modifies `curr, `selected, `visible, `valid, `write
      ensures Valid(sn, v) && Working(sn, v, c0, View(), s) && old(valid) <= valid
      ensures defs[s].group.None? ==> (s in write <==> sn.Written(s, v))
      ensures x.tri == sn.RawValue(s, v).tri <==> !old(Stale(sn, v, View(), s))
      ensures IsLogical(s) || x.text == sn.RawValue(s, v).text
      decreases defs.Keys - valid, 8
    {
      hide Shape, Working, AllFresh, FreshAt, Stale, Filled, Ready, Coherent, Settled, GroupValid, Snapshot.Solution;
      WorkingOn(sn, v, c0, View(), s);
      Domains(sn, v, View());
      x := BaseValue(s);
      StandAtBase(s, c0, sn, v);
      Domains(sn, v, View());
      if visible[s] != NO {
        NothingInherited(sn, v, View(), s);
        x := CalcVisible(s, x, c0, sn, v);
      } else {
        x := CalcInvisible(s, x, c0, sn, v);
      }
    }

    /** The value a recursive call finds. */
    method StandAtBase(s: Symbol, ghost c0: Cache, ghost sn: Snapshot, ghost v: Values)
      requires Valid(sn, v) && Working(sn, v, c0, View(), s)
      modifies `curr
      ensures Valid(sn, v) && Working(sn, v, c0, View(), s) && s in curr && curr[s] == BaseValue(s)
      ensures Stale(sn, v, View(), s) <==> old(Stale(sn, v, View(), s))
    {
      hide Shape, Working, AllFresh, FreshAt, Stale, Filled, Ready, Coherent, Settled, GroupValid, Snapshot.Solution;
      WorkingOn(sn, v, c0, View(), s);
      Domains(sn, v, View());
      curr := curr[s := BaseValue(s)];
      WorkingSetCurr(sn, v, c0, old(View()), s, BaseValue(s));
      WorkingOn(sn, v, c0, View(), s);
      StaleSame(sn, v, old(View()), View(), s);
    }

    /** The value of an invisible symbol: its default, if one is active. */
    method CalcInvisible(s: Symbol, base: Value, ghost c0: Cache, ghost sn: Snapshot, ghost v: Values) returns (x: Value)
      requires Valid(sn, v) && Working(sn, v, c0, View(), s) && sn.Visibility(s, v) == NO && base == BaseValue(s)
      requires s in curr && curr[s] == base
      requires defs[s].group.None? ==> s !in write
      modifies `curr, `selected, `visible, `valid, `write
      ensures Valid(sn, v) && Working(sn, v, c0, View(), s) && old(valid) <= valid
      ensures defs[s].group.None? ==> (s in write <==> sn.Written(s, v))
      ensures x.tri == sn.RawValue(s, v).tri <==> !old(Stale(sn, v, View(), s))
      ensures IsLogical(s) || x.text == sn.RawValue(s, v).text
      decreases defs.Keys - valid, 7
    {
      hide Shape, Working, AllFresh, FreshAt, Stale, Filled, Ready, Coherent, Settled, GroupValid, Snapshot.Solution;
      x := base;
      var d := CalcActive(s, c0, sn, v);
      WorkingOn(sn, v, c0, View(), s);
      if d.None? {
        NothingInherited(sn, v, View(), s);
      } else {
        MarkWrite(s, c0, sn, v);
        x := TakeDefault(s, d.value, c0, sn, v);
      }
    }

    /** SYMBOL_WRITE is set. */
    method MarkWrite(s: Symbol, ghost c0: Cache, ghost sn: Snapshot, ghost v: Values)
      requires Valid(sn, v) && Working(sn, v, c0, View(), s)
      modifies `write
      ensures Valid(sn, v) && Working(sn, v, c0, View(), s) && s in write
      ensures Stale(sn, v, View(), s) <==> old(Stale(sn, v, View(), s))
    {
      hide Shape, Working, AllFresh, FreshAt, Stale, Filled, Ready, Coherent, Settled, GroupValid, Snapshot.Solution;
      WorkingOn(sn, v, c0, View(), s);
      write := write + {s};
      WorkingSetWrite(sn, v, c0, old(View()), s);
      WorkingOn(sn, v, c0, View(), s);
      StaleSame(sn, v, old(View()), View(), s);
    }

    /** The value of the default of an invisible symbol. */
    method TakeDefault(s: Symbol, d: Symbol, ghost c0: Cache, ghost sn: Snapshot, ghost v: Values) returns (x: Value)
      requires Valid(sn, v) && Working(sn, v, c0, View(), s) && sn.Visibility(s, v) == NO
      requires s in curr && curr[s] == BaseValue(s) && s in write
      requires ActiveDefault(defs[s].defaults, EnvOf(v), 0) == Some(d)
      modifies `curr, `selected, `visible, `valid, `write
      ensures Valid(sn, v) && Working(sn, v, c0, View(), s) && old(valid) <= valid
      ensures defs[s].group.None? ==> s in write
      ensures x.tri == sn.RawValue(s, v).tri <==> !old(Stale(sn, v, View(), s))
      ensures IsLogical(s) || x.text == sn.RawValue(s, v).text
      decreases defs.Keys - valid, 6, 1
    {
      hide Shape, Working, AllFresh, FreshAt, Stale, Filled, Ready, Coherent, Settled, GroupValid, Snapshot.Solution, Snapshot.Visibility;
      WorkingOn(sn, v, c0, View(), s);
      if s.Choice? {
        InheritedAt(sn, v, View(), s);
        x := InheritDefault(s, d, c0, sn, v);
        ChoiceIsLogical(sn, s);
      } else {
        NothingInherited(sn, v, View(), s);
        x := CalcDefault(s, d, c0, sn, v);
      }
    }

    /**
     * An invisible choice takes over the value of its default, a choice value that should be n then.
     * It gets that value unless the choice value has been marked valid, as its own calculation has
     * led here, and still has another value from before.
     */
    method InheritDefault(s: Symbol, d: Symbol, ghost c0: Cache, ghost sn: Snapshot, ghost v: Values) returns (x: Value)
      requires Valid(sn, v) && Working(sn, v, c0, View(), s) && s.Choice? && sn.Visibility(s, v) == NO
      requires ActiveDefault(defs[s].defaults, EnvOf(v), 0) == Some(d) && d in curr
      requires s in curr && curr[s] == BaseValue(s) && s in write
      modifies `curr, `selected, `visible, `valid, `write
      ensures Valid(sn, v) && Working(sn, v, c0, View(), s) && old(valid) <= valid && s in write
      ensures d in old(valid) ==> x == old(curr[d])
      ensures x.tri == sn.RawValue(s, v).tri <==> d !in old(valid) || old(curr[d]).tri == NO
      decreases defs.Keys - valid, 6, 0
    {
      hide Shape, Working, AllFresh, FreshAt, Stale, Filled, Ready, Coherent, Settled, GroupValid, CanCalc, Snapshot.Solution;
      hide Snapshot.RawValue, Snapshot.Visibility, ActiveDefault, Snapshot.Ok;
      WorkingOn(sn, v, c0, View(), s);
      Inherited(sn, v, s, d);
      if d !in valid {
        InheritReady(sn, v, c0, View(), s, d);
        CalcSymbol(d, sn, v);
        ValidGrows(sn, v, old(View()), View(), {});
        Domains(sn, v, View());
        WorkingStep(sn, v, c0, old(View()), View(), s);
      }
      x := curr[d];
    }

    /** sym_get_default_prop, in the course of calculating `s`. */
    method CalcActive(s: Symbol, ghost c0: Cache, ghost sn: Snapshot, ghost v: Values) returns (d: Option<Symbol>)
      requires Valid(sn, v) && Working(sn, v, c0, View(), s)
      modifies `curr, `selected, `visible, `valid, `write
      ensures Valid(sn, v) && Working(sn, v, c0, View(), s) && old(valid) <= valid
      ensures defs[s].group.None? ==> (s in write <==> s in old(write))
      ensures d == ActiveDefault(defs[s].defaults, EnvOf(v), 0)
      ensures s in old(curr) && s in curr && curr[s] == old(curr[s])
      ensures Stale(sn, v, View(), s) <==> old(Stale(sn, v, View(), s))
      decreases defs.Keys - valid, 6, 0
    {
      hide Shape, Working, AllFresh, FreshAt, Stale, Filled, Ready, Coherent, Settled, GroupValid, Snapshot.Solution;
      WorkingOn(sn, v, c0, View(), s);
      WorkingReady(sn, v, c0, View(), s);
      Domains(sn, v, View());
      d := GetDefault(s, sn, v);
      Domains(sn, v, View());
      WorkingStep(sn, v, c0, old(View()), View(), s);
      StaleKept(sn, v, old(View()), View(), s);
    }

    /** prop->def calculated and read. */
    method CalcDefault(s: Symbol, d: Symbol, ghost c0: Cache, ghost sn: Snapshot, ghost v: Values) returns (x: Value)
      requires Valid(sn, v) && Working(sn, v, c0, View(), s) && !s.Choice?
      requires ActiveDefault(defs[s].defaults, EnvOf(v), 0) == Some(d)
      modifies `curr, `selected, `visible, `valid, `write
      ensures Valid(sn, v) && Working(sn, v, c0, View(), s) && old(valid) <= valid
      ensures defs[s].group.None? ==> (s in write <==> s in old(write))
      ensures x == Lookup(v, d)
      decreases defs.Keys - valid, 6, 0
    {
      hide Shape, Working, AllFresh, FreshAt, Stale, Filled, Ready, Coherent, Settled, GroupValid;
      WorkingOn(sn, v, c0, View(), s);
      assert SymbolOk(defs, modules, rank, s);
      WorkingReady(sn, v, c0, View(), s);
      CalcValue(d, rank(s), sn, v);
      WorkingStep(sn, v, c0, old(View()), View(), s);
      Domains(sn, v, View());
      x := Known(d);
    }

    /** The value of a visible symbol: set by the user or defaulted, and limited by the visibility. */
    method CalcVisible(s: Symbol, base: Value, ghost c0: Cache, ghost sn: Snapshot, ghost v: Values) returns (x: Value)
      requires Valid(sn, v) && Working(sn, v, c0, View(), s) && sn.Visibility(s, v) != NO && base == BaseValue(s)
      modifies `curr, `selected, `visible, `valid, `write
      ensures Valid(sn, v) && Working(sn, v, c0, View(), s) && old(valid) <= valid
      ensures defs[s].group.None? ==> s in write
      ensures x.tri == sn.RawValue(s, v).tri && (IsLogical(s) || x.text == sn.RawValue(s, v).text)
      decreases defs.Keys - valid, 7
    {
      hide Shape, Working, AllFresh, FreshAt, Stale, Filled, Ready, Coherent, Settled, GroupValid, Snapshot.Solution;
      MarkWrite(s, c0, sn, v);
      x := CalcChosen(s, base, c0, sn, v);
      WorkingOn(sn, v, c0, View(), s);
      Domains(sn, v, View());
      x := x.(tri := Combine(And, x.tri, visible[s]));
      if !defs[s].optional && x.tri == NO {
        x := x.(tri := visible[s]);
      }
      if defs[s].group.Some? && visible[s] == YES {
        WorkingGroup(sn, v, c0, View(), s);
        x := x.(tri := Truth(selected[defs[s].group.value] == Some(s)));
      }
    }

    /** What the user set, or else the default. */
    method CalcChosen(s: Symbol, base: Value, ghost c0: Cache, ghost sn: Snapshot, ghost v: Values) returns (x: Value)
      requires Valid(sn, v) && Working(sn, v, c0, View(), s) && base == BaseValue(s)
      modifies `curr, `selected, `visible, `valid, `write
      ensures Valid(sn, v) && Working(sn, v, c0, View(), s) && old(valid) <= valid
      ensures defs[s].group.None? ==> (s in write <==> s in old(write))
      ensures x == if s !in isNew then def[s] else if s.Choice? then base else sn.DefaultValue(s, v)
      decreases defs.Keys - valid, 6, 1
    {
      hide Shape, Working, AllFresh, FreshAt, Stale, Filled, Ready, Coherent, Settled, GroupValid, Snapshot.Solution;
      WorkingOn(sn, v, c0, View(), s);
      Domains(sn, v, View());
      x := base;
      if s !in isNew {
        x := def[s];
      } else if !s.Choice? {
        var d := CalcActive(s, c0, sn, v);
        if d.Some? {
          x := CalcDefault(s, d.value, c0, sn, v);
        }
      }
    }

    // ----- The selection of a choice -----

    method FinishChoice(s: Symbol, ghost c0: Cache, ghost sn: Snapshot, ghost v: Values)
      requires Valid(sn, v) && Working(sn, v, c0, View(), s) && s.Choice? && Settled(sn, v, View(), s)
      requires curr[s] == v[s]
      modifies `curr, `selected, `visible, `valid, `write
      ensures Valid(sn, v) && Working(sn, v, c0, View(), s) && Coherent(sn, v, View(), s)
      ensures curr[s] == v[s]
      decreases defs.Keys - valid, 9
    {
      hide Shape, Working, AllFresh, FreshAt, Stale, Filled, Ready, Coherent, Settled, GroupValid, Snapshot.Solution, Snapshot.Selection;
      FinishSelection(s, c0, sn, v);
      WorkingOn(sn, v, c0, View(), s);
      if s in write {
        ghost var c2 := View();
        write := write + set m | m in defs[s].members;
        WorkingWriteMembers(sn, v, c0, c2, s, write);
      }
    }

    method FinishSelection(s: Symbol, ghost c0: Cache, ghost sn: Snapshot, ghost v: Values)
      requires Valid(sn, v) && Working(sn, v, c0, View(), s) && s.Choice? && Settled(sn, v, View(), s)
      requires curr[s] == v[s]
      modifies `curr, `selected, `visible, `valid, `write
      ensures Valid(sn, v) && Working(sn, v, c0, View(), s) && Coherent(sn, v, View(), s)
      ensures s in curr && curr[s] == v[s]
      decreases defs.Keys - valid, 9, 0
    {
      hide Shape, Working, AllFresh, FreshAt, Stale, Filled, Ready, Coherent, Settled, GroupValid, Snapshot.Solution, Snapshot.Selection;
      WorkingOn(sn, v, c0, View(), s);
      Domains(sn, v, View());
      if curr[s].tri == YES {
        var d := SelectMember(s, c0, sn, v);
        ghost var c1 := View();
        SelectingOn(sn, v, c0, c1, s);
        Domains(sn, v, c1);
        selected := selected[s := d];
        WorkingSetSelected(sn, v, c0, c1, s);
        WorkingOn(sn, v, c0, View(), s);
      } else {
        NotSelected(sn, v, c0, View(), s);
      }
    }

    /** The stored choice value if it is visible, else a visible default, else a visible choice value. */
    method SelectMember(s: Symbol, ghost c0: Cache, ghost sn: Snapshot, ghost v: Values) returns (d: Option<Symbol>)
      requires Valid(sn, v) && Selecting(sn, v, c0, View(), s) && s.Choice? && s in curr
      modifies `curr, `selected, `visible, `valid, `write
      ensures Valid(sn, v) && Selecting(sn, v, c0, View(), s) && old(valid) <= valid
      ensures s in curr && curr[s] == old(curr[s])
      ensures s in sn.stored && d == sn.Selection(s, v)
      decreases defs.Keys - valid, 8
    {
      hide Shape, Working, AllFresh, FreshAt, Stale, Filled, Ready, Coherent, Settled, GroupValid, Selecting;
      SelectingOn(sn, v, c0, View(), s);
      d := stored[s];
      if d.Some? {
        var seen := IsVisible(s, d.value, c0, sn, v);
        if !seen {
          d := None;
        }
      }
      if d.None? {
        d := SelectDefault(s, c0, sn, v);
      }
      if d.None? {
        d := SelectFirst(s, c0, sn, v);
      }
    }

    /** sym_calc_visibility of a choice value, and the result. */
    method IsVisible(s: Symbol, m: Symbol, ghost c0: Cache, ghost sn: Snapshot, ghost v: Values) returns (seen: bool)
      requires Valid(sn, v) && Selecting(sn, v, c0, View(), s) && s.Choice? && s in curr
      requires s in defs && m in defs[s].members
      modifies `curr, `selected, `visible, `valid, `write
      ensures Valid(sn, v) && Selecting(sn, v, c0, View(), s) && old(valid) <= valid
      ensures s in curr && curr[s] == old(curr[s])
      ensures seen <==> sn.Visibility(m, v) != NO
      decreases defs.Keys - valid, 6
    {
      hide Shape, Working, AllFresh, FreshAt, Stale, Filled, Ready, Coherent, Settled, GroupValid, Selecting;
      MemberOf(sn, s, m);
      SelectingReady(sn, v, c0, View(), s);
      CalcVisibility(m, sn, v);
      SelectingStep(sn, v, c0, old(View()), View(), s);
      Domains(sn, v, View());
      seen := visible[m] != NO;
    }

    method SelectDefault(s: Symbol, ghost c0: Cache, ghost sn: Snapshot, ghost v: Values) returns (d: Option<Symbol>)
      requires Valid(sn, v) && Selecting(sn, v, c0, View(), s) && s.Choice? && s in curr && s in defs
      modifies `curr, `selected, `visible, `valid, `write
      ensures Valid(sn, v) && Selecting(sn, v, c0, View(), s) && old(valid) <= valid
      ensures s in curr && curr[s] == old(curr[s])
      ensures d == sn.FirstDefault(s, v, 0)
      decreases defs.Keys - valid, 7
    {
      hide Shape, Working, AllFresh, FreshAt, Stale, Filled, Ready, Coherent, Settled, GroupValid, Selecting;
      var defaults := defs[s].defaults;
      for i := 0 to |defaults|
        invariant Valid(sn, v) && Selecting(sn, v, c0, View(), s) && old(valid) <= valid
        invariant s in curr && curr[s] == old(curr[s])
        invariant sn.FirstDefault(s, v, 0) == sn.FirstDefault(s, v, i)
      {
        ghost var c1 := View();
        assert SymbolOk(defs, modules, rank, s) && defaults[i] in defaults;
        SelectingReady(sn, v, c0, c1, s);
        var r := CalcOpt(defaults[i].cond, rank(s), sn, v);
        SelectingStep(sn, v, c0, c1, View(), s);
        Domains(sn, v, View());
        if r != NO {
          var seen := IsVisible(s, defaults[i].def, c0, sn, v);
          if seen {
            return Some(defaults[i].def);
          }
        }
      }
      return None;
    }

    method SelectFirst(s: Symbol, ghost c0: Cache, ghost sn: Snapshot, ghost v: Values) returns (d: Option<Symbol>)
      requires Valid(sn, v) && Selecting(sn, v, c0, View(), s) && s.Choice? && s in curr && s in defs
      modifies `curr, `selected, `visible, `valid, `write
      ensures Valid(sn, v) && Selecting(sn, v, c0, View(), s) && old(valid) <= valid
      ensures s in curr && curr[s] == old(curr[s])
      ensures d == sn.FirstMember(s, v, 0)
      decreases defs.Keys - valid, 7
    {
      hide Shape, Working, AllFresh, FreshAt, Stale, Filled, Ready, Coherent, Settled, GroupValid, Selecting;
      var members := defs[s].members;
      for i := 0 to |members|
        invariant Valid(sn, v) && Selecting(sn, v, c0, View(), s) && old(valid) <= valid
        invariant s in curr && curr[s] == old(curr[s])
        invariant sn.FirstMember(s, v, 0) == sn.FirstMember(s, v, i)
      {
        var seen := IsVisible(s, members[i], c0, sn, v);
        if seen {
          return Some(members[i]);
        }
      }
      return None;
    }

    // ----- The table between operations -----

    /** The declarations and what the user has set. */
    ghost function Snap(): Snapshot
      reads `def, `isNew, `stored
    {
      Snapshot(defs, modules, rank, def, isNew, stored)
    }

    ghost predicate Settings()
      reads `def, `isNew, `stored
    {
      SettingsOk(Snap())
    }

    /** Whatever is cached is what a fresh calculation gives. */
    ghost predicate Right()
      reads this
    {
      Settings() && Shape(Snap(), Solve(Snap()), View()) && AllCoherent(Snap(), Solve(Snap()), View())
    }

    /** Moreover no write flag has been used up since the last change. */
    ghost predicate Inv()
      reads this
    {
      Right() && (changeCount > 0 ==> emitted == {})
    }

    /** No choice that is still to be calculated finds a stale value at its default. */
    ghost predicate Fresh()
      reads this
      requires Settings()
    {
      AllFresh(Snap(), Solve(Snap()), View())
    }

    /** The value `s` should have. */
    ghost function Expected(s: Symbol): Value
      reads `def, `isNew, `stored
      requires Snap().Ok()
    {
      Lookup(Solve(Snap()), s)
    }

    /** The table as conf_parse leaves it: nothing set, nothing calculated. */
    constructor (defs: Defs, modules: Symbol, ghost rank: Symbol -> nat)
      requires modules.Config? && (TypeOf(modules) == Unknown ==> modules !in defs)
      requires forall s :: s in defs ==> SymbolOk(defs, modules, rank, s)
      ensures this.defs == defs && this.modules == modules && this.rank == rank
      ensures Inv() && valid == {} && isNew == defs.Keys && changeCount == 1
      ensures Snap() == Initial(defs, modules, rank) && forall s :: s in curr ==> curr[s].tri == NO
    {
      this.defs, this.modules, this.rank := defs, modules, rank;
      curr := map s | s in defs :: Value(None, NO);
      def := map s | s in defs :: Value(None, NO);
      selected := map s | s in defs :: None;
      stored := map s | s in defs :: None;
      visible := map s | s in defs :: NO;
      valid, write, emitted := {}, {}, {};
      isNew := defs.Keys;
      changeCount := 1;
      new;
      hide Shape, AllCoherent, AllFresh, SettingsOk, Snapshot.Ok, Snapshot.Solution;
      InitialOk(defs, modules, rank);
      NothingSet();
    }

    /** Nothing is ever stale where the defaults of choices are guarded. */
    lemma NeverStale()
      requires Settings() && forall s :: s in defs && s.Choice? ==> DefaultsGuarded(Snap(), s)
      ensures Fresh()
    {
      GuardedFresh(Snap(), Solve(Snap()), View());
    }

    /** As long as nothing has been calculated nothing is stale. */
    lemma StartsFresh()
      requires Settings() && forall s :: s in curr ==> curr[s].tri == NO
      ensures Fresh()
    {
      StartFresh(Snap(), Solve(Snap()), View());
    }

    lemma NothingSet()
      requires Settings() && curr.Keys == selected.Keys == visible.Keys == defs.Keys && valid == emitted == {}
      ensures Inv()
    {
      NothingCached(Snap(), Solve(Snap()), View());
    }

    /** sym_calc_value from outside: the symbol gets the value it should have. */
    method Calc(s: Symbol)
      requires Right() && Fresh() && (TypeOf(s) == Unknown <==> s !in defs)
      modifies `curr, `selected, `visible, `valid, `write
      ensures Right() && Fresh() && old(valid) <= valid && ValuesStay(old(View()), View())
      ensures s in defs ==> s in valid
      ensures (s in defs ==> s in curr) && Known(s) == Expected(s)
      ensures forall t :: t in old(valid) && t in defs && defs[t].group.None? ==> (t in write <==> t in old(write))
    {
      ghost var (sn, v) := (Snap(), Solve(Snap()));
      AllReady(sn, v, View(), rank(s) + 1);
      CalcValue(s, rank(s) + 1, sn, v);
      ValuesKept(sn, v, old(View()), View());
      AllKept(sn, v, old(View()), View());
      WritesKept(sn, v, old(View()), View());
    }

    /** The value of a condition. */
    method CalcCondition(e: Option<Expr>, ghost k: nat) returns (r: Tri)
      requires Right() && Fresh() && OptBelow(e, defs, rank, k)
      modifies `curr, `selected, `visible, `valid, `write
      ensures Right() && Fresh() && old(valid) <= valid
      ensures r == EvalOpt(e, EnvOf(Solve(Snap())))
      ensures forall t :: t in old(valid) && t in defs && defs[t].group.None? ==> (t in write <==> t in old(write))
    {
      ghost var (sn, v) := (Snap(), Solve(Snap()));
      AllReady(sn, v, View(), k);
      r := CalcOpt(e, k, sn, v);
      AllKept(sn, v, old(View()), View());
      WritesKept(sn, v, old(View()), View());
    }

    /** sym_clear_all_valid. */
    method ClearAllValid()
      requires Settings() && curr.Keys == selected.Keys == visible.Keys == defs.Keys
      modifies `valid, `emitted, `changeCount
      ensures Inv() && valid == {} && changeCount == old(changeCount) + 1
    {
      valid := {};
      emitted := {};
      changeCount := changeCount + 1;
      NothingSet();
    }

    // ----- The setters -----

    /** sym_tristate_within_range. */
    method InRange(s: Symbol, val: Tri) returns (ok: bool)
      requires Inv() && Fresh() && s in valid && IsLogical(s)
      modifies `curr, `selected, `visible, `valid, `write
      ensures Inv() && Fresh() && s in valid && s in curr && curr[s] == old(curr[s])
      ensures ValuesStay(old(View()), View())
      ensures ok <==> WithinRange(Snap(), Solve(Snap()), s, val)
    {
      ghost var (sn, v) := (Snap(), Solve(Snap()));
      IsRight(sn, v, View(), s);
      AllReady(sn, v, View(), rank(s));
      var t := GetType(s, sn, v);
      KeptAt(sn, v, old(View()), View(), {}, s);
      AllKept(sn, v, old(View()), View());
      ValuesKept(sn, v, old(View()), View());
      IsRight(sn, v, View(), s);
      if visible[s] == NO {
        return false;
      }
      var pinned := defs[s].group.Some? && visible[s] == YES;
      if val == NO {
        ok := !pinned && defs[s].optional;
      } else if val == MOD {
        ok := !pinned && t == ThreeState;
      } else {
        ok := t == Boolean || visible[s] == YES;
      }
    }

    /** sym_set_tristate_value. */
    method SetTristate(s: Symbol, val: Tri) returns (ok: bool)
      requires Inv() && Fresh() && s in valid && IsLogical(s)
      modifies this
      ensures ValuesStay(old(View()), View())
      ensures ok <==> val == old(Expected(s)).tri || old(WithinRange(Snap(), Solve(Snap()), s, val))
      ensures !ok ==> Snap() == old(Snap()) && Inv()
      ensures ok ==> s in old(def) && Snap() == AfterSet(old(Snap()), s, val)
      ensures ok && val != old(Expected(s)).tri ==> Inv() && valid == {} && changeCount == old(changeCount) + 1
      ensures ok && val == old(Expected(s)).tri ==> View() == old(View()) && changeCount == old(changeCount)
      ensures ok && val == old(Expected(s)).tri && old(KeepsSelection(Snap(), s, val, Solve(Snap()))) ==> Inv()
    {
      hide ValuesStay, AllFresh, Snapshot.Solution, Shape, AllCoherent, KeepsSelection, WithinRange;
      ghost var (sn, v) := (Snap(), Solve(Snap()));
      hide SettingsOk, Snapshot.Ok;
      IsRight(sn, v, View(), s);
      if curr[s].tri == val {
        ValuesSame(sn, v, View(), View());
        SetCurrent(s, val);
        return true;
      }
      ok := InRange(s, val);
      if ok {
        ghost var c := View();
        SetOther(s, val);
        ValuesOn(old(View()), c, View());
      }
    }

    /** The symbol already has the value: only the user setting is recorded. */
    method SetCurrent(s: Symbol, val: Tri)
      requires Inv() && s in valid && IsLogical(s) && val == Expected(s).tri
      modifies `def, `isNew, `stored
      ensures s in old(def) && Snap() == AfterSet(old(Snap()), s, val)
      ensures old(KeepsSelection(Snap(), s, val, Solve(Snap()))) ==> Inv()
    {
      ghost var (sn, v) := (Snap(), Solve(Snap()));
      hide SettingsOk, Snapshot.Ok, Snapshot.Solution, Shape, AllCoherent, KeepsSelection, WithinRange;
      IsRight(sn, v, View(), s);
      SettingsDomains(sn);
      StoreTristate(s, val, sn);
      if KeepsSelection(sn, s, val, v) {
        SetToCurrentStays(s, sn, v);
      }
    }

    /** The symbol changes: what has been calculated is forgotten. */
    method SetOther(s: Symbol, val: Tri)
      requires Inv() && s in valid && IsLogical(s)
      modifies `def, `isNew, `stored, `valid, `emitted, `changeCount
      ensures s in old(def) && Snap() == AfterSet(old(Snap()), s, val)
      ensures Inv() && valid == {} && changeCount == old(changeCount) + 1
    {
      ghost var (sn, v) := (Snap(), Solve(Snap()));
      hide SettingsOk, Snapshot.Ok, Snapshot.Solution, Shape, AllCoherent, KeepsSelection, WithinRange;
      IsRight(sn, v, View(), s);
      SettingsDomains(sn);
      CacheDomains(View(), sn, v);
      StoreTristate(s, val, sn);
      ClearAllValid();
    }

    lemma CacheDomains(c: Cache, sn: Snapshot, v: Values)
      requires Shape(sn, v, c)
      ensures c.curr.Keys == c.selected.Keys == c.visible.Keys == sn.defs.Keys && c.valid <= sn.defs.Keys
    {
    }

    /** Without invalidation the table is still right if the choice keeps its selection. */
    lemma SetToCurrentStays(s: Symbol, sn: Snapshot, v: Values)
      requires SettingsOk(sn) && sn.Solution(v) && s in sn.defs && IsLogical(s) && KeepsSelection(sn, s, v[s].tri, v)
      requires Settings() && Snap() == AfterSet(sn, s, v[s].tri)
      requires Shape(sn, v, View()) && AllCoherent(sn, v, View()) && (changeCount > 0 ==> emitted == {})
      ensures Inv()
    {
      hide Snapshot.Ok, Snapshot.Solution, Shape, AllCoherent, KeepsSelection;
      SetToCurrentKeepsIff(sn, s, v);
      StillRightSolution(sn, Snap(), v);
      AllStillRight(sn, Snap(), v, View());
    }

    /** The new user setting is recorded, and with it the choice value the user wants. */
    method StoreTristate(s: Symbol, val: Tri, ghost sn: Snapshot)
      requires Settings() && sn == Snap() && s in defs && IsLogical(s)
      modifies `def, `isNew, `stored
      ensures Settings() && Snap() == AfterSet(sn, s, val)
    {
      hide SettingsOk, Snapshot.Ok;
      SettingsDomains(sn);
      AfterSetSettingsOk(sn, s, val);
      isNew := isNew - {s};
      var g := defs[s].group;
      if g.Some? && val == YES {
        stored := stored[g.value := Some(s)];
        isNew := isNew - {g.value};
      }
      def := def[s := def[s].(tri := val)];
      assert isNew == AfterSet(sn, s, val).isNew;
    }

    /** sym_string_valid. */
    method StringValid(s: Symbol, text: string) returns (ok: bool)
      requires Inv() && s in defs && (IsLogical(s) ==> Fresh() && s in valid) && IsCString(text)
      modifies `curr, `selected, `visible, `valid, `write
      ensures Inv() && (IsLogical(s) ==> Fresh()) && ValuesStay(old(View()), View())
      ensures ok <==> if IsLogical(s) then TriOf(text).Some? && WithinRange(Snap(), Solve(Snap()), s, TriOf(text).value)
                      else TextValid(TypeOf(s), text)
    {
      hide TextValid, WithinRange, ValuesStay, AllFresh, AllCoherent;
      ValuesSame(Snap(), Solve(Snap()), View(), View());
      if !IsLogical(s) {
        ok := PlainValid(TypeOf(s), text);
      } else if TriOf(text).None? {
        ok := false;
      } else {
        ok := InRange(s, TriOf(text).value);
      }
    }

    /** sym_set_string_value: for a logical symbol the first character says what to set it to. */
    method SetString(s: Symbol, text: string) returns (ok: bool)
      requires Inv() && s in defs && (IsLogical(s) ==> Fresh() && s in valid) && IsCString(text)
      modifies this
      ensures IsLogical(s) && TriOf(text).None? ==> !ok && Snap() == old(Snap()) && View() == old(View())
      ensures IsLogical(s) && TriOf(text).Some? ==>
                var val := TriOf(text).value;
                (ok <==> val == old(Expected(s)).tri || old(WithinRange(Snap(), Solve(Snap()), s, val))) &&
                s in old(def) && Snap() == (if ok then AfterSet(old(Snap()), s, val) else old(Snap())) &&
                (val != old(Expected(s)).tri || old(KeepsSelection(Snap(), s, val, Solve(Snap()))) ==> Inv())
      ensures !IsLogical(s) ==> Inv() && (ok <==> TextValid(TypeOf(s), text))
      ensures !IsLogical(s) ==> Snap() == if ok then AfterSetText(old(Snap()), s, text) else old(Snap())
    {
      hide TextValid, WithinRange, KeepsSelection, AllFresh, AllCoherent, Shape;
      SettingsDomains(Snap());
      if !IsLogical(s) {
        ok := SetText(s, text);
      } else if TriOf(text).None? {
        ok := false;
      } else {
        ok := SetTristate(s, TriOf(text).value);
      }
    }

    /** The part of sym_set_string_value for numbers and strings. */
    method SetText(s: Symbol, text: string) returns (ok: bool)
      requires Inv() && s in defs && !IsLogical(s) && IsCString(text)
      modifies this
      ensures Inv()
      ensures ok <==> TextValid(TypeOf(s), text)
      ensures !ok ==> Snap() == old(Snap()) && View() == old(View())
      ensures ok ==> Snap() == AfterSetText(old(Snap()), s, text)
    {
      hide SettingsOk, Snapshot.Ok, Shape, AllCoherent, TextValid;
      ok := PlainValid(TypeOf(s), text);
      if !ok {
        return;
      }
      ghost var sn := Snap();
      SettingsDomains(sn);
      var oldtext := def[s].text;
      var newtext := text;
      if TypeOf(s) == Hex && !HasHexPrefix(text) {
        newtext := "0x" + text;
      } else if oldtext == Some(text) {
        // The text was set before, so the symbol was not new.
        assert isNew - {s} == isNew;
        assert def == def[s := def[s].(text := Some(text))];
        return;
      }
      AfterSetTextOk(sn, s, text);
      CacheDomains(View(), sn, Solve(sn));
      isNew := isNew - {s};
      def := def[s := def[s].(text := Some(newtext))];
      ClearAllValid();
    }
  }

  /** Ruling out m turns the raw value into the value. */
  lemma CalculatedValue(sn: Snapshot, v: Values, s: Symbol, raw: Value)
    requires sn.Solution(v) && s in sn.defs
    requires raw.tri == sn.RawValue(s, v).tri && (IsLogical(s) || raw.text == sn.RawValue(s, v).text)
    ensures v[s] == Value(if IsLogical(s) then None else raw.text,
                          if raw.tri == MOD && IsLogical(s) && !sn.ModAvailable(s, v) then YES else raw.tri)
  {
    var solved := sn.Solved(s, v);
    assert solved;
  }

  /** A prompt of a choice value that is not n has led to its choice. */
  lemma GroupVisited(sn: Snapshot, s: Symbol, e: Option<Expr>, v: Values, valid: set<Symbol>)
    requires sn.Ok() && s in sn.defs && sn.defs[s].group.Some? && e in sn.defs[s].prompts
    requires EvalOpt(e, EnvOf(v)) != NO && (e.Some? ==> Visited(e.value, sn.defs.Keys, valid))
    ensures sn.defs[s].group.value in valid
  {
    var ok := SymbolOk(sn.defs, sn.modules, sn.rank, s);
    assert ok;
    UnderVisited(e.value, sn.defs[s].group.value, EnvOf(v), sn.defs.Keys, valid);
  }

  lemma ChoiceIsLogical(sn: Snapshot, c: Symbol)
    requires sn.Ok() && c in sn.defs && c.Choice?
    ensures IsLogical(c)
  {
    var ok := SymbolOk(sn.defs, sn.modules, sn.rank, c);
    assert ok;
  }

  lemma NothingInherited(sn: Snapshot, v: Values, c: Cache, s: Symbol)
    requires s in sn.defs
    requires !s.Choice? || sn.Visibility(s, v) != NO || ActiveDefault(sn.defs[s].defaults, EnvOf(v), 0).None?
    ensures !Stale(sn, v, c, s)
  {
  }

  lemma StaleSame(sn: Snapshot, v: Values, c: Cache, c': Cache, s: Symbol)
    requires s in sn.defs && c'.valid == c.valid && c'.curr.Keys == c.curr.Keys && sn.Solution(v)
    requires forall t :: t in c.curr && t != s ==> c'.curr[t] == c.curr[t]
    ensures Stale(sn, v, c, s) <==> Stale(sn, v, c', s)
  {
    if s.Choice? && sn.Visibility(s, v) == NO {
      InvisibleChoice(sn, v, s);
      var d := ActiveDefault(sn.defs[s].defaults, EnvOf(v), 0);
      if d.Some? {
        MemberOf(sn, s, d.value);
      }
    }
  }

  /** The default of an invisible choice is one of its values. */
  lemma InheritedAt(sn: Snapshot, v: Values, c: Cache, s: Symbol)
    requires Shape(sn, v, c) && sn.Solution(v) && s in sn.defs && s.Choice? && sn.Visibility(s, v) == NO
    ensures var d := ActiveDefault(sn.defs[s].defaults, EnvOf(v), 0);
            d.Some? ==> d.value in c.curr && (Stale(sn, v, c, s) <==> d.value in c.valid && c.curr[d.value].tri != NO)
    ensures sn.RawValue(s, v).tri == NO
  {
    InvisibleChoice(sn, v, s);
  }

  lemma Inherited(sn: Snapshot, v: Values, s: Symbol, d: Symbol)
    requires sn.Solution(v) && s in sn.defs && s.Choice? && sn.Visibility(s, v) == NO
    requires ActiveDefault(sn.defs[s].defaults, EnvOf(v), 0) == Some(d)
    ensures sn.defs[s].group.None? && sn.RawValue(s, v).tri == NO && d in v && v[d].tri == NO
  {
    var ok := SymbolOk(sn.defs, sn.modules, sn.rank, s);
    assert ok;
    InvisibleChoice(sn, v, s);
  }

  /** Everything that the default of an invisible choice depends on is settled. */
  lemma InheritReady(sn: Snapshot, v: Values, c0: Cache, c: Cache, s: Symbol, d: Symbol)
    requires sn.Solution(v) && Working(sn, v, c0, c, s) && s.Choice? && sn.Visibility(s, v) == NO
    requires ActiveDefault(sn.defs[s].defaults, EnvOf(v), 0) == Some(d) && d !in c.valid
    requires c.curr[s] == BaseValue(s) && s in c.write
    ensures d in sn.defs && CanCalc(sn, v, c, d)
  {
    InvisibleChoice(sn, v, s);
    MemberOfNo(sn, v, s, d);
    MemberOf(sn, s, d);
    var (solved, ok) := (sn.Solved(s, v), SymbolOk(sn.defs, sn.modules, sn.rank, s));
    assert solved && ok;
    assert v[s] == BaseValue(s);
    hide Filled, Ready, Coherent, Snapshot.Ok, Snapshot.Visibility;
    assert Settled(sn, v, c, s) && Settled(sn, v, c, d);
    WorkingSettled(sn, v, c0, c, s);
  }

  lemma NotAChoice(sn: Snapshot, v: Values, c0: Cache, c: Cache, s: Symbol)
    requires Working(sn, v, c0, c, s) && Settled(sn, v, c, s) && !s.Choice?
    ensures Coherent(sn, v, c, s)
  {
  }

  lemma NotSelected(sn: Snapshot, v: Values, c0: Cache, c: Cache, s: Symbol)
    requires Working(sn, v, c0, c, s) && Settled(sn, v, c, s) && v[s].tri != YES
    ensures Coherent(sn, v, c, s)
  {
  }
}
