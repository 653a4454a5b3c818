/** When the cache of symbol values is right, and what filling it may change. */
module SymbolCache {
  import opened Options
  import opened Tristate
  import opened Symbols
  import opened Expressions
  import opened SymbolSpec

  /**
   * The cached part of all symbols.  `valid` and `write` are the symbols with SYMBOL_VALID and
   * SYMBOL_WRITE; `emitted` those whose SYMBOL_WRITE conf_write has consumed since they became valid.
   */
  datatype Cache = Cache(
    curr: map<Symbol, Value>,
    selected: map<Symbol, Option<Symbol>>,
    visible: map<Symbol, Tri>,
    valid: set<Symbol>,
    write: set<Symbol>,
    emitted: set<Symbol>)

  ghost predicate Shape(sn: Snapshot, v: Values, c: Cache) {
    sn.Ok() && v.Keys == sn.defs.Keys && c.curr.Keys == c.selected.Keys == c.visible.Keys == sn.defs.Keys &&
    c.emitted <= c.valid <= sn.defs.Keys
  }

  lemma Domains(sn: Snapshot, v: Values, c: Cache)
    requires Shape(sn, v, c)
    ensures c.curr.Keys == c.selected.Keys == c.visible.Keys == sn.defs.Keys == sn.def.Keys == sn.stored.Keys == v.Keys
    ensures c.valid <= sn.defs.Keys
  {
  }

  lemma WorkingOn(sn: Snapshot, v: Values, c0: Cache, c: Cache, s: Symbol)
    requires Working(sn, v, c0, c, s)
    ensures s in sn.defs && s in c.valid && c.visible[s] == sn.Visibility(s, v)
    ensures Shape(sn, v, c0) && Shape(sn, v, c) && AllFresh(sn, v, c)
  {
  }

  /** The value, visibility and write flag cached for `s` are right. */
  ghost predicate Right(sn: Snapshot, v: Values, c: Cache, s: Symbol)
    requires Shape(sn, v, c) && s in sn.defs
  {
    c.curr[s] == v[s] && c.visible[s] == sn.Visibility(s, v) &&
    (sn.defs[s].group.None? && s !in c.emitted ==> (s in c.write <==> sn.Written(s, v)))
  }

  /** If `s` is valid it is right, up to the selection of a choice. */
  ghost predicate Settled(sn: Snapshot, v: Values, c: Cache, s: Symbol)
    requires Shape(sn, v, c) && s in sn.defs
  {
    s in c.valid ==> Right(sn, v, c, s)
  }

  /** The choice of a visible choice value has been calculated. */
  ghost predicate GroupValid(sn: Snapshot, v: Values, c: Cache, s: Symbol)
    requires Shape(sn, v, c) && s in sn.defs
  {
    sn.defs[s].group.Some? && sn.Visibility(s, v) != NO ==> sn.defs[s].group.value in c.valid
  }

  /** If `s` is valid everything cached about it is right. */
  ghost predicate Coherent(sn: Snapshot, v: Values, c: Cache, s: Symbol)
    requires Shape(sn, v, c) && s in sn.defs
  {
    Settled(sn, v, c, s) && (s in c.valid ==> GroupValid(sn, v, c, s)) &&
    (s in c.valid && s.Choice? && v[s].tri == YES ==> c.selected[s] == sn.Selection(s, v))
  }

  /** All symbols of rank below `k` are settled, those of rank below `k - 1` coherent. */
  ghost predicate Ready(sn: Snapshot, v: Values, c: Cache, k: nat)
    requires Shape(sn, v, c)
  {
    forall s {:trigger Settled(sn, v, c, s)} {:trigger Coherent(sn, v, c, s)} :: s in sn.defs ==>
      (sn.rank(s) < k ==> Settled(sn, v, c, s)) && (sn.rank(s) + 1 < k ==> Coherent(sn, v, c, s))
  }

  /** Every valid symbol is right: the cache holds what a fresh calculation would give. */
  ghost predicate AllCoherent(sn: Snapshot, v: Values, c: Cache)
    requires Shape(sn, v, c)
  {
    forall s {:trigger Coherent(sn, v, c, s)} :: s in sn.defs ==> Coherent(sn, v, c, s)
  }

  /** Apart from `s` itself: what was right about `s` stays right, and a valid symbol stays as it is. */
  ghost predicate Kept(sn: Snapshot, v: Values, c: Cache, c': Cache, s: Symbol)
    requires Shape(sn, v, c) && Shape(sn, v, c') && s in sn.defs
  {
    (Settled(sn, v, c, s) ==> Settled(sn, v, c', s)) &&
    (Coherent(sn, v, c, s) ==> Coherent(sn, v, c', s)) &&
    (c.visible[s] == sn.Visibility(s, v) ==> c'.visible[s] == c.visible[s]) &&
    (s in c.valid ==> c'.curr[s] == c.curr[s] && c'.selected[s] == c.selected[s]) &&
    (s in c.valid && sn.defs[s].group.None? ==> (s in c'.write <==> s in c.write))
  }

  /** What is n and should be n stays n. */
  ghost predicate StaysNo(v: Values, c: Cache, c': Cache, s: Symbol)
    requires s in v && s in c.curr && s in c'.curr
  {
    c.curr[s].tri == NO && v[s].tri == NO ==> c'.curr[s].tri == NO
  }

  /** The default that an invisible choice takes its value from stands at n. */
  ghost predicate FreshAt(sn: Snapshot, v: Values, c: Cache, s: Symbol)
    requires s in sn.defs
  {
    s.Choice? && sn.Visibility(s, v) == NO ==>
      var d := ActiveDefault(sn.defs[s].defaults, EnvOf(v), 0);
      d.Some? && d.value in c.curr ==> c.curr[d.value].tri == NO
  }

  /** So it is for every choice that is still to be calculated. */
  ghost predicate AllFresh(sn: Snapshot, v: Values, c: Cache) {
    forall s {:trigger FreshAt(sn, v, c, s)} :: s in sn.defs && s !in c.valid ==> FreshAt(sn, v, c, s)
  }

  /**
   * An invisible choice is about to take over a value that is not its own: its default is being
   * calculated itself, and still has the value it had before.
   */
  ghost predicate Stale(sn: Snapshot, v: Values, c: Cache, s: Symbol)
    requires s in sn.defs
  {
    s.Choice? && sn.Visibility(s, v) == NO &&
    var d := ActiveDefault(sn.defs[s].defaults, EnvOf(v), 0);
    d.Some? && d.value in c.curr && d.value in c.valid && c.curr[d.value].tri != NO
  }

  /** The cache has only been filled further, leaving aside the symbols `x` being worked on. */
  ghost predicate Filled(sn: Snapshot, v: Values, c: Cache, c': Cache, x: set<Symbol>)
    requires Shape(sn, v, c) && Shape(sn, v, c')
  {
    c.valid <= c'.valid && c'.emitted == c.emitted &&
    (forall s {:trigger StaysNo(v, c, c', s)} :: s in sn.defs ==> StaysNo(v, c, c', s)) &&
    forall s {:trigger Kept(sn, v, c, c', s)} :: s in sn.defs && s !in x ==> Kept(sn, v, c, c', s)
  }

  lemma FilledNothing(sn: Snapshot, v: Values, c: Cache, x: set<Symbol>)
    requires Shape(sn, v, c)
    ensures Filled(sn, v, c, c, x)
  {
  }

  lemma FreshKept(sn: Snapshot, v: Values, c: Cache, c': Cache, x: set<Symbol>, s: Symbol)
    requires Shape(sn, v, c) && Shape(sn, v, c') && Filled(sn, v, c, c', x) && sn.Solution(v)
    requires s in sn.defs && FreshAt(sn, v, c, s)
    ensures FreshAt(sn, v, c', s)
  {
    if s.Choice? && sn.Visibility(s, v) == NO {
      InvisibleChoice(sn, v, s);
      var d := ActiveDefault(sn.defs[s].defaults, EnvOf(v), 0);
      assert d.Some? ==> StaysNo(v, c, c', d.value);
    }
  }

  lemma StaleKept(sn: Snapshot, v: Values, c: Cache, c': Cache, s: Symbol)
    requires Shape(sn, v, c) && Shape(sn, v, c') && Filled(sn, v, c, c', {}) && sn.Solution(v) && s in sn.defs
    ensures Stale(sn, v, c, s) <==> Stale(sn, v, c', s)
  {
    if s.Choice? && sn.Visibility(s, v) == NO {
      InvisibleChoice(sn, v, s);
      var d := ActiveDefault(sn.defs[s].defaults, EnvOf(v), 0);
      if d.Some? {
        KeptAt(sn, v, c, c', {}, d.value);
      }
    }
  }

  lemma FreshNotStale(sn: Snapshot, v: Values, c: Cache, s: Symbol)
    requires s in sn.defs && FreshAt(sn, v, c, s)
    ensures !Stale(sn, v, c, s)
  {
  }

  lemma AllFreshKept(sn: Snapshot, v: Values, c: Cache, c': Cache, x: set<Symbol>)
    requires Shape(sn, v, c) && Shape(sn, v, c') && Filled(sn, v, c, c', x) && sn.Solution(v) && AllFresh(sn, v, c)
    ensures AllFresh(sn, v, c')
  {
    forall s | s in sn.defs && s !in c'.valid ensures FreshAt(sn, v, c', s) {
      assert FreshAt(sn, v, c, s);
      FreshKept(sn, v, c, c', x, s);
    }
  }

  lemma ValidGrows(sn: Snapshot, v: Values, a: Cache, b: Cache, x: set<Symbol>)
    requires Shape(sn, v, a) && Shape(sn, v, b) && Filled(sn, v, a, b, x)
    ensures a.valid <= b.valid
  {
  }

  lemma KeptAt(sn: Snapshot, v: Values, a: Cache, b: Cache, x: set<Symbol>, s: Symbol)
    requires Shape(sn, v, a) && Shape(sn, v, b) && Filled(sn, v, a, b, x) && s in sn.defs && s !in x
    ensures Kept(sn, v, a, b, s)
  {
    var kept := Kept(sn, v, a, b, s);
    assert kept;
  }

  lemma FilledTwice(sn: Snapshot, v: Values, a: Cache, b: Cache, c: Cache, x: set<Symbol>)
    requires Shape(sn, v, a) && Shape(sn, v, b) && Shape(sn, v, c)
    requires Filled(sn, v, a, b, x) && (Filled(sn, v, b, c, x) || Filled(sn, v, b, c, {}))
    ensures Filled(sn, v, a, c, x)
  {
    forall s | s in sn.defs
      ensures StaysNo(v, a, c, s) && (s !in x ==> Kept(sn, v, a, c, s))
    {
      assert StaysNo(v, a, b, s) && StaysNo(v, b, c, s);
      assert s !in x ==> Kept(sn, v, a, b, s) && Kept(sn, v, b, c, s);
    }
  }

  lemma ReadyKept(sn: Snapshot, v: Values, a: Cache, b: Cache, x: set<Symbol>, k: nat)
    requires Shape(sn, v, a) && Shape(sn, v, b) && Filled(sn, v, a, b, x) && Ready(sn, v, a, k)
    requires forall s :: s in x ==> s in sn.defs && sn.rank(s) >= k
    ensures Ready(sn, v, b, k)
  {
    forall s | s in sn.defs
      ensures sn.rank(s) < k ==> Settled(sn, v, b, s)
      ensures sn.rank(s) + 1 < k ==> Coherent(sn, v, b, s)
    {
      if s !in x {
        assert Kept(sn, v, a, b, s);
        assert sn.rank(s) < k ==> Settled(sn, v, a, s);
        assert sn.rank(s) + 1 < k ==> Coherent(sn, v, a, s);
      }
    }
  }

  lemma ReadyLess(sn: Snapshot, v: Values, c: Cache, k: nat, j: nat)
    requires Shape(sn, v, c) && Ready(sn, v, c, k) && j <= k
    ensures Ready(sn, v, c, j)
  {
  }

  /** Writing the right visibility changes nothing that was right. */
  lemma VisibilityKept(sn: Snapshot, v: Values, c: Cache, s: Symbol)
    requires Shape(sn, v, c) && s in sn.defs
    ensures var c' := c.(visible := c.visible[s := sn.Visibility(s, v)]);
            Shape(sn, v, c') && Filled(sn, v, c, c', {})
  {
  }

  // ----- One symbol being calculated -----

  /**
   * What calculating `s` starts from: all that it may depend on is settled, and for a choice, whose
   * values are looked at too, all that they may depend on.
   */
  ghost predicate CanCalc(sn: Snapshot, v: Values, c: Cache, s: Symbol)
    requires Shape(sn, v, c) && s in sn.defs
  {
    Settled(sn, v, c, s) && Ready(sn, v, c, if s.Choice? then sn.rank(s) + 1 else sn.rank(s)) &&
    (sn.defs[s].group.Some? && sn.defs[s].group.value in sn.defs && sn.Visibility(s, v) == YES ==>
      Coherent(sn, v, c, sn.defs[s].group.value))
  }

  lemma ReadyCanCalc(sn: Snapshot, v: Values, c: Cache, s: Symbol, k: nat)
    requires Shape(sn, v, c) && s in sn.defs && Ready(sn, v, c, k) && sn.rank(s) < k
    ensures CanCalc(sn, v, c, s)
  {
    assert Settled(sn, v, c, s);
    ReadyLess(sn, v, c, k, sn.rank(s));
    ReadyLess(sn, v, c, k, sn.rank(s) + 1);
    if sn.defs[s].group.Some? {
      GroupOf(sn, s);
      var coherent := Coherent(sn, v, c, sn.defs[s].group.value);
      assert coherent;
    }
  }

  /** Since `c0`, `s` has been marked valid and its visibility found; all else was only filled. */
  ghost predicate Working(sn: Snapshot, v: Values, c0: Cache, c: Cache, s: Symbol) {
    Shape(sn, v, c0) && Shape(sn, v, c) && s in sn.defs && s !in c0.valid && s in c.valid &&
    CanCalc(sn, v, c0, s) && Filled(sn, v, c0, c, {s}) && AllFresh(sn, v, c) && c.visible[s] == sn.Visibility(s, v) &&
    GroupValid(sn, v, c, s)
  }

  /** It is marked valid, and its write flag goes, before anything is known. */
  lemma MarkValid(sn: Snapshot, v: Values, c0: Cache, s: Symbol, write: set<Symbol>)
    requires Shape(sn, v, c0) && s in sn.defs && s !in c0.valid && CanCalc(sn, v, c0, s)
    requires forall t :: t != s ==> (t in write <==> t in c0.write)
    ensures var c := c0.(valid := c0.valid + {s}, write := write);
            Shape(sn, v, c) && Filled(sn, v, c0, c, {s}) && Ready(sn, v, c, sn.rank(s))
  {
    var c := c0.(valid := c0.valid + {s}, write := write);
    forall t | t in sn.defs && t != s ensures Kept(sn, v, c0, c, t) {
    }
    CanCalcReady(sn, v, c0, s);
    ReadyKept(sn, v, c0, c, {s}, sn.rank(s));
  }

  lemma MarkFresh(sn: Snapshot, v: Values, c0: Cache, c: Cache, s: Symbol)
    requires Shape(sn, v, c0) && Shape(sn, v, c) && s in sn.defs && s !in c0.valid && sn.Solution(v) && AllFresh(sn, v, c0)
    requires Filled(sn, v, c0, c, {s})
    ensures AllFresh(sn, v, c) && FreshAt(sn, v, c, s)
  {
    assert FreshAt(sn, v, c0, s);
    FreshKept(sn, v, c0, c, {s}, s);
    AllFreshKept(sn, v, c0, c, {s});
  }

  lemma CanCalcReady(sn: Snapshot, v: Values, c: Cache, s: Symbol)
    requires Shape(sn, v, c) && s in sn.defs && CanCalc(sn, v, c, s)
    ensures Ready(sn, v, c, sn.rank(s))
  {
    ReadyLess(sn, v, c, if s.Choice? then sn.rank(s) + 1 else sn.rank(s), sn.rank(s));
  }

  lemma StartWorking(sn: Snapshot, v: Values, c0: Cache, c1: Cache, c2: Cache, s: Symbol)
    requires Shape(sn, v, c0) && s in sn.defs && s !in c0.valid && CanCalc(sn, v, c0, s) && AllFresh(sn, v, c2)
    requires Shape(sn, v, c1) && Filled(sn, v, c0, c1, {s}) && s in c1.valid
    requires Shape(sn, v, c2) && Filled(sn, v, c1, c2, {}) && c2.visible[s] == sn.Visibility(s, v)
    requires GroupValid(sn, v, c2, s)
    ensures Working(sn, v, c0, c2, s)
    ensures sn.defs[s].group.None? ==> (s in c2.write <==> s in c1.write)
  {
    KeptAt(sn, v, c1, c2, {}, s);
    FilledTwice(sn, v, c0, c1, c2, {s});
  }

  lemma WorkingReady(sn: Snapshot, v: Values, c0: Cache, c: Cache, s: Symbol)
    requires Working(sn, v, c0, c, s)
    ensures Ready(sn, v, c, sn.rank(s))
  {
    CanCalcReady(sn, v, c0, s);
    ReadyKept(sn, v, c0, c, {s}, sn.rank(s));
  }

  /** Calculating other symbols meanwhile leaves `s` alone. */
  lemma WorkingStep(sn: Snapshot, v: Values, c0: Cache, c: Cache, c': Cache, s: Symbol)
    requires Working(sn, v, c0, c, s) && Shape(sn, v, c') && Filled(sn, v, c, c', {}) && AllFresh(sn, v, c')
    ensures Working(sn, v, c0, c', s)
    ensures c'.curr[s] == c.curr[s] && c'.selected[s] == c.selected[s]
    ensures sn.defs[s].group.None? ==> (s in c'.write <==> s in c.write)
  {
    KeptAt(sn, v, c, c', {}, s);
    FilledTwice(sn, v, c0, c, c', {s});
  }

  /** Writing the value, selection and write flag of `s`, and the write flags of choice values. */
  lemma WorkingUpdate(sn: Snapshot, v: Values, c0: Cache, c: Cache, c': Cache, s: Symbol)
    requires Working(sn, v, c0, c, s)
    requires c'.visible == c.visible && c'.valid == c.valid && c'.emitted == c.emitted
    requires c'.curr.Keys == c'.selected.Keys == sn.defs.Keys
    requires forall t :: t in sn.defs && t != s ==> c'.curr[t] == c.curr[t] && c'.selected[t] == c.selected[t]
    requires sn.Solution(v) && StaysNo(v, c, c', s)
    requires forall t :: t in sn.defs && t != s && sn.defs[t].group.None? ==> (t in c'.write <==> t in c.write)
    ensures Working(sn, v, c0, c', s)
  {
    forall t | t in sn.defs && t != s ensures Kept(sn, v, c, c', t) {
    }
    AllFreshKept(sn, v, c, c', {s});
    FilledTwice(sn, v, c0, c, c', {s});
  }

  lemma WorkingSetCurr(sn: Snapshot, v: Values, c0: Cache, c: Cache, s: Symbol, x: Value)
    requires Working(sn, v, c0, c, s) && sn.Solution(v) && (x.tri == NO || x == v[s])
    ensures Working(sn, v, c0, c.(curr := c.curr[s := x]), s)
    ensures x == v[s] && (sn.defs[s].group.None? && s !in c.emitted ==> (s in c.write <==> sn.Written(s, v))) ==>
              Settled(sn, v, c.(curr := c.curr[s := x]), s)
  {
    hide Filled, Ready, Coherent, GroupValid, Snapshot.Ok, Snapshot.Written, Snapshot.Visibility;
    WorkingUpdate(sn, v, c0, c, c.(curr := c.curr[s := x]), s);
  }

  lemma WorkingSetWrite(sn: Snapshot, v: Values, c0: Cache, c: Cache, s: Symbol)
    requires Working(sn, v, c0, c, s) && sn.Solution(v)
    ensures Working(sn, v, c0, c.(write := c.write + {s}), s)
  {
    WorkingUpdate(sn, v, c0, c, c.(write := c.write + {s}), s);
  }

  /** The selection of a choice is recorded, which completes it. */
  lemma WorkingSetSelected(sn: Snapshot, v: Values, c0: Cache, c: Cache, s: Symbol)
    requires Working(sn, v, c0, c, s) && Settled(sn, v, c, s) && s in sn.stored && sn.Solution(v)
    ensures var c' := c.(selected := c.selected[s := sn.Selection(s, v)]);
            Working(sn, v, c0, c', s) && Coherent(sn, v, c', s)
  {
    hide Filled, Ready, Snapshot.Ok, Snapshot.Written, Snapshot.Visibility, Snapshot.Selection;
    WorkingUpdate(sn, v, c0, c, c.(selected := c.selected[s := sn.Selection(s, v)]), s);
  }

  /** A choice that is written out passes that on to its choice values. */
  lemma WorkingWriteMembers(sn: Snapshot, v: Values, c0: Cache, c: Cache, s: Symbol, write: set<Symbol>)
    requires Working(sn, v, c0, c, s) && Coherent(sn, v, c, s) && s.Choice? && sn.Solution(v)
    requires write == c.write + set m | m in sn.defs[s].members
    ensures Working(sn, v, c0, c.(write := write), s) && Coherent(sn, v, c.(write := write), s)
  {
    assert SymbolOk(sn.defs, sn.modules, sn.rank, s);
    WorkingUpdate(sn, v, c0, c, c.(write := write), s);
  }

  /** Once `s` is right, everything was only filled further. */
  lemma WorkingDone(sn: Snapshot, v: Values, c0: Cache, c: Cache, s: Symbol)
    requires Working(sn, v, c0, c, s) && Coherent(sn, v, c, s)
    ensures Filled(sn, v, c0, c, {})
  {
    assert Kept(sn, v, c0, c, s);
  }

  /** With its value right, choice values may be looked at even if the selection is still open. */
  lemma WorkingSettled(sn: Snapshot, v: Values, c0: Cache, c: Cache, s: Symbol)
    requires Working(sn, v, c0, c, s) && Settled(sn, v, c, s) && s.Choice?
    ensures Ready(sn, v, c, sn.rank(s) + 1)
  {
    var k := sn.rank(s) + 1;
    forall t | t in sn.defs
      ensures sn.rank(t) < k ==> Settled(sn, v, c, t)
      ensures sn.rank(t) + 1 < k ==> Coherent(sn, v, c, t)
    {
      if t != s {
        KeptAt(sn, v, c0, c, {s}, t);
        assert sn.rank(t) < k ==> Settled(sn, v, c0, t);
        assert sn.rank(t) + 1 < k ==> Coherent(sn, v, c0, t);
      }
    }
  }

  /** The choice of a choice value of visibility y is y and its selection is right. */
  lemma WorkingGroup(sn: Snapshot, v: Values, c0: Cache, c: Cache, s: Symbol)
    requires sn.Solution(v) && Working(sn, v, c0, c, s) && sn.defs[s].group.Some? && sn.Visibility(s, v) == YES
    ensures var g := sn.defs[s].group.value;
            g in sn.defs && g in sn.stored && c.selected[g] == sn.Selection(g, v) && IsLogical(s)
  {
    var g := sn.defs[s].group.value;
    GroupOf(sn, s);
    MemberBelowChoice(sn, s, v);
    assert Coherent(sn, v, c0, g);
    KeptAt(sn, v, c0, c, {s}, g);
  }

  /** A choice with its value set, whose selection is being looked for. */
  ghost predicate Selecting(sn: Snapshot, v: Values, c0: Cache, c: Cache, s: Symbol) {
    Working(sn, v, c0, c, s) && Settled(sn, v, c, s)
  }

  lemma SelectingOn(sn: Snapshot, v: Values, c0: Cache, c: Cache, s: Symbol)
    requires Selecting(sn, v, c0, c, s)
    ensures Working(sn, v, c0, c, s) && Shape(sn, v, c) && Settled(sn, v, c, s)
    ensures s in sn.defs && s in sn.stored
    ensures s.Choice? && sn.stored[s].Some? ==> sn.stored[s].value in sn.defs[s].members
  {
  }

  lemma SelectingReady(sn: Snapshot, v: Values, c0: Cache, c: Cache, s: Symbol)
    requires Selecting(sn, v, c0, c, s) && s.Choice?
    ensures Ready(sn, v, c, sn.rank(s) + 1) && Ready(sn, v, c, sn.rank(s))
  {
    WorkingSettled(sn, v, c0, c, s);
    WorkingReady(sn, v, c0, c, s);
  }

  /** Looking at choice values keeps the choice settled. */
  lemma SelectingStep(sn: Snapshot, v: Values, c0: Cache, c: Cache, c': Cache, s: Symbol)
    requires Selecting(sn, v, c0, c, s) && Shape(sn, v, c') && Filled(sn, v, c, c', {}) && AllFresh(sn, v, c')
    ensures Selecting(sn, v, c0, c', s) && c'.curr[s] == c.curr[s]
  {
    KeptAt(sn, v, c, c', {}, s);
    WorkingStep(sn, v, c0, c, c', s);
  }

  // ----- The whole table between operations -----

  /** Nothing is stale where choices have guarded defaults, */
  lemma GuardedFresh(sn: Snapshot, v: Values, c: Cache)
    requires sn.Solution(v) && forall s :: s in sn.defs && s.Choice? ==> DefaultsGuarded(sn, s)
    ensures AllFresh(sn, v, c)
  {
    forall s | s in sn.defs ensures FreshAt(sn, v, c, s) {
      if s.Choice? && sn.Visibility(s, v) == NO {
        InvisibleChoiceHasNoDefault(sn, s, v, 0);
      }
    }
  }

  /** nor where every symbol stands at n or at its value. */
  lemma StartFresh(sn: Snapshot, v: Values, c: Cache)
    requires sn.Solution(v) && forall s :: s in sn.defs && s in c.curr ==> c.curr[s].tri == NO || c.curr[s] == v[s]
    ensures AllFresh(sn, v, c)
  {
    forall s | s in sn.defs ensures FreshAt(sn, v, c, s) {
      if s.Choice? && sn.Visibility(s, v) == NO {
        InvisibleChoice(sn, v, s);
      }
    }
  }

  lemma NothingCached(sn: Snapshot, v: Values, c: Cache)
    requires sn.Ok() && v.Keys == sn.defs.Keys && c.curr.Keys == c.selected.Keys == c.visible.Keys == sn.defs.Keys
    requires c.valid == c.emitted == {}
    ensures Shape(sn, v, c) && AllCoherent(sn, v, c)
  {
  }

  lemma IsRight(sn: Snapshot, v: Values, c: Cache, s: Symbol)
    requires Shape(sn, v, c) && AllCoherent(sn, v, c) && s in c.valid
    ensures s in sn.defs && s in v && s in c.curr && s in c.visible
    ensures c.curr[s] == v[s] && c.visible[s] == sn.Visibility(s, v)
  {
    var coherent := Coherent(sn, v, c, s);
    assert coherent;
  }

  lemma AllReady(sn: Snapshot, v: Values, c: Cache, k: nat)
    requires Shape(sn, v, c) && AllCoherent(sn, v, c)
    ensures Ready(sn, v, c, k)
  {
    forall s | s in sn.defs
      ensures Settled(sn, v, c, s) && Coherent(sn, v, c, s)
    {
      var coherent := Coherent(sn, v, c, s);
      assert coherent;
    }
  }

  lemma AllKept(sn: Snapshot, v: Values, a: Cache, b: Cache)
    requires Shape(sn, v, a) && Shape(sn, v, b) && Filled(sn, v, a, b, {}) && AllCoherent(sn, v, a)
    ensures AllCoherent(sn, v, b)
  {
    forall s | s in sn.defs
      ensures Coherent(sn, v, b, s)
    {
      KeptAt(sn, v, a, b, {}, s);
      var coherent := Coherent(sn, v, a, s);
      assert coherent;
    }
  }

  /** Valid symbols have the values they had. */
  ghost predicate ValuesStay(a: Cache, b: Cache) {
    forall t :: t in a.valid ==> t in a.curr && t in b.curr && b.curr[t] == a.curr[t]
  }

  lemma ValuesSame(sn: Snapshot, v: Values, a: Cache, b: Cache)
    requires Shape(sn, v, a) && b.curr == a.curr
    ensures ValuesStay(a, b)
  {
  }

  lemma ValuesOn(a: Cache, b: Cache, c: Cache)
    requires ValuesStay(a, b) && c.curr == b.curr
    ensures ValuesStay(a, c)
  {
  }

  lemma ValuesKept(sn: Snapshot, v: Values, a: Cache, b: Cache)
    requires Shape(sn, v, a) && Shape(sn, v, b) && Filled(sn, v, a, b, {})
    ensures ValuesStay(a, b)
  {
    forall t | t in a.valid ensures t in a.curr && t in b.curr && b.curr[t] == a.curr[t] {
      KeptAt(sn, v, a, b, {}, t);
    }
  }

  lemma WritesKept(sn: Snapshot, v: Values, a: Cache, b: Cache)
    requires Shape(sn, v, a) && Shape(sn, v, b) && Filled(sn, v, a, b, {})
    ensures forall t :: t in a.valid && t in sn.defs && sn.defs[t].group.None? ==> (t in b.write <==> t in a.write)
  {
    forall t | t in a.valid && t in sn.defs ensures sn.defs[t].group.None? ==> (t in b.write <==> t in a.write) {
      KeptAt(sn, v, a, b, {}, t);
    }
  }

  /** A valid symbol outside any choice has its write flag unless that has been used up. */
  lemma WriteIsRight(sn: Snapshot, v: Values, c: Cache, s: Symbol)
    requires Shape(sn, v, c) && AllCoherent(sn, v, c) && s in c.valid && s !in c.emitted
    ensures s in sn.defs && (sn.defs[s].group.None? ==> (s in c.write <==> sn.Written(s, v)))
  {
    var coherent := Coherent(sn, v, c, s);
    assert coherent;
  }

  /** Using up a write flag. */
  lemma EmitKeeps(sn: Snapshot, v: Values, c: Cache, s: Symbol)
    requires Shape(sn, v, c) && AllCoherent(sn, v, c) && s in c.valid
    ensures var c' := c.(write := c.write - {s}, emitted := c.emitted + {s});
            Shape(sn, v, c') && AllCoherent(sn, v, c')
  {
    var c' := c.(write := c.write - {s}, emitted := c.emitted + {s});
    forall t | t in sn.defs ensures Coherent(sn, v, c', t) {
      var coherent := Coherent(sn, v, c, t);
      assert coherent;
    }
  }

  /** A cache that is right stays right when the settings change without consequences. */
  lemma AllStillRight(sn: Snapshot, sn': Snapshot, v: Values, c: Cache)
    requires Shape(sn, v, c) && AllCoherent(sn, v, c) && sn'.Ok() && sn'.defs == sn.defs
    requires forall s :: s in sn.defs && s.Choice? && v[s].tri == YES ==> sn'.Selection(s, v) == sn.Selection(s, v)
    ensures Shape(sn', v, c) && AllCoherent(sn', v, c)
  {
    forall s | s in sn.defs
      ensures Coherent(sn', v, c, s)
    {
      var coherent := Coherent(sn, v, c, s);
      assert coherent;
    }
  }
}
