/**
 * Parsing of expressions: the shift-reduce machine of zconf.tab.c, restricted to the states that
 * work on an expression, against the grammar with its precedences.
 */
module ExprGrammar {
  import opened Options
  import opened Tristate
  import opened Symbols
  import opened Expressions

  datatype Token = Word(name: string) | Text(text: string) | Unequals | Equals | Open | Close | Bang | Oper(op: Op) | EndOfLine

  /** T_WORD and T_STRING, which name symbols. */
  type Name = t: Token | t.Word? || t.Text? witness Word("")

  /** What sym_lookup returns for a name; `types` are the types of the symbols known by name. */
  function SymbolFor(t: Name, types: string -> SymbolType): Symbol {
    var n := if t.Word? then t.name else t.text;
    if n == "y" then ConstYes
    else if n == "m" then ConstMod
    else if n == "n" then ConstNo
    else if t.Word? then Config(n, types(n))
    else Quoted(n)
  }

  /** Words and quoted texts stand for different symbols unless they are y, m or n; a quoted text has itself as text. */
  lemma SymbolForDistinct(a: Name, b: Name, types: string -> SymbolType, env: Env)
    ensures SymbolFor(a, types) == SymbolFor(b, types) <==>
              a == b || (a.Word? && b.Text? && a.name == b.text && a.name in {"y", "m", "n"}) ||
              (a.Text? && b.Word? && a.text == b.name && b.name in {"y", "m", "n"})
    ensures a.Text? ==> TextOf(SymbolFor(a, types), env) == a.text
  {
    var (y, m, n) := ("y", "m", "n");
    assert y[0] != m[0] && m[0] != n[0] && y[0] != n[0];
  }

  // ----- The grammar -----

  /** A concrete expression, parentheses included. */
  datatype Tree =
    | Leaf(name: Name)
    | Comp(rel: Rel, lhs: Name, rhs: Name)
    | Paren(inside: Tree)
    | Neg(operand: Tree)
    | Two(op: Op, left: Tree, right: Tree)

  /** NOT binds tighter than AND, AND tighter than OR, and chains lean to the left. */
  predicate Unary(t: Tree)
    decreases t, 0
  {
    match t
    case Leaf(_) => true
    case Comp(_, _, _) => true
    case Paren(x) => Disjunction(x)
    case Neg(x) => Unary(x)
    case Two(_, _, _) => false
  }

  predicate Conjunction(t: Tree)
    decreases t, 1
  {
    if t.Two? then t.op == And && Conjunction(t.left) && Unary(t.right) else Unary(t)
  }

  predicate Disjunction(t: Tree)
    decreases t, 2
  {
    if t.Two? && t.op == Or then Disjunction(t.left) && Conjunction(t.right) else Conjunction(t)
  }

  function RelToken(rel: Rel): Token {
    if rel == Equal then Equals else Unequals
  }

  /** The tokens of a tree. */
  function Yield(t: Tree): (r: seq<Token>)
    ensures |r| >= 1
  {
    match t
    case Leaf(n) => [n]
    case Comp(rel, l, r) => [l, RelToken(rel), r]
    case Paren(x) => [Open] + Yield(x) + [Close]
    case Neg(x) => [Bang] + Yield(x)
    case Two(op, l, r) => Yield(l) + [Oper(op)] + Yield(r)
  }

  /** The semantic actions: parentheses leave no trace. */
  function ExprOf(t: Tree, types: string -> SymbolType): Expr {
    match t
    case Leaf(n) => Sym(SymbolFor(n, types))
    case Comp(rel, l, r) => Cmp(rel, SymbolFor(l, types), SymbolFor(r, types))
    case Paren(x) => ExprOf(x, types)
    case Neg(x) => Not(ExprOf(x, types))
    case Two(op, l, r) => Bin(op, ExprOf(l, types), ExprOf(r, types))
  }

  // ----- The machine -----

  /** The states, with their numbers in the tables. */
  datatype State =
    | AtStart      // 12, 85, 86, 117, 138, 141: an expression comes next
    | Started      // 45, 118, 119, 137, 143, 144: an expression has been read
    | AtWord       // 41
    | AtText       // 42
    | AtOpen       // 43
    | AtBang       // 44
    | AtSymbol     // 46
    | InParen      // 56
    | Negated      // 57
    | AtOr         // 58
    | AtAnd        // 59
    | AtUnequal    // 60
    | AtEqual      // 61
    | Closed       // 79
    | OrRight      // 80
    | AndRight     // 81
    | UnequalTo    // 82
    | EqualTo      // 83

  /** Reductions carry no rule number: the state on top determines the rule. */
  datatype Action = Shift(to: State) | Reduce | Accept | Fail

  predicate WantsOperand(q: State) {
    q.AtStart? || q.AtOpen? || q.AtBang? || q.AtOr? || q.AtAnd?
  }

  function ActionFor(q: State, t: Token): Action {
    match q
    case AtStart | AtOpen | AtBang | AtOr | AtAnd =>
      if t.Word? then Shift(AtWord) else if t.Text? then Shift(AtText)
      else if t.Open? then Shift(AtOpen) else if t.Bang? then Shift(AtBang) else Fail
    case AtUnequal | AtEqual => if t.Word? then Shift(AtWord) else if t.Text? then Shift(AtText) else Fail
    case AtSymbol => if t.Unequals? then Shift(AtUnequal) else if t.Equals? then Shift(AtEqual) else Reduce
    case InParen =>
      if t.Close? then Shift(Closed) else if t == Oper(Or) then Shift(AtOr) else if t == Oper(And) then Shift(AtAnd) else Fail
    case Started =>
      if t == Oper(Or) then Shift(AtOr) else if t == Oper(And) then Shift(AtAnd)
      else if t.EndOfLine? then Accept else Fail
    case OrRight => if t == Oper(And) then Shift(AtAnd) else Reduce
    case _ => Reduce
  }

  function GotoExpr(q: State): State
    requires WantsOperand(q)
  {
    match q
    case AtStart => Started
    case AtOpen => InParen
    case AtBang => Negated
    case AtOr => OrRight
    case AtAnd => AndRight
  }

  function GotoSymbol(q: State): State {
    if q.AtEqual? then EqualTo else if q.AtUnequal? then UnequalTo else AtSymbol
  }

  /** A value on the stack: a token, a symbol, or an expression. */
  datatype Value = Mark(tok: Token) | Named(name: Name) | Node(tree: Tree)

  /** The state stack and the value stack, kept together. */
  datatype Stack = Bottom | Push(below: Stack, state: State, value: Value)

  function TopState(stack: Stack): State {
    if stack.Push? then stack.state else AtStart
  }

  /** State `q` may lie on top of state `p`. */
  predicate Follows(p: State, q: State) {
    match q
    case AtStart => false
    case Started => p.AtStart?
    case AtWord | AtText => WantsOperand(p) || p.AtEqual? || p.AtUnequal?
    case AtOpen | AtBang | AtSymbol => WantsOperand(p)
    case InParen => p.AtOpen?
    case Negated => p.AtBang?
    case AtOr => p.Started? || p.InParen?
    case AtAnd => p.Started? || p.InParen? || p.OrRight?
    case AtUnequal | AtEqual => p.AtSymbol?
    case Closed => p.InParen?
    case OrRight => p.AtOr?
    case AndRight => p.AtAnd?
    case UnequalTo => p.AtUnequal?
    case EqualTo => p.AtEqual?
  }

  predicate ValueOk(q: State, v: Value) {
    match q
    case AtStart => false
    case Started | InParen => v.Node? && Disjunction(v.tree)
    case OrRight => v.Node? && Conjunction(v.tree)
    case Negated | AndRight => v.Node? && Unary(v.tree)
    case AtWord => v.Mark? && v.tok.Word?
    case AtText => v.Mark? && v.tok.Text?
    case AtSymbol | EqualTo | UnequalTo => v.Named?
    case AtOpen => v == Mark(Open)
    case AtBang => v == Mark(Bang)
    case AtOr => v == Mark(Oper(Or))
    case AtAnd => v == Mark(Oper(And))
    case AtEqual => v == Mark(Equals)
    case AtUnequal => v == Mark(Unequals)
    case Closed => v == Mark(Close)
  }

  predicate IsConjunction(stack: Stack) {
    stack.Push? && stack.value.Node? && Conjunction(stack.value.tree)
  }

  /** The invariant of the stacks; only a conjunction is to the left of AND. */
  predicate Valid(stack: Stack) {
    stack.Push? ==>
      Valid(stack.below) && Follows(TopState(stack.below), stack.state) && ValueOk(stack.state, stack.value) &&
      (stack.state.AtAnd? ==> IsConjunction(stack.below))
  }

  lemma Items(stack: Stack)
    requires Valid(stack) && stack.Push? && (PopsTwo(stack.state) || PopsThree(stack.state))
    ensures stack.below.Push? && Valid(stack.below) && Valid(stack.below.below)
    ensures Follows(stack.below.state, stack.state) && ValueOk(stack.below.state, stack.below.value)
    ensures Follows(TopState(stack.below.below), stack.below.state)
    ensures PopsThree(stack.state) ==>
              var s := stack.below.below;
              s.Push? && ValueOk(s.state, s.value) && Valid(s.below) && Follows(TopState(s.below), s.state) &&
              (stack.state.AndRight? ==> IsConjunction(s))
  {
    assert Valid(stack.below);
    assert stack.below.Push?;
    assert Valid(stack.below.below);
  }

  predicate Reduces(q: State) {
    match q
    case AtWord | AtText | AtSymbol | EqualTo | UnequalTo | Closed | Negated | OrRight | AndRight => true
    case _ => false
  }

  predicate PopsTwo(q: State) {
    q.Negated?
  }

  predicate PopsThree(q: State) {
    q.EqualTo? || q.UnequalTo? || q.Closed? || q.OrRight? || q.AndRight?
  }

  /** What lies below the items that the rule for the state on top pops. */
  function Popped(stack: Stack): (base: Stack)
    requires Valid(stack) && stack.Push? && Reduces(stack.state)
    ensures Valid(base)
    ensures WantsOperand(TopState(base)) ||
            ((stack.state.AtWord? || stack.state.AtText?) && (TopState(base).AtEqual? || TopState(base).AtUnequal?))
  {
    if PopsThree(stack.state) then
      Items(stack);
      stack.below.below.below
    else if PopsTwo(stack.state) then
      Items(stack);
      stack.below.below
    else stack.below
  }

  /** What the rule makes of the values it pops. */
  function Reduced(stack: Stack): Value
    requires Valid(stack) && stack.Push? && Reduces(stack.state)
  {
    match stack.state
    case AtWord | AtText => Named(stack.value.tok)
    case AtSymbol => Node(Leaf(stack.value.name))
    case EqualTo => Items(stack); Node(Comp(Equal, stack.below.below.value.name, stack.value.name))
    case UnequalTo => Items(stack); Node(Comp(Unequal, stack.below.below.value.name, stack.value.name))
    case Closed => Items(stack); Node(Paren(stack.below.value.tree))
    case Negated => Node(Neg(stack.value.tree))
    case OrRight => Items(stack); Node(Two(Or, stack.below.below.value.tree, stack.value.tree))
    case AndRight => Items(stack); Node(Two(And, stack.below.below.value.tree, stack.value.tree))
  }

  /** The stack after the reduction. */
  function AfterReduce(stack: Stack): Stack
    requires Valid(stack) && stack.Push? && Reduces(stack.state)
  {
    var base := Popped(stack);
    var value := Reduced(stack);
    Push(base, if value.Named? then GotoSymbol(TopState(base)) else GotoExpr(TopState(base)), value)
  }

  /** Each reduction makes the stack lighter, and a shifted token weighs less than one to come. */
  function StackWeight(stack: Stack): nat {
    if stack.Bottom? then 0
    else
      var q := stack.state;
      StackWeight(stack.below) +
      if q.AtWord? || q.AtText? then 3 else if q.AtSymbol? || q.EqualTo? || q.UnequalTo? then 2 else 1
  }

  function ValueTokens(v: Value): seq<Token> {
    match v
    case Mark(t) => [t]
    case Named(t) => [t]
    case Node(t) => Yield(t)
  }

  /** The tokens read so far. */
  function ReadSoFar(stack: Stack): seq<Token> {
    if stack.Bottom? then [] else ReadSoFar(stack.below) + ValueTokens(stack.value)
  }

  /** After a disjunction on top of the stack the next token is not AND: it would have been shifted first. */
  predicate LookOk(stack: Stack, next: Token) {
    next == Oper(And) && stack.Push? && stack.value.Node? ==> Conjunction(stack.value.tree)
  }

  lemma Levels(t: Tree)
    ensures Unary(t) ==> Conjunction(t)
    ensures Conjunction(t) ==> Disjunction(t)
  {
  }

  /** The value a rule makes is one that the state it leads to can hold. */
  lemma ReducedOk(stack: Stack)
    requires Valid(stack) && stack.Push? && Reduces(stack.state)
    ensures var r := AfterReduce(stack); Follows(TopState(r.below), r.state) && ValueOk(r.state, r.value)
    ensures var r := AfterReduce(stack); !r.state.AtAnd? && Valid(r.below)
    ensures var r := AfterReduce(stack); r.value.Node? && !stack.state.OrRight? ==> Conjunction(r.value.tree)
  {
    hide *;
    ReducedFits(stack);
    ReducedRest(stack);
  }

  lemma ReducedFits(stack: Stack)
    requires Valid(stack) && stack.Push? && Reduces(stack.state)
    ensures var r := AfterReduce(stack); Follows(TopState(r.below), r.state) && ValueOk(r.state, r.value)
  {
    ReducedTree(stack);
    hide Disjunction, Conjunction, Unary, Valid, Reduced;
    if PopsTwo(stack.state) || PopsThree(stack.state) {
      Items(stack);
    }
    if Reduced(stack).Node? {
      Levels(Reduced(stack).tree);
    }
  }

  lemma ReducedRest(stack: Stack)
    requires Valid(stack) && stack.Push? && Reduces(stack.state)
    ensures var r := AfterReduce(stack); !r.state.AtAnd? && Valid(r.below)
    ensures var r := AfterReduce(stack); r.value.Node? && !stack.state.OrRight? ==> Conjunction(r.value.tree)
  {
    ReducedTree(stack);
    hide Disjunction, Conjunction, Unary, Valid, Reduced;
    if PopsTwo(stack.state) || PopsThree(stack.state) {
      Items(stack);
    }
    if Reduced(stack).Node? {
      Levels(Reduced(stack).tree);
    }
  }

  lemma ReducedTree(stack: Stack)
    requires Valid(stack) && stack.Push? && Reduces(stack.state)
    ensures if stack.state.AtWord? || stack.state.AtText? then Reduced(stack).Named? else
              Reduced(stack).Node? &&
              var t := Reduced(stack).tree;
              if stack.state.OrRight? then Disjunction(t)
              else if stack.state.AndRight? then Conjunction(t)
              else Unary(t)
  {
    if PopsTwo(stack.state) || PopsThree(stack.state) {
      Items(stack);
    }
  }

  lemma ReduceLighter(stack: Stack)
    requires Valid(stack) && stack.Push? && Reduces(stack.state)
    ensures StackWeight(AfterReduce(stack)) < StackWeight(stack)
  {
    hide Valid, Disjunction, Conjunction, Unary, ValueOk;
    if PopsThree(stack.state) {
      Items(stack);
      assert StackWeight(stack.below.below) > StackWeight(Popped(stack));
    } else if PopsTwo(stack.state) {
      Items(stack);
    }
  }

  lemma ThreeValues(stack: Stack)
    requires Valid(stack) && stack.Push? && PopsThree(stack.state)
    ensures stack.below.Push? && stack.below.below.Push?
    ensures ReadSoFar(stack) == ReadSoFar(stack.below.below.below) +
              (ValueTokens(stack.below.below.value) + ValueTokens(stack.below.value) + ValueTokens(stack.value))
  {
    hide Valid, Disjunction, Conjunction, Unary, ValueOk, ValueTokens;
    Items(stack);
    assert ReadSoFar(stack.below) == ReadSoFar(stack.below.below) + ValueTokens(stack.below.value);
  }

  lemma ReducedYield(stack: Stack)
    requires Valid(stack) && stack.Push? && PopsThree(stack.state)
    ensures stack.below.Push? && stack.below.below.Push?
    ensures ValueTokens(Reduced(stack)) ==
              ValueTokens(stack.below.below.value) + ValueTokens(stack.below.value) + ValueTokens(stack.value)
  {
    Items(stack);
    assert ValueOk(stack.state, stack.value);
    hide Valid, Disjunction, Conjunction, Unary;
    var (i, j, k) := (stack.below.below.value, stack.below.value, stack.value);
    if stack.state.Closed? {
      assert ValueTokens(i) == [Open] && ValueTokens(k) == [Close];
    } else {
      assert ValueTokens(j) == [j.tok];
    }
  }

  lemma ReduceTokens(stack: Stack)
    requires Valid(stack) && stack.Push? && Reduces(stack.state)
    ensures ReadSoFar(AfterReduce(stack)) == ReadSoFar(stack)
  {
    if PopsThree(stack.state) {
      ThreeValues(stack);
      ReducedYield(stack);
      hide Valid, Reduced, ValueTokens, Follows, ValueOk, Conjunction, Disjunction, Unary, GotoExpr, GotoSymbol, TopState, Reduces;
    } else if PopsTwo(stack.state) {
      Items(stack);
      assert ValueOk(stack.state, stack.value);
      hide Valid, Disjunction, Conjunction, Unary;
      assert ReadSoFar(stack) == ReadSoFar(stack.below.below) + (ValueTokens(stack.below.value) + ValueTokens(stack.value));
    } else {
      assert ValueOk(stack.state, stack.value);
      hide Valid, Disjunction, Conjunction, Unary;
    }
  }

  lemma ReduceKeeps(stack: Stack, next: Token)
    requires Valid(stack) && stack.Push? && LookOk(stack, next) && ActionFor(stack.state, next) == Reduce
    ensures Reduces(stack.state)
    ensures var r := AfterReduce(stack);
            Valid(r) && LookOk(r, next) && ReadSoFar(r) == ReadSoFar(stack) && StackWeight(r) < StackWeight(stack)
  {
    ReducedOk(stack);
    ReduceLighter(stack);
    ReduceTokens(stack);
  }

  // ----- Running the machine -----

  function Next(rest: seq<Token>): Token {
    if rest == [] then EndOfLine else rest[0]
  }

  lemma ShiftKeeps(stack: Stack, rest: seq<Token>, q: State)
    requires Valid(stack) && LookOk(stack, Next(rest)) && ActionFor(TopState(stack), Next(rest)) == Shift(q)
    ensures rest != [] && Valid(Push(stack, q, Mark(rest[0])))
  {
  }

  /** The tree of `rest` when `stack` has been read before it, if the machine accepts. */
  function Run(stack: Stack, rest: seq<Token>): Option<Tree>
    requires Valid(stack) && LookOk(stack, Next(rest))
    decreases 4 * |rest| + StackWeight(stack)
  {
    match ActionFor(TopState(stack), Next(rest))
    case Shift(q) =>
      ShiftKeeps(stack, rest, q);
      Run(Push(stack, q, Mark(rest[0])), rest[1..])
    case Reduce =>
      ReduceKeeps(stack, Next(rest));
      Run(AfterReduce(stack), rest)
    case Accept => Some(stack.value.tree)
    case Fail => None
  }

  lemma {:induction false} RunSound(stack: Stack, rest: seq<Token>)
    requires Valid(stack) && LookOk(stack, Next(rest)) && Run(stack, rest).Some? && EndOfLine !in rest
    ensures var t := Run(stack, rest).value; Disjunction(t) && Yield(t) == ReadSoFar(stack) + rest
    decreases 4 * |rest| + StackWeight(stack)
  {
    match ActionFor(TopState(stack), Next(rest))
    case Shift(q) =>
      ShiftKeeps(stack, rest, q);
      RunSound(Push(stack, q, Mark(rest[0])), rest[1..]);
      assert ReadSoFar(stack) + [rest[0]] + rest[1..] == ReadSoFar(stack) + rest;
    case Reduce =>
      ReduceKeeps(stack, Next(rest));
      RunSound(AfterReduce(stack), rest);
    case Accept =>
      assert stack.below.Bottom?;
    case Fail =>
  }

  /** A tree of the level that state `q` expects. */
  predicate Expected(q: State, t: Tree)
    requires WantsOperand(q)
  {
    match q
    case AtStart | AtOpen => Disjunction(t)
    case AtOr => Conjunction(t)
    case AtBang | AtAnd => Unary(t)
  }

  /** `next` cannot continue `t`. */
  predicate Ends(t: Tree, next: Token) {
    !next.Equals? && !next.Unequals? && (next == Oper(And) ==> Conjunction(t))
  }

  lemma RunShift(stack: Stack, tok: Token, q: State, rest: seq<Token>)
    requires Valid(stack) && LookOk(stack, tok) && ActionFor(TopState(stack), tok) == Shift(q)
    ensures Valid(Push(stack, q, Mark(tok)))
    ensures Run(stack, [tok] + rest) == Run(Push(stack, q, Mark(tok)), rest)
  {
    ShiftKeeps(stack, [tok] + rest, q);
    assert ([tok] + rest)[1..] == rest;
  }

  lemma RunReduce(stack: Stack, rest: seq<Token>)
    requires Valid(stack) && stack.Push? && LookOk(stack, Next(rest)) && ActionFor(stack.state, Next(rest)) == Reduce
    ensures Reduces(stack.state) && Valid(AfterReduce(stack)) && LookOk(AfterReduce(stack), Next(rest))
    ensures Run(stack, rest) == Run(AfterReduce(stack), rest)
  {
    ReduceKeeps(stack, Next(rest));
  }
}
