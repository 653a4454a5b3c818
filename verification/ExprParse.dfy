/** The machine accepts exactly the token sequences of the grammar, and parses them as the grammar says. */
module ExprParse {
  import opened Options
  import opened Tristate
  import opened Symbols
  import opened Expressions
  import opened ExprGrammar

  function Pushed(stack: Stack, t: Tree): Stack
    requires WantsOperand(TopState(stack))
  {
    Push(stack, GotoExpr(TopState(stack)), Node(t))
  }

  lemma PushedOk(stack: Stack, t: Tree, next: Token)
    requires Valid(stack) && WantsOperand(TopState(stack)) && Expected(TopState(stack), t) && Ends(t, next)
    ensures Valid(Pushed(stack, t)) && LookOk(Pushed(stack, t), next)
    ensures forall tok :: LookOk(stack, tok)
  {
  }

  /** A name becomes a symbol. */
  lemma RunName(stack: Stack, n: Name, rest: seq<Token>)
    requires Valid(stack) && LookOk(stack, n)
    requires WantsOperand(TopState(stack)) || TopState(stack).AtEqual? || TopState(stack).AtUnequal?
    ensures var s := Push(stack, GotoSymbol(TopState(stack)), Named(n));
            Valid(s) && LookOk(s, Next(rest)) && Run(stack, [n] + rest) == Run(s, rest)
  {
    var q := if n.Word? then AtWord else AtText;
    RunShift(stack, n, q, rest);
    RunReduce(Push(stack, q, Mark(n)), rest);
  }

  lemma RunLeaf(stack: Stack, n: Name, rest: seq<Token>)
    requires Valid(stack) && WantsOperand(TopState(stack)) && Ends(Leaf(n), Next(rest))
    ensures forall tok :: LookOk(stack, tok)
    ensures Valid(Pushed(stack, Leaf(n))) && LookOk(Pushed(stack, Leaf(n)), Next(rest))
    ensures Run(stack, Yield(Leaf(n)) + rest) == Run(Pushed(stack, Leaf(n)), rest)
  {
    PushedOk(stack, Leaf(n), Next(rest));
    RunName(stack, n, rest);
    RunReduce(Push(stack, AtSymbol, Named(n)), rest);
  }

  lemma RunComp(stack: Stack, rel: Rel, l: Name, r: Name, rest: seq<Token>)
    requires Valid(stack) && WantsOperand(TopState(stack)) && Ends(Comp(rel, l, r), Next(rest))
    ensures forall tok :: LookOk(stack, tok)
    ensures Valid(Pushed(stack, Comp(rel, l, r))) && LookOk(Pushed(stack, Comp(rel, l, r)), Next(rest))
    ensures Run(stack, Yield(Comp(rel, l, r)) + rest) == Run(Pushed(stack, Comp(rel, l, r)), rest)
  {
    PushedOk(stack, Comp(rel, l, r), Next(rest));
    CompEnds(stack, rel, l, r, rest);
    CompTokens(rel, l, r, rest);
    hide Run, Valid, Yield, Conjunction, Disjunction, Unary, Follows, ValueOk, ActionFor, Ends, Expected, GotoExpr, Pushed;
    RunName(stack, l, [RelToken(rel)] + ([r] + rest));
    RunRel(Push(stack, AtSymbol, Named(l)), rel, r, rest);
  }

  lemma CompTokens(rel: Rel, l: Name, r: Name, rest: seq<Token>)
    ensures Yield(Comp(rel, l, r)) + rest == [l] + ([RelToken(rel)] + ([r] + rest))
  {
  }

  /** After the left side: the comparison sign and the right side. */
  lemma RunRel(s: Stack, rel: Rel, r: Name, rest: seq<Token>)
    requires Valid(s) && TopState(s).AtSymbol? && LookOk(s, RelToken(rel))
    ensures var q := if rel == Equal then AtEqual else AtUnequal;
            var s' := Push(Push(s, q, Mark(RelToken(rel))), GotoSymbol(q), Named(r));
            Valid(s') && LookOk(s', Next(rest)) && Run(s, [RelToken(rel)] + ([r] + rest)) == Run(s', rest)
  {
    var q := if rel == Equal then AtEqual else AtUnequal;
    hide Run, Conjunction, Disjunction, Unary;
    RunShift(s, RelToken(rel), q, [r] + rest);
    RunName(Push(s, q, Mark(RelToken(rel))), r, rest);
  }

  lemma CompEnds(stack: Stack, rel: Rel, l: Name, r: Name, rest: seq<Token>)
    requires Valid(stack) && WantsOperand(TopState(stack)) && Ends(Comp(rel, l, r), Next(rest))
    ensures var q := if rel == Equal then AtEqual else AtUnequal;
            var s := Push(Push(Push(stack, AtSymbol, Named(l)), q, Mark(RelToken(rel))), GotoSymbol(q), Named(r));
            Valid(s) && LookOk(s, Next(rest)) && LookOk(Pushed(stack, Comp(rel, l, r)), Next(rest)) &&
            Valid(Pushed(stack, Comp(rel, l, r))) && Run(s, rest) == Run(Pushed(stack, Comp(rel, l, r)), rest)
  {
    PushedOk(stack, Comp(rel, l, r), Next(rest));
    var q := if rel == Equal then AtEqual else AtUnequal;
    var s1 := Push(stack, AtSymbol, Named(l));
    var s2 := Push(s1, q, Mark(RelToken(rel)));
    assert Valid(s1) && Valid(s2);
    RunReduce(Push(s2, GotoSymbol(q), Named(r)), rest);
  }

  lemma {:induction false} RunComplete(stack: Stack, t: Tree, rest: seq<Token>)
    requires Valid(stack) && WantsOperand(TopState(stack)) && Expected(TopState(stack), t) && Ends(t, Next(rest))
    ensures LookOk(stack, Next(Yield(t) + rest))
    ensures Valid(Pushed(stack, t)) && LookOk(Pushed(stack, t), Next(rest))
    ensures Run(stack, Yield(t) + rest) == Run(Pushed(stack, t), rest)
    decreases t, 1
  {
    match t
    case Leaf(n) => RunLeaf(stack, n, rest);
    case Comp(rel, l, r) => RunComp(stack, rel, l, r, rest);
    case Paren(x) => RunParen(stack, x, rest);
    case Neg(x) => RunNeg(stack, x, rest);
    case Two(op, l, r) => RunTwo(stack, op, l, r, rest);
  }

  lemma {:induction false} RunNeg(stack: Stack, x: Tree, rest: seq<Token>)
    requires Valid(stack) && WantsOperand(TopState(stack)) && Expected(TopState(stack), Neg(x)) && Ends(Neg(x), Next(rest))
    ensures forall tok :: LookOk(stack, tok)
    ensures Valid(Pushed(stack, Neg(x))) && LookOk(Pushed(stack, Neg(x)), Next(rest))
    ensures Run(stack, Yield(Neg(x)) + rest) == Run(Pushed(stack, Neg(x)), rest)
    decreases Neg(x), 0
  {
    PushedOk(stack, Neg(x), Next(rest));
    NegEnds(stack, x, rest);
    hide Run, Conjunction, Disjunction, Unary;
    assert Yield(Neg(x)) + rest == [Bang] + (Yield(x) + rest);
    RunShift(stack, Bang, AtBang, Yield(x) + rest);
    RunComplete(Push(stack, AtBang, Mark(Bang)), x, rest);
  }

  lemma NegEnds(stack: Stack, x: Tree, rest: seq<Token>)
    requires Valid(stack) && WantsOperand(TopState(stack)) && Expected(TopState(stack), Neg(x)) && Ends(Neg(x), Next(rest))
    ensures var s := Push(stack, AtBang, Mark(Bang));
            Valid(s) && Expected(AtBang, x) && Ends(x, Next(rest)) && Valid(Pushed(s, x)) &&
            LookOk(Pushed(s, x), Next(rest)) && Valid(Pushed(stack, Neg(x))) && LookOk(Pushed(stack, Neg(x)), Next(rest)) &&
            Run(Pushed(s, x), rest) == Run(Pushed(stack, Neg(x)), rest)
  {
    PushedOk(stack, Neg(x), Next(rest));
    OneParts(TopState(stack), Neg(x));
    hide Conjunction, Disjunction, Unary, Run;
    RunReduce(Pushed(Push(stack, AtBang, Mark(Bang)), x), rest);
  }

  lemma OneParts(q: State, t: Tree)
    requires WantsOperand(q) && Expected(q, t) && (t.Neg? || t.Paren?)
    ensures if t.Neg? then Unary(t.operand) && Conjunction(t.operand) else Disjunction(t.inside)
  {
    Levels(t);
    assert Unary(t);
    if t.Neg? {
      Levels(t.operand);
    }
  }

  lemma {:induction false} RunParen(stack: Stack, x: Tree, rest: seq<Token>)
    requires Valid(stack) && WantsOperand(TopState(stack)) && Expected(TopState(stack), Paren(x)) && Ends(Paren(x), Next(rest))
    ensures forall tok :: LookOk(stack, tok)
    ensures Valid(Pushed(stack, Paren(x))) && LookOk(Pushed(stack, Paren(x)), Next(rest))
    ensures Run(stack, Yield(Paren(x)) + rest) == Run(Pushed(stack, Paren(x)), rest)
    decreases Paren(x), 0
  {
    PushedOk(stack, Paren(x), Next(rest));
    OneParts(TopState(stack), Paren(x));
    hide Run, Conjunction, Disjunction, Unary;
    var tail := Yield(x) + ([Close] + rest);
    assert Yield(Paren(x)) + rest == [Open] + tail;
    RunShift(stack, Open, AtOpen, tail);
    var s1 := Push(stack, AtOpen, Mark(Open));
    RunComplete(s1, x, [Close] + rest);
    RunShift(Pushed(s1, x), Close, Closed, rest);
    RunReduce(Push(Pushed(s1, x), Closed, Mark(Close)), rest);
  }

  lemma {:induction false} RunTwo(stack: Stack, op: Op, l: Tree, r: Tree, rest: seq<Token>)
    requires Valid(stack) && WantsOperand(TopState(stack))
    requires Expected(TopState(stack), Two(op, l, r)) && Ends(Two(op, l, r), Next(rest))
    ensures forall tok :: LookOk(stack, tok)
    ensures Valid(Pushed(stack, Two(op, l, r))) && LookOk(Pushed(stack, Two(op, l, r)), Next(rest))
    ensures Run(stack, Yield(Two(op, l, r)) + rest) == Run(Pushed(stack, Two(op, l, r)), rest)
    decreases Two(op, l, r), 0
  {
    PushedOk(stack, Two(op, l, r), Next(rest));
    var tail := [Oper(op)] + (Yield(r) + rest);
    assert Yield(Two(op, l, r)) + rest == Yield(l) + tail;
    TwoParts(TopState(stack), op, l, r);
    assert Next(tail) == Oper(op);
    hide Run, Conjunction, Disjunction, Unary, Valid, Yield, Follows, ValueOk;
    RunComplete(stack, l, tail);
    var s1 := Pushed(stack, l);
    var q := if op == And then AtAnd else AtOr;
    RunShift(s1, Oper(op), q, Yield(r) + rest);
    var s2 := Push(s1, q, Mark(Oper(op)));
    RunComplete(s2, r, rest);
    TwoReduced(stack, op, l, r);
    RunReduce(Pushed(s2, r), rest);
  }

  lemma TwoReduced(stack: Stack, op: Op, l: Tree, r: Tree)
    requires WantsOperand(TopState(stack))
    requires var s := Pushed(Push(Pushed(stack, l), if op == And then AtAnd else AtOr, Mark(Oper(op))), r); Valid(s)
    ensures var s := Pushed(Push(Pushed(stack, l), if op == And then AtAnd else AtOr, Mark(Oper(op))), r);
            Reduces(s.state) && AfterReduce(s) == Pushed(stack, Two(op, l, r))
  {
    hide Valid, Disjunction, Conjunction, Unary;
  }

  lemma TwoParts(q: State, op: Op, l: Tree, r: Tree)
    requires WantsOperand(q) && Expected(q, Two(op, l, r))
    ensures Expected(q, l) && (if op == And then Conjunction(l) && Unary(r) else q.AtStart? || q.AtOpen?)
    ensures Conjunction(r)
    ensures Conjunction(Two(op, l, r)) <==> op == And
  {
    assert Disjunction(Two(op, l, r)) ==> op == And ==> Conjunction(Two(op, l, r));
    Levels(l);
    Levels(r);
  }

  function Parse(tokens: seq<Token>): Option<Tree> {
    Run(Bottom, tokens)
  }

  /** Every tree of the grammar is found. */
  lemma ParseComplete(t: Tree)
    requires Disjunction(t)
    ensures Parse(Yield(t)) == Some(t)
  {
    hide Run, Conjunction, Disjunction, Unary, Yield;
    RunComplete(Bottom, t, []);
    assert Yield(t) + [] == Yield(t);
    AtTheEnd(t);
  }

  lemma AtTheEnd(t: Tree)
    requires Valid(Pushed(Bottom, t)) && LookOk(Pushed(Bottom, t), Next([]))
    ensures Run(Pushed(Bottom, t), []) == Some(t)
  {
    hide Conjunction, Disjunction, Unary;
  }

  lemma ParseSound(tokens: seq<Token>)
    requires EndOfLine !in tokens && Parse(tokens).Some?
    ensures Disjunction(Parse(tokens).value) && Yield(Parse(tokens).value) == tokens
  {
    hide Run, Conjunction, Disjunction, Unary, Yield;
    RunSound(Bottom, tokens);
    assert [] + tokens == tokens;
  }

  /** A line is accepted with tree `t` exactly if `t` is its tree in the grammar; so the tree is unique. */
  lemma ParseIff(tokens: seq<Token>, t: Tree)
    requires EndOfLine !in tokens
    ensures Parse(tokens) == Some(t) <==> Disjunction(t) && Yield(t) == tokens
  {
    if Disjunction(t) && Yield(t) == tokens {
      ParseComplete(t);
    }
    if Parse(tokens).Some? {
      ParseSound(tokens);
    }
    hide Parse, Disjunction, Yield;
  }

  // ----- The parser loop -----

  /** yyval and yyvsp. */
  datatype SemanticValue = TokenValue(tok: Token) | SymbolValue(s: Symbol) | ExprValue(e: Expr)

  function Semantic(v: Value, types: string -> SymbolType): SemanticValue {
    match v
    case Mark(t) => TokenValue(t)
    case Named(n) => SymbolValue(SymbolFor(n, types))
    case Node(t) => ExprValue(ExprOf(t, types))
  }

  function States(stack: Stack): seq<State> {
    if stack.Bottom? then [AtStart] else States(stack.below) + [stack.state]
  }

  function Values(stack: Stack, types: string -> SymbolType): seq<SemanticValue> {
    if stack.Bottom? then [] else Values(stack.below, types) + [Semantic(stack.value, types)]
  }

  lemma StacksMatch(stack: Stack, types: string -> SymbolType)
    ensures |States(stack)| == |Values(stack, types)| + 1 && States(stack)[|States(stack)| - 1] == TopState(stack)
  {
  }

  /** The semantic action of a rule that pops one value. */
  method ReduceOne(v: SemanticValue, types: string -> SymbolType, ghost stack: Stack) returns (x: SemanticValue)
    requires Valid(stack) && stack.Push? && Reduces(stack.state) && !PopsTwo(stack.state) && !PopsThree(stack.state)
    requires v == Semantic(stack.value, types)
    ensures x == Semantic(Reduced(stack), types)
  {
    if v.TokenValue? {
      x := SymbolValue(SymbolFor(v.tok, types));
    } else {
      x := ExprValue(Sym(v.s));
    }
  }

  /** The semantic action of a rule that pops three values. */
  method ReduceThree(q: State, u: SemanticValue, v: SemanticValue, w: SemanticValue, types: string -> SymbolType, ghost stack: Stack)
    returns (x: SemanticValue)
    requires Valid(stack) && stack.Push? && q == stack.state && PopsThree(q)
    requires stack.below.Push? && stack.below.below.Push?
    requires u == Semantic(stack.below.below.value, types)
    requires v == Semantic(stack.below.value, types) && w == Semantic(stack.value, types)
    ensures x == Semantic(Reduced(stack), types)
  {
    Items(stack);
    if q.Closed? {
      x := v;
    } else if q.EqualTo? {
      x := ExprValue(Cmp(Equal, u.s, w.s));
    } else if q.UnequalTo? {
      x := ExprValue(Cmp(Unequal, u.s, w.s));
    } else if q.OrRight? {
      x := ExprValue(Bin(Or, u.e, w.e));
    } else {
      x := ExprValue(Bin(And, u.e, w.e));
    }
  }

  lemma PopThree(stack: Stack, types: string -> SymbolType)
    requires stack.Push? && stack.below.Push? && stack.below.below.Push?
    ensures var base := stack.below.below.below;
            Values(stack, types) == Values(base, types) +
              [Semantic(stack.below.below.value, types), Semantic(stack.below.value, types), Semantic(stack.value, types)] &&
            States(stack) == States(base) + [stack.below.below.state, stack.below.state, stack.state]
  {
    hide Semantic;
    var (s2, s3) := (stack.below, stack.below.below);
    assert Values(s2, types) == Values(s3.below, types) + [Semantic(s3.value, types)] + [Semantic(s2.value, types)];
    assert States(s2) == States(s3.below) + [s3.state] + [s2.state];
  }

  /** The values that the rule for the state on top pops, and what is below. */
  lemma PopAll(stack: Stack, types: string -> SymbolType)
    requires Valid(stack) && stack.Push? && Reduces(stack.state)
    ensures var (values, n, len) := (Values(stack, types), |Values(stack, types)|, PopCount(stack.state));
            n >= len && |States(stack)| == n + 1 && States(stack)[n] == stack.state &&
            values[n - 1] == Semantic(stack.value, types) &&
            (len >= 2 ==> stack.below.Push? && values[n - 2] == Semantic(stack.below.value, types)) &&
            (len >= 3 ==> stack.below.below.Push? && values[n - 3] == Semantic(stack.below.below.value, types)) &&
            values[..n - len] == Values(Popped(stack), types) && States(stack)[..n + 1 - len] == States(Popped(stack))
  {
    StacksMatch(stack, types);
    StacksMatch(Popped(stack), types);
    if PopsThree(stack.state) {
      Items(stack);
      PopThree(stack, types);
      hide Valid, Semantic, Follows, ValueOk, Values, States;
    } else if PopsTwo(stack.state) {
      Items(stack);
      PopTwo(stack, types);
      hide Valid, Semantic, Follows, ValueOk, Values, States;
    } else {
      hide Valid, Semantic, Follows, ValueOk;
    }
  }

  lemma PopTwo(stack: Stack, types: string -> SymbolType)
    requires stack.Push? && stack.below.Push?
    ensures Values(stack, types) ==
              Values(stack.below.below, types) + [Semantic(stack.below.value, types), Semantic(stack.value, types)]
    ensures States(stack) == States(stack.below.below) + [stack.below.state, stack.state]
  {
    hide Semantic;
  }

  function PopCount(q: State): nat {
    if PopsThree(q) then 3 else if PopsTwo(q) then 2 else 1
  }

  method ReduceValue(states: seq<State>, values: seq<SemanticValue>, types: string -> SymbolType, ghost stack: Stack)
    returns (x: SemanticValue)
    requires Valid(stack) && stack.Push? && Reduces(stack.state)
    requires states == States(stack) && values == Values(stack, types)
    ensures x == Semantic(Reduced(stack), types)
  {
    PopAll(stack, types);
    hide States, Values;
    var n := |values|;
    var q := states[n];
    if PopsThree(q) {
      x := ReduceThree(q, values[n - 3], values[n - 2], values[n - 1], types, stack);
    } else if PopsTwo(q) {
      x := ExprValue(Not(values[n - 1].e));
    } else {
      x := ReduceOne(values[n - 1], types, stack);
    }
  }

  lemma SemanticKind(v: Value, types: string -> SymbolType)
    ensures Semantic(v, types).SymbolValue? <==> v.Named?
  {
  }

  /** yyreduce: pop the right-hand side, push the value with the state it leads to. */
  method ReduceStacks(states: seq<State>, values: seq<SemanticValue>, types: string -> SymbolType, ghost stack: Stack)
    returns (states': seq<State>, values': seq<SemanticValue>)
    requires Valid(stack) && stack.Push? && Reduces(stack.state)
    requires states == States(stack) && values == Values(stack, types)
    ensures states' == States(AfterReduce(stack)) && values' == Values(AfterReduce(stack), types)
  {
    var x := ReduceValue(states, values, types, stack);
    PopAll(stack, types);
    var base := Popped(stack);
    StacksMatch(base, types);
    hide Valid, Semantic;
    var n := |values|;
    var len := PopCount(states[n]);
    var below := states[n - len];
    var to := if x.SymbolValue? then GotoSymbol(below) else GotoExpr(below);
    SemanticKind(Reduced(stack), types);
    assert to == AfterReduce(stack).state;
    states', values' := states[..n + 1 - len] + [to], values[..n - len] + [x];
  }

  /** The parser: accepts the lines of the grammar and builds their expressions. */
  method ParseExpr(tokens: seq<Token>, types: string -> SymbolType) returns (r: Option<Expr>)
    requires EndOfLine !in tokens
    ensures forall t :: Disjunction(t) && Yield(t) == tokens ==> r == Some(ExprOf(t, types))
    ensures r.Some? ==> exists t :: Disjunction(t) && Yield(t) == tokens
  {
    var states, values := [AtStart], [];
    var i := 0;
    ghost var stack := Bottom;
    assert Valid(Bottom) && LookOk(Bottom, Next(tokens));
    hide Valid, LookOk, Follows, ValueOk;
    assert tokens[0..] == tokens;
    while true
      invariant i <= |tokens| && Valid(stack) && LookOk(stack, Next(tokens[i..]))
      invariant Run(stack, tokens[i..]) == Parse(tokens)
      invariant states == States(stack) && values == Values(stack, types)
      decreases 4 * (|tokens| - i) + StackWeight(stack)
    {
      StacksMatch(stack, types);
      var next := if i < |tokens| then tokens[i] else EndOfLine;
      var q := states[|states| - 1];
      match ActionFor(q, next)
      case Shift(to) =>
        ShiftKeeps(stack, tokens[i..], to);
        stack := Push(stack, to, Mark(next));
        states, values := states + [to], values + [TokenValue(next)];
        assert tokens[i..][1..] == tokens[i + 1..];
        i := i + 1;
      case Reduce =>
        ReduceKeeps(stack, next);
        states, values := ReduceStacks(states, values, types, stack);
        stack := AfterReduce(stack);
      case Accept =>
        Accepted(tokens, stack, i, types);
        return Some(values[|values| - 1].e);
      case Fail =>
        Refused(tokens);
        return None;
    }
  }

  lemma Accepted(tokens: seq<Token>, stack: Stack, i: nat, types: string -> SymbolType)
    requires EndOfLine !in tokens && i <= |tokens| && Valid(stack) && LookOk(stack, Next(tokens[i..]))
    requires Run(stack, tokens[i..]) == Parse(tokens) && ActionFor(TopState(stack), Next(tokens[i..])) == ActionFor(Started, EndOfLine)
    ensures stack.Push? && stack.value.Node? && |Values(stack, types)| > 0
    ensures Values(stack, types)[|Values(stack, types)| - 1] == ExprValue(ExprOf(stack.value.tree, types))
    ensures Disjunction(stack.value.tree) && Yield(stack.value.tree) == tokens
    ensures forall t :: Disjunction(t) && Yield(t) == tokens ==> t == stack.value.tree
  {
    var x := stack.value.tree;
    ParseIff(tokens, x);
    forall t | Disjunction(t) && Yield(t) == tokens ensures t == x {
      ParseIff(tokens, t);
    }
  }

  lemma Refused(tokens: seq<Token>)
    requires EndOfLine !in tokens && Parse(tokens).None?
    ensures forall t :: Disjunction(t) ==> Yield(t) != tokens
  {
    forall t | Disjunction(t) ensures Yield(t) != tokens {
      ParseIff(tokens, t);
    }
  }
}
