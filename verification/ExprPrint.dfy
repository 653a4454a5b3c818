/** expr_print, and what parsing its output gives back. */
module ExprPrint {
  import opened Options
  import opened Tristate
  import opened Symbols
  import opened Expressions
  import opened ExprGrammar
  import opened ExprParse

  /** enum expr_type, with the token 0 that expr_fprint starts from. */
  datatype NodeType = TypeNone | TypeOr | TypeAnd | TypeNot | TypeEqual | TypeUnequal | TypeChoice | TypeSymbol

  function NodeTypeOf(e: Expr): NodeType {
    match e
    case Sym(_) => TypeSymbol
    case Not(_) => TypeNot
    case Cmp(rel, _, _) => if rel == Equal then TypeEqual else TypeUnequal
    case Bin(op, _, _) => OpType(op)
  }

  function OpType(op: Op): NodeType {
    if op == And then TypeAnd else TypeOr
  }

  /** expr_compare_type: each case of the switch falls through to those below. */
  function CompareType(t1: NodeType, t2: NodeType): int {
    if t1 == t2 then 0
    else match t1
      case TypeEqual | TypeUnequal => if t2.TypeNot? || t2.TypeAnd? || t2.TypeOr? || t2.TypeChoice? || t2.TypeNone? then 1 else -1
      case TypeNot => if t2.TypeAnd? || t2.TypeOr? || t2.TypeChoice? || t2.TypeNone? then 1 else -1
      case TypeAnd => if t2.TypeOr? || t2.TypeChoice? || t2.TypeNone? then 1 else -1
      case TypeOr => if t2.TypeChoice? || t2.TypeNone? then 1 else -1
      case TypeChoice => if t2.TypeNone? then 1 else -1
      case TypeNone | TypeSymbol => -1
  }

  /** No choice: a choice has no name to print. */
  predicate Nameable(e: Expr) {
    match e
    case Sym(s) => !s.Choice?
    case Cmp(_, l, r) => !l.Choice? && !r.Choice?
    case Not(x) => Nameable(x)
    case Bin(_, l, r) => Nameable(l) && Nameable(r)
  }

  /** The printed name; quotes are not printed. */
  function NameToken(s: Symbol): Name
    requires !s.Choice?
  {
    match s
    case ConstYes => Word("y")
    case ConstMod => Word("m")
    case ConstNo => Word("n")
    case Quoted(t) => Word(t)
    case Config(n, _) => Word(n)
  }

  /** expr_print: the tokens passed to `fn`. */
  function Print(e: Expr, prev: NodeType): seq<Token>
    requires Nameable(e)
  {
    var body := match e
      case Sym(s) => [NameToken(s)]
      case Not(x) => [Bang] + Print(x, TypeNot)
      case Cmp(rel, l, r) => [NameToken(l), RelToken(rel), NameToken(r)]
      case Bin(op, l, r) => Print(l, OpType(op)) + [Oper(op)] + Print(r, OpType(op));
    if CompareType(prev, NodeTypeOf(e)) > 0 then [Open] + body + [Close] else body
  }

  /** expr_fprint; a missing expression prints as y. */
  function PrintLine(e: Option<Expr>): seq<Token>
    requires e.Some? ==> Nameable(e.value)
  {
    if e.None? then [Word("y")] else Print(e.value, TypeNone)
  }

  // ----- What is read back -----

  /** `r` appended to the chain `l`. */
  function Chain(op: Op, l: Expr, r: Expr): Expr {
    if IsOp(op, r) then Bin(op, Chain(op, l, r.left), r.right) else Bin(op, l, r)
  }

  /** All chains leaning to the left. */
  function Renest(e: Expr): Expr {
    match e
    case Not(x) => Not(Renest(x))
    case Bin(op, l, r) => Chain(op, Renest(l), Renest(r))
    case _ => e
  }

  predicate LeftNested(e: Expr) {
    match e
    case Not(x) => LeftNested(x)
    case Bin(op, l, r) => LeftNested(l) && LeftNested(r) && !IsOp(op, r)
    case _ => true
  }

  /** Every symbol looked up again by the name it is printed with. */
  function Reread(e: Expr, types: string -> SymbolType): Expr
    requires Nameable(e)
  {
    match e
    case Sym(s) => Sym(SymbolFor(NameToken(s), types))
    case Cmp(rel, l, r) => Cmp(rel, SymbolFor(NameToken(l), types), SymbolFor(NameToken(r), types))
    case Not(x) => Not(Reread(x, types))
    case Bin(op, l, r) => Bin(op, Reread(l, types), Reread(r, types))
  }

  /** A symbol that its name stands for: not a quoted constant, and of the declared type. */
  predicate Plain(s: Symbol, types: string -> SymbolType) {
    match s
    case Config(n, t) => t == types(n) && n != "y" && n != "m" && n != "n"
    case Quoted(_) => false
    case Choice(_, _) => false
    case _ => true
  }

  predicate AllPlain(e: Expr, types: string -> SymbolType) {
    match e
    case Sym(s) => Plain(s, types)
    case Cmp(_, l, r) => Plain(l, types) && Plain(r, types)
    case Not(x) => AllPlain(x, types)
    case Bin(_, l, r) => AllPlain(l, types) && AllPlain(r, types)
  }

  // ----- The tree of the printed tokens -----

  function Graft(op: Op, l: Tree, r: Tree): Tree {
    if r.Two? && r.op == op then Two(op, Graft(op, l, r.left), r.right) else Two(op, l, r)
  }

  function PrintTree(e: Expr, prev: NodeType): Tree
    requires Nameable(e)
  {
    var body := match e
      case Sym(s) => Leaf(NameToken(s))
      case Not(x) => Neg(PrintTree(x, TypeNot))
      case Cmp(rel, l, r) => Comp(rel, NameToken(l), NameToken(r))
      case Bin(op, l, r) => Graft(op, PrintTree(l, OpType(op)), PrintTree(r, OpType(op)));
    if CompareType(prev, NodeTypeOf(e)) > 0 then Paren(body) else body
  }

  lemma {:induction false} GraftYield(op: Op, l: Tree, r: Tree)
    ensures Yield(Graft(op, l, r)) == Yield(l) + [Oper(op)] + Yield(r)
  {
    if r.Two? && r.op == op {
      GraftYield(op, l, r.left);
    }
  }

  lemma {:induction false} PrintTreeYield(e: Expr, prev: NodeType)
    requires Nameable(e)
    ensures Yield(PrintTree(e, prev)) == Print(e, prev)
  {
    match e
    case Sym(_) =>
    case Cmp(_, _, _) =>
    case Not(x) => PrintTreeYield(x, TypeNot);
    case Bin(op, l, r) =>
      PrintTreeYield(l, OpType(op));
      PrintTreeYield(r, OpType(op));
      GraftYield(op, PrintTree(l, OpType(op)), PrintTree(r, OpType(op)));
  }

  lemma {:induction false} GraftLevel(op: Op, l: Tree, r: Tree)
    requires if op == And then Conjunction(l) && Conjunction(r) else Disjunction(l) && Disjunction(r)
    ensures if op == And then Conjunction(Graft(op, l, r)) else Disjunction(Graft(op, l, r))
  {
    if r.Two? && r.op == op {
      GraftLevel(op, l, r.left);
    }
  }

  /** What may stand next to `prev` without parentheses. */
  predicate Level(prev: NodeType, t: Tree) {
    match prev
    case TypeNone | TypeOr => Disjunction(t)
    case TypeAnd => Conjunction(t)
    case _ => Unary(t)
  }

  predicate Context(prev: NodeType) {
    prev.TypeNone? || prev.TypeOr? || prev.TypeAnd? || prev.TypeNot?
  }

  /** A tree that needs no parentheses stands next to `prev`, and one that does gets them. */
  lemma BodyLevel(prev: NodeType, body: Tree, parens: bool)
    requires Context(prev) && Disjunction(body)
    requires parens || Level(prev, body)
    ensures Level(prev, if parens then Paren(body) else body)
  {
    Levels(Paren(body));
  }

  lemma {:induction false} PrintTreeLevel(e: Expr, prev: NodeType)
    requires Nameable(e) && Context(prev)
    ensures Level(prev, PrintTree(e, prev))
  {
    var parens := CompareType(prev, NodeTypeOf(e)) > 0;
    match e
    case Sym(s) =>
      Levels(Leaf(NameToken(s)));
      BodyLevel(prev, Leaf(NameToken(s)), parens);
    case Cmp(rel, l, r) =>
      Levels(Comp(rel, NameToken(l), NameToken(r)));
      BodyLevel(prev, Comp(rel, NameToken(l), NameToken(r)), parens);
    case Not(x) =>
      PrintTreeLevel(x, TypeNot);
      var body := Neg(PrintTree(x, TypeNot));
      Levels(body);
      assert Unary(body);
      BodyLevel(prev, body, parens);
      assert PrintTree(e, prev) == if parens then Paren(body) else body;
    case Bin(op, l, r) =>
      PrintTreeLevel(l, OpType(op));
      PrintTreeLevel(r, OpType(op));
      var body := Graft(op, PrintTree(l, OpType(op)), PrintTree(r, OpType(op)));
      GraftLevel(op, PrintTree(l, OpType(op)), PrintTree(r, OpType(op)));
      Levels(body);
      BodyLevel(prev, body, parens);
      assert PrintTree(e, prev) == if parens then Paren(body) else body;
  }

  /** Parentheses hide no chain of `op` at the right end of the spine. */
  predicate Unwrapped(op: Op, t: Tree, types: string -> SymbolType) {
    IsOp(op, ExprOf(t, types)) ==> t.Two? && t.op == op && Unwrapped(op, t.left, types)
  }

  lemma {:induction false} GraftExpr(op: Op, l: Tree, r: Tree, types: string -> SymbolType)
    requires Unwrapped(op, r, types)
    ensures ExprOf(Graft(op, l, r), types) == Chain(op, ExprOf(l, types), ExprOf(r, types))
    ensures Unwrapped(op, l, types) ==> Unwrapped(op, Graft(op, l, r), types)
  {
    if r.Two? && r.op == op {
      GraftExpr(op, l, r.left, types);
    }
  }

  lemma {:induction false} PrintTreeExpr(e: Expr, prev: NodeType, types: string -> SymbolType)
    requires Nameable(e)
    ensures ExprOf(PrintTree(e, prev), types) == Renest(Reread(e, types))
    ensures prev == TypeAnd ==> Unwrapped(And, PrintTree(e, prev), types)
    ensures prev == TypeOr ==> Unwrapped(Or, PrintTree(e, prev), types)
  {
    match e
    case Sym(_) =>
    case Cmp(_, _, _) =>
    case Not(x) => PrintTreeExpr(x, TypeNot, types);
    case Bin(op, l, r) =>
      PrintTreeExpr(l, OpType(op), types);
      PrintTreeExpr(r, OpType(op), types);
      PrintBinExpr(op, l, r, prev, types);
  }

  lemma PrintBinExpr(op: Op, l: Expr, r: Expr, prev: NodeType, types: string -> SymbolType)
    requires Nameable(Bin(op, l, r))
    requires ExprOf(PrintTree(l, OpType(op)), types) == Renest(Reread(l, types))
    requires ExprOf(PrintTree(r, OpType(op)), types) == Renest(Reread(r, types))
    requires Unwrapped(op, PrintTree(l, OpType(op)), types) && Unwrapped(op, PrintTree(r, OpType(op)), types)
    ensures var e := Bin(op, l, r);
            ExprOf(PrintTree(e, prev), types) == Renest(Reread(e, types)) &&
            (prev == TypeAnd ==> Unwrapped(And, PrintTree(e, prev), types)) &&
            (prev == TypeOr ==> Unwrapped(Or, PrintTree(e, prev), types))
  {
    GraftExpr(op, PrintTree(l, OpType(op)), PrintTree(r, OpType(op)), types);
  }

  // ----- Round trip -----

  /** Parsing what was printed gives the same expression, chains leaning to the left and names looked up again. */
  lemma PrintParse(e: Expr, types: string -> SymbolType) returns (t: Tree)
    requires Nameable(e)
    ensures Disjunction(t) && Yield(t) == PrintLine(Some(e)) && Parse(PrintLine(Some(e))) == Some(t)
    ensures ExprOf(t, types) == Renest(Reread(e, types))
  {
    t := PrintTree(e, TypeNone);
    PrintTreeYield(e, TypeNone);
    PrintTreeLevel(e, TypeNone);
    PrintTreeExpr(e, TypeNone, types);
    NoEndOfLine(e, TypeNone);
    ParseIff(PrintLine(Some(e)), t);
  }

  lemma {:induction false} NoEndOfLine(e: Expr, prev: NodeType)
    requires Nameable(e)
    ensures EndOfLine !in Print(e, prev)
  {
    match e
    case Sym(_) =>
    case Cmp(_, _, _) =>
    case Not(x) => NoEndOfLine(x, TypeNot);
    case Bin(op, l, r) => NoEndOfLine(l, OpType(op)); NoEndOfLine(r, OpType(op));
  }

  /** Leaning chains to the left changes no value. */
  lemma {:induction false} RenestExact(e: Expr, env: Env)
    ensures Eval(Renest(e), env) == Eval(e, env)
  {
    match e
    case Not(x) => RenestExact(x, env);
    case Bin(op, l, r) =>
      RenestExact(l, env);
      RenestExact(r, env);
      ChainExact(op, Renest(l), Renest(r), env);
    case _ =>
  }

  lemma {:induction false} ChainExact(op: Op, l: Expr, r: Expr, env: Env)
    ensures Eval(Chain(op, l, r), env) == Combine(op, Eval(l, env), Eval(r, env))
  {
    if IsOp(op, r) {
      ChainExact(op, l, r.left, env);
    }
  }

  lemma {:induction false} RenestNests(e: Expr)
    ensures LeftNested(Renest(e))
    ensures LeftNested(e) ==> Renest(e) == e
  {
    match e
    case Not(x) => RenestNests(x);
    case Bin(op, l, r) =>
      RenestNests(l);
      RenestNests(r);
      ChainNests(op, Renest(l), Renest(r));
    case _ =>
  }

  lemma {:induction false} ChainNests(op: Op, l: Expr, r: Expr)
    requires LeftNested(l) && LeftNested(r)
    ensures LeftNested(Chain(op, l, r))
  {
    if IsOp(op, r) {
      ChainNests(op, l, r.left);
    }
  }

  lemma {:induction false} RereadIff(e: Expr, types: string -> SymbolType)
    requires Nameable(e)
    ensures Reread(e, types) == e <==> AllPlain(e, types)
    ensures LeftNested(Reread(e, types)) <==> LeftNested(e)
  {
    match e
    case Sym(_) =>
    case Cmp(_, _, _) =>
    case Not(x) => RereadIff(x, types);
    case Bin(_, l, r) => RereadIff(l, types); RereadIff(r, types);
  }

  /** The value survives printing and parsing if no quotes are lost; the tree does exactly if chains lean left too. */
  lemma PrintParseSame(e: Expr, types: string -> SymbolType) returns (t: Tree)
    requires Nameable(e)
    ensures Parse(PrintLine(Some(e))) == Some(t)
    ensures AllPlain(e, types) ==> forall env :: Eval(ExprOf(t, types), env) == Eval(e, env)
    ensures ExprOf(t, types) == e <==> AllPlain(e, types) && LeftNested(e)
  {
    t := PrintParse(e, types);
    RereadIff(e, types);
    RenestNests(Reread(e, types));
    if AllPlain(e, types) {
      forall env ensures Eval(ExprOf(t, types), env) == Eval(e, env) {
        RenestExact(e, env);
      }
    }
  }

  /** A quoted constant loses its quotes: comparing with it becomes comparing with the symbol of that name. */
  lemma QuotesLost(types: string -> SymbolType, env: Env) returns (e: Expr, t: Tree)
    requires types("A") == Str && types("b") == Str && env.text(Config("A", Str)) == "b" && env.text(Config("b", Str)) == ""
    ensures Nameable(e) && Parse(PrintLine(Some(e))) == Some(t)
    ensures Eval(e, env) == YES && Eval(ExprOf(t, types), env) == NO
  {
    e := Cmp(Equal, Config("A", Str), Quoted("b"));
    t := PrintParse(e, types);
    assert "A"[0] != "y"[0] && "A"[0] != "m"[0] && "A"[0] != "n"[0];
    assert "b"[0] != "y"[0] && "b"[0] != "m"[0] && "b"[0] != "n"[0];
  }

  /** A missing condition is printed as y and read back as a condition of the same value. */
  lemma PrintNothing(types: string -> SymbolType, env: Env)
    ensures Parse(PrintLine(None)).Some?
    ensures Eval(ExprOf(Parse(PrintLine(None)).value, types), env) == EvalOpt(None, env)
  {
    ParseIff([Word("y")], Leaf(Word("y")));
  }

  // ----- No more parentheses than needed -----

  /** Without any pair of its parentheses the tree would be read differently, or not at all. */
  predicate Lean(prev: NodeType, t: Tree)
    decreases t
  {
    match t
    case Leaf(_) => true
    case Comp(_, _, _) => true
    case Neg(x) => Lean(TypeNot, x)
    case Two(op, l, r) => Lean(OpType(op), l) && Lean(OpType(op), r)
    case Paren(x) => !Level(prev, x) && Lean(TypeNone, x)
  }

  lemma {:induction false} GraftLean(op: Op, l: Tree, r: Tree)
    requires Lean(OpType(op), l) && Lean(OpType(op), r)
    ensures Lean(OpType(op), Graft(op, l, r))
  {
    if r.Two? && r.op == op {
      GraftLean(op, l, r.left);
    }
  }

  lemma {:induction false} PrintTreeLean(e: Expr, prev: NodeType)
    requires Nameable(e) && Context(prev)
    ensures Lean(prev, PrintTree(e, prev))
  {
    match e
    case Sym(_) =>
    case Cmp(_, _, _) =>
    case Not(x) => PrintTreeLean(x, TypeNot);
    case Bin(op, l, r) =>
      PrintTreeLean(l, OpType(op));
      PrintTreeLean(r, OpType(op));
      GraftLean(op, PrintTree(l, OpType(op)), PrintTree(r, OpType(op)));
      assert Graft(op, PrintTree(l, OpType(op)), PrintTree(r, OpType(op))).Two?;
  }

  /** What is printed has no parentheses that could be left out. */
  lemma PrintLean(e: Expr)
    requires Nameable(e)
    ensures Parse(PrintLine(Some(e))).Some? && Lean(TypeNone, Parse(PrintLine(Some(e))).value)
  {
    PrintTreeYield(e, TypeNone);
    PrintTreeLevel(e, TypeNone);
    PrintTreeLean(e, TypeNone);
    NoEndOfLine(e, TypeNone);
    ParseIff(PrintLine(Some(e)), PrintTree(e, TypeNone));
  }
}
