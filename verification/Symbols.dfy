/** Symbols as the expression code sees them: identity, type, and the constant flag. */
module Symbols {
  import opened Tristate

  datatype SymbolType = Unknown | Boolean | ThreeState | Int | Hex | Str

  /**
   * Identity of a symbol.  sym_lookup hands out one object per (name, quoted) pair and one
   * object each for y, m and n; choices have no name and are told apart by `id`.
   */
  datatype RawSymbol =
    | ConstYes
    | ConstMod
    | ConstNo
    | Quoted(text: string)
    | Config(name: string, stype: SymbolType)
    | Choice(id: nat, ctype: SymbolType)

  /** sym_lookup never creates a quoted symbol for y, m or n: it answers with the fixed one. */
  type Symbol = s: RawSymbol | s.Quoted? ==> s.text != "y" && s.text != "m" && s.text != "n"
    witness ConstYes

  function TypeOf(s: Symbol): SymbolType {
    match s
    case Config(_, t) => t
    case Choice(_, t) => t
    case _ => Unknown
  }

  /** Some SYMBOL_CONST bit is set. */
  predicate IsConst(s: Symbol) {
    s.ConstYes? || s.ConstMod? || s.ConstNo? || s.Quoted?
  }

  /** SYMBOL_YES or SYMBOL_NO is set: the fixed y and n, and every quoted constant. */
  predicate HasYesOrNoFlag(s: Symbol) {
    s.ConstYes? || s.ConstNo? || s.Quoted?
  }

  /** The values of the configurable symbols at one moment. */
  datatype Env = Env(tri: Symbol -> Tri, text: Symbol -> string)

  function ValueOf(s: Symbol, env: Env): Tri {
    match s
    case ConstYes => YES
    case ConstMod => MOD
    case ConstNo => NO
    case Quoted(_) => NO
    case _ => env.tri(s)
  }

  /** sym_get_string_value: the letter of the value for boolean and tristate symbols. */
  function TextOf(s: Symbol, env: Env): string {
    match s
    case ConstYes => "y"
    case ConstMod => "m"
    case ConstNo => "n"
    case Quoted(t) => t
    case _ =>
      if TypeOf(s) == Boolean || TypeOf(s) == ThreeState then Letter(env.tri(s)) else env.text(s)
  }

  /** What sym_calc_value establishes for every boolean symbol. */
  ghost predicate BooleansDefinite(env: Env) {
    forall s: Symbol :: TypeOf(s) == Boolean ==> env.tri(s) != MOD
  }

  /** Comparing a boolean or tristate symbol with y, m or n tests its value. */
  lemma CmpTestsValue(s: Symbol, env: Env)
    requires TypeOf(s) == Boolean || TypeOf(s) == ThreeState
    ensures TextOf(s, env) == TextOf(ConstYes, env) <==> ValueOf(s, env) == YES
    ensures TextOf(s, env) == TextOf(ConstMod, env) <==> ValueOf(s, env) == MOD
    ensures TextOf(s, env) == TextOf(ConstNo, env) <==> ValueOf(s, env) == NO
  {
    LetterInjective(ValueOf(s, env), YES);
    LetterInjective(ValueOf(s, env), MOD);
    LetterInjective(ValueOf(s, env), NO);
  }
}
