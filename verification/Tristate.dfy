/** The three-valued logic of config/expr.h: n < m < y. */
module Tristate {

  type Tri = n: int | 0 <= n <= 2

  const NO: Tri := 0
  const MOD: Tri := 1
  const YES: Tri := 2

  /** The two associative connectives, E_AND and E_OR. */
  datatype Op = And | Or

  function Combine(op: Op, a: Tri, b: Tri): Tri {
    match op
    case And => if a < b then a else b
    case Or => if a > b then a else b
  }

  function Negate(a: Tri): Tri {
    2 - a
  }

  /** The neutral element of a connective. */
  function Unit(op: Op): Tri {
    if op == And then YES else NO
  }

  function Dual(op: Op): Op {
    if op == And then Or else And
  }

  /** `v'` carries at least the information of `v`: only m may have been decided. */
  predicate Refines(v': Tri, v: Tri) {
    v == MOD || v' == v
  }

  function Truth(b: bool): Tri {
    if b then YES else NO
  }

  /** The text sym_get_string_value shows for a value. */
  function Letter(v: Tri): string {
    if v == NO then "n" else if v == MOD then "m" else "y"
  }

  lemma LetterInjective(v: Tri, w: Tri)
    ensures Letter(v) == Letter(w) <==> v == w
  {
    assert Letter(v)[0] == Letter(w)[0] ==> v == w;
  }
}
