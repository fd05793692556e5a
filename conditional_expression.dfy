/** `if` as an expression: the local `max` of the demo. */
module ConditionalExpression {
  import opened Ints

  /** The local `max`: the larger argument, and `b`
      when they are equal since the comparison is strict. */
  function Max(a: Int32, b: Int32): (r: Int32)
    ensures r >= a && r >= b
    ensures r == a || r == b
  {
    if a > b then a else b
  }

  lemma MaxCommutes(a: Int32, b: Int32)
    ensures Max(a, b) == Max(b, a)
  {
  }

  /** `max(99, -42)`. */
  lemma Demo()
    ensures Max(99, -42) == 99
  {
  }
}
