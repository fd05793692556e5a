/** Higher-order functions: one that takes a function, one that returns one. */
module HigherOrderFunctions {
  import opened Ints

  /** `calculate(x, y, operation)` applies `operation` to `x` and `y`. */
  function Calculate(x: Int32, y: Int32, operation: (Int32, Int32) -> Int32): (r: Int32)
    ensures r == operation(x, y)
  {
    operation(x, y)
  }

  /** `square(x) = x * x` in `Int` arithmetic: exact, and so non-negative,
      while the product fits in an `Int`. */
  function Square(x: Int32): (r: Int32)
    ensures -46340 <= x <= 46340 ==> r as int == x as int * x as int && r >= 0
  {
    SquareFits(x as int);
    Mul(x, x)
  }

  lemma SquareFits(x: int)
    ensures -46340 <= x <= 46340 ==> 0 <= x * x <= MAX
  {
    if -46340 <= x <= 46340 {
      SquareFitsInRange(x);
    }
  }

  lemma SquareFitsInRange(x: int)
    requires -46340 <= x <= 46340
    ensures 0 <= x * x <= MAX
  {
    var a: nat := if x < 0 then -x else x;
    assert x * x == a * a;
    MulMonotone(a, 46340, a);
    MulMonotone(a, 46340, 46340);
  }

  lemma {:induction false} MulMonotone(a: nat, b: nat, c: nat)
    requires a <= b
    ensures a * c <= b * c
  {
    if c > 0 {
      MulMonotone(a, b, c - 1);
      assert a * c == a * (c - 1) + a;
      assert b * c == b * (c - 1) + b;
    }
  }

  /** `square(-x) == square(x)` for every `Int`, `Int.MIN_VALUE` included. */
  lemma SquareEven(x: Int32)
    ensures Square(Neg(x)) == Square(x)
  {
    if x as int == MIN {
      assert Neg(x) == x;
    } else {
      assert Neg(x) as int == -(x as int);
      assert (-(x as int)) * (-(x as int)) == x as int * x as int;
    }
  }

  /** `operation()` returns `::square`. */
  function Operation(): (f: Int32 -> Int32)
    ensures forall x :: f(x) == Square(x)
  {
    Square
  }

  /** `calculate(4, 5) { a, b -> a * b }` and `operation()(2)`. */
  lemma Demo()
    ensures Calculate(4, 5, (a, b) => Mul(a, b)) == 20
    ensures Operation()(2) == 4
    ensures forall x :: Operation()(x) == Square(x)
  {
  }
}
