/** `when` over a value of type `Any`: branches are tried in order and the
    first match wins. */
module When {
  import opened Ints

  /** The values the demo passes as `Any`. An `Int` and a `Long` are
      different types, so `IntV(1)` and `LongV(1)` are different values. */
  datatype Any =
    | IntV(i: Int32)
    | LongV(l: Int64)
    | StrV(s: string)
    | DoubleV
    | BoolV(b: bool)
    | MyClassV

  /** The label the `when` statement of `cases` prints. */
  function Cases(obj: Any): (line: string)
    ensures line == "One" <==> obj == IntV(1)
    ensures line == "Greeting" <==> obj == StrV("Hello")
    ensures line == "Long" <==> obj.LongV?
    ensures line == "Not a string" <==> !obj.StrV? && !obj.LongV? && obj != IntV(1)
    ensures line == "Unknown" <==> obj.StrV? && obj.s != "Hello"
  {
    if obj == IntV(1) then "One"
    else if obj == StrV("Hello") then "Greeting"
    else if obj.LongV? then "Long"
    else if !obj.StrV? then "Not a string"
    else "Unknown"
  }

  /** `whenAssign`: the `when` expression's value. */
  function WhenAssign(obj: Any): (result: Any)
    ensures result == StrV("one") <==> obj == IntV(1)
    ensures result == IntV(1) <==> obj == StrV("Hello")
    ensures result == BoolV(false) <==> obj.LongV?
    ensures result == IntV(42) <==> obj != IntV(1) && obj != StrV("Hello") && !obj.LongV?
  {
    match obj
    case IntV(1) => StrV("one")
    case StrV("Hello") => IntV(1)
    case LongV(_) => BoolV(false)
    case _ => IntV(42)
  }

  /** Both `when`s share their first three branches; every value the
      statement labels "Not a string" or "Unknown" gets the else-value 42. */
  lemma CasesAgreesWithWhenAssign(obj: Any)
    ensures WhenAssign(obj) == IntV(42) <==> Cases(obj) == "Not a string" || Cases(obj) == "Unknown"
  {
    if obj.StrV? && obj.s != "Hello" {
      assert Cases(obj) == "Unknown";
    } else if !obj.StrV? && !obj.LongV? && obj != IntV(1) {
      assert Cases(obj) == "Not a string";
    }
  }

  /** The calls in `main` and in `cases`. */
  lemma Demo()
    ensures Cases(StrV("Hello")) == "Greeting"
    ensures Cases(IntV(1)) == "One"
    ensures Cases(LongV(0)) == "Long"
    ensures Cases(MyClassV) == "Not a string"
    ensures Cases(StrV("hello")) == "Unknown"
    ensures WhenAssign(StrV("Hello")) == IntV(1)
    ensures WhenAssign(DoubleV) == IntV(42)
    ensures WhenAssign(IntV(1)) == StrV("one")
    ensures WhenAssign(MyClassV) == IntV(42)
  {
    assert "hello"[0] != "Hello"[0];
  }
}
