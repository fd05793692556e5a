/** The generic class `MutableStack<E>`: a LIFO stack kept in a mutable list
    whose last element is the top. */
module Generic {
  import opened Results

  /** `s` in reverse order. */
  function Reversed<E>(s: seq<E>): seq<E> {
    if s == [] then [] else Reversed(s[1..]) + [s[0]]
  }

  /** Element `k` of the reversal is element `|s| - 1 - k` of `s`. */
  lemma {:induction false} ReversedAt<E>(s: seq<E>, k: nat)
    requires k < |s|
    ensures |Reversed(s)| == |s| && Reversed(s)[k] == s[|s| - 1 - k]
  {
    ReversedLength(s[1..]);
    if k < |s| - 1 {
      ReversedAt(s[1..], k);
    }
  }

  lemma {:induction false} ReversedLength<E>(s: seq<E>)
    ensures |Reversed(s)| == |s|
  {
    if s != [] {
      ReversedLength(s[1..]);
    }
  }

  class MutableStack<E> {
    /** The stack's list; the top is the last element. */
    var elements: seq<E>

    /** `MutableStack(vararg items)`: the items in argument order, the last one on top. */
    constructor (items: seq<E>)
      ensures elements == items
    {
      elements := items;
    }

    /** `size()`: the number of elements on the stack. */
    function Size(): (n: nat)
      reads this
      ensures n == |elements|
    {
      |elements|
    }

    function IsEmpty(): (b: bool)
      reads this
      ensures b <==> Size() == 0
    {
      elements == []
    }

    /** `push` appends to the list and always reports success (`add` returns true). */
    method Push(element: E) returns (added: bool)
      modifies this
      ensures added
      ensures elements == old(elements) + [element]
    {
      elements := elements + [element];
      added := true;
    }

    /** `peek` is `last()`: the top element, NoSuchElementException when empty. */
    method Peek() returns (r: Result<E>)
      ensures elements == [] ==> r == Failure(NoSuchElement)
      ensures elements != [] ==> r == Success(elements[|elements| - 1])
    {
      if elements == [] {
        r := Failure(NoSuchElement);
      } else {
        r := Success(elements[|elements| - 1]);
      }
    }

    /** `pop` is `removeAt(size - 1)`: removes and returns the top element;
        IndexOutOfBoundsException (and no change) when empty. */
    method Pop() returns (r: Result<E>)
      modifies this
      ensures old(elements) == [] ==> r == Failure(IndexOutOfBounds) && elements == old(elements)
      ensures old(elements) != [] ==>
                && r == Success(old(elements)[|old(elements)| - 1])
                && elements == old(elements)[..|old(elements)| - 1]
    {
      if elements == [] {
        r := Failure(IndexOutOfBounds);
      } else {
        r := Success(elements[|elements| - 1]);
        elements := elements[..|elements| - 1];
      }
    }
  }

  /** `mutableStackOf(vararg elements)` builds the same stack as the constructor. */
  method MutableStackOf<E>(elements: seq<E>) returns (stack: MutableStack<E>)
    ensures fresh(stack) && stack.elements == elements
  {
    stack := new MutableStack(elements);
  }

  /** A push followed by a pop returns the pushed element and restores the stack. */
  method PushThenPop<E>(stack: MutableStack<E>, e: E) returns (r: Result<E>)
    modifies stack
    ensures r == Success(e) && stack.elements == old(stack.elements)
  {
    var _ := stack.Push(e);
    var top := stack.Peek();
    assert top == Success(e);
    r := stack.Pop();
  }

  /** The demo's `for (i in 1..stack.size()) stack.pop()`: the range is fixed
      before the loop, so the stack is popped exactly `size()` times. */
  method PopAll<E>(stack: MutableStack<E>) returns (popped: seq<E>)
    modifies stack
    ensures popped == Reversed(old(stack.elements))
    ensures stack.elements == []
  {
    ghost var all := stack.elements;
    var n := stack.Size();
    popped := [];
    var i := 1;
    while i <= n
      invariant 1 <= i <= n + 1
      invariant stack.elements == all[..n - (i - 1)]
      invariant popped == Reversed(all[n - (i - 1)..])
    {
      var r := stack.Pop();
      ghost var j := n - i;
      assert all[j..][1..] == all[j + 1..];
      popped := popped + [r.value];
      i := i + 1;
    }
    assert all[0..] == all;
  }

  /** `main` of the demo: a stack of Doubles, one push, a peek, then popping
      everything; `mutableStackOf` at the end builds the initial stack again. */
  method Demo() returns (peeked: Result<real>, popped: seq<real>, rest: nat, again: seq<real>)
    ensures peeked == Success(9.87)
    ensures popped == [9.87, 2.7, 3.14, 0.62]
    ensures rest == 0
    ensures again == [0.62, 3.14, 2.7]
  {
    var stack := new MutableStack([0.62, 3.14, 2.7]);
    var _ := stack.Push(9.87);
    ghost var s := [0.62, 3.14, 2.7, 9.87];
    assert stack.elements == s;
    peeked := stack.Peek();
    popped := PopAll(stack);
    assert Reversed(s[3..]) == [9.87] by { assert s[3..][1..] == []; }
    assert Reversed(s[2..]) == [9.87, 2.7] by { assert s[2..][1..] == s[3..]; }
    assert Reversed(s[1..]) == [9.87, 2.7, 3.14] by { assert s[1..][1..] == s[2..]; }
    rest := stack.Size();
    var stack2 := MutableStackOf([0.62, 3.14, 2.7]);
    again := stack2.elements;
  }
}
