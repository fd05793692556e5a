/** The data class `User`: structural equality, `hashCode`, `copy` and
    `componentN`. */
module DataClasses {
  import opened Ints
  import Strings

  datatype User = User(name: string, id: Int32) {
    /** The generated `hashCode`: `name.hashCode() * 31 + id.hashCode()` in
        `Int` arithmetic (an `Int`'s hash is itself). */
    function HashCode(): (h: Int32)
      ensures h == Wrap(Strings.HashPolynomial(name) * 31 + id as int)
    {
      var p := Strings.HashPolynomial(name);
      WrapScaleWrap(31, p, 0);
      WrapSum(Wrap(p) as int * 31, id as int);
      WrapScaleWrap(31, p, id as int);
      Add(Mul(Strings.Hash(name), 31), id)
    }

    /** The generated `copy`: each property defaults to this object's value. */
    function Copy(name: string := this.name, id: Int32 := this.id): (u: User)
      ensures u.name == name && u.id == id
    {
      User(name, id)
    }

    /** The first property in declaration order. */
    function Component1(): (n: string)
      ensures n == name
    {
      name
    }

    /** The second property in declaration order. */
    function Component2(): (i: Int32)
      ensures i == id
    {
      id
    }
  }

  /** Generated equality compares every property. */
  lemma EqualityIsStructural(u: User, v: User)
    ensures u == v <==> u.name == v.name && u.id == v.id
  {
  }

  /** Equal users have equal hash codes, and the hash is the polynomial
      `(name polynomial) * 31 + id` taken modulo 2^32. */
  lemma HashCodeSpec(u: User, v: User)
    ensures u == v ==> u.HashCode() == v.HashCode()
    ensures u.HashCode() == Wrap(Strings.HashPolynomial(u.name) * 31 + u.id as int)
  {
  }

  /** `copy()` with no arguments is an equal value; a changed property
      changes only that property. */
  lemma CopySpec(u: User, n: string, i: Int32)
    ensures u.Copy() == u
    ensures u.Copy(n).name == n && u.Copy(n).id == u.id
    ensures u.Copy(id := i).name == u.name && u.Copy(id := i).id == i
  {
  }

  /** Destructuring and rebuilding gives back the same user. */
  lemma ComponentsRoundTrip(u: User)
    ensures User(u.Component1(), u.Component2()) == u
  {
  }

  /** The comparisons and copies in `main`. */
  lemma Demo()
    ensures User("Alex", 1) == User("Alex", 1)
    ensures User("Alex", 1) != User("Max", 2)
    ensures User("Alex", 1).HashCode() == User("Alex", 1).HashCode() == 63347075
    ensures User("Max", 2).HashCode() == 2390846
    ensures User("Alex", 1).Copy("Max") == User("Max", 1)
    ensures User("Alex", 1).Copy(id := 2) == User("Alex", 2)
    ensures User("Alex", 1).Component1() == "Alex" && User("Alex", 1).Component2() == 1
  {
    assert "Alex"[..3] == "Ale" && "Ale"[..2] == "Al" && "Al"[..1] == "A" && "A"[..0] == [];
    assert Strings.HashPolynomial("Alex") == 2043454;
    assert "Max"[..2] == "Ma" && "Ma"[..1] == "M" && "M"[..0] == [];
    assert Strings.HashPolynomial("Max") == 77124;
  }
}
