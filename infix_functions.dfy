/** Infix functions: `Int.times` (string repetition), `String.onto` (pair
    construction) and the member `Person.likes`. */
module InfixFunctions {
  import opened Ints
  import opened Results
  import Strings

  datatype Pair<A, B> = Pair(first: A, second: B)

  /** The local infix `Int.times`: `str` repeated `this` times. */
  function Times(n: Int32, str: string): (r: Result<string>)
    ensures n < 0 ==> r == Failure(IllegalArgument)
    ensures n >= 0 ==> r == Success(Strings.Repeat(str, n as nat))
  {
    Strings.RepeatChecked(str, n)
  }

  /** The standard library's `A.to(B)`. */
  function To<A, B>(a: A, b: B): (p: Pair<A, B>)
    ensures p.first == a && p.second == b
  {
    Pair(a, b)
  }

  /** The local infix `String.onto`: the pair of the receiver and `other`. */
  function Onto(a: string, other: string): (p: Pair<string, string>)
    ensures p.first == a && p.second == other
  {
    Pair(a, other)
  }

  /** `onto` builds the same pair as `to`, and each part can be read back. */
  lemma OntoIsTo(a: string, b: string)
    ensures Onto(a, b) == To(a, b)
    ensures Onto(a, b).first == a && Onto(a, b).second == b
  {
  }

  /** `2 times "Bye "` and `2.times("Bye")`. */
  lemma TimesDemo()
    ensures Times(2, "Bye ") == Success("Bye Bye ")
    ensures Times(2, "Bye") == Success("ByeBye")
  {
    assert Strings.Repeat("Bye ", 2) == "Bye Bye " by {
      assert Strings.Repeat("Bye ", 1) == "Bye ";
    }
    assert Strings.Repeat("Bye", 2) == "ByeBye" by {
      assert Strings.Repeat("Bye", 1) == "Bye";
    }
  }

  class Person {
    const name: string
    /** `likedPeople`: a public mutable list; in the demo, only `likes` changes it. */
    var likedPeople: seq<Person>

    constructor (name: string)
      ensures this.name == name && likedPeople == []
    {
      this.name := name;
      likedPeople := [];
    }

    /** The infix member `likes`: appends `other`, duplicates included. */
    method Likes(other: Person)
      modifies this
      ensures likedPeople == old(likedPeople) + [other]
      ensures other != this ==> other.likedPeople == old(other.likedPeople)
    {
      likedPeople := likedPeople + [other];
    }
  }

  /** The demo's `for (item in sophia.likedPeople) println(item.name)`. */
  method LikedNames(p: Person) returns (names: seq<string>)
    ensures |names| == |p.likedPeople|
    ensures forall i :: 0 <= i < |names| ==> names[i] == p.likedPeople[i].name
  {
    names := [];
    var i := 0;
    while i < |p.likedPeople|
      invariant 0 <= i <= |p.likedPeople|
      invariant |names| == i
      invariant forall k :: 0 <= k < i ==> names[k] == p.likedPeople[k].name
    {
      names := names + [p.likedPeople[i].name];
      i := i + 1;
    }
  }

  /** `main`: the three pairs it prints and the names Sophia likes. */
  method Demo() returns (firstPair: Pair<string, string>, pair: Pair<string, string>,
                         myPair: Pair<string, string>, names: seq<string>)
    ensures firstPair == Pair("Ferrari", "Katrina")
    ensures pair == Pair("xyz", "abc")
    ensures myPair == Pair("McLaren", "Lucas")
    ensures names == ["Claudia"]
  {
    pair := To("Ferrari", "Katrina");
    firstPair := pair;
    pair := To("xyz", "abc");
    myPair := Onto("McLaren", "Lucas");
    var sophia := new Person("Sophia");
    var claudia := new Person("Claudia");
    sophia.Likes(claudia);
    names := LikedNames(sophia);
  }
}
