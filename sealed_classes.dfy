/** A sealed hierarchy: `Mammal` has exactly the subclasses `Cat` and `Human`. */
module SealedClasses {

  datatype Mammal = Cat(catName: string) | Human(humanName: string, job: string) {
    /** `Mammal.name`, set from the subclass's constructor argument. */
    function Name(): (n: string)
      ensures Cat? ==> n == catName
      ensures Human? ==> n == humanName
    {
      match this
      case Cat(n) => n
      case Human(n, _) => n
    }
  }

  const GREETING: string := "Hello "
  const JOB_INTRO: string := "; You're working as a "

  /** `greetMammal`: a `when` with smart casts and no else-branch. The
      greeting opens with "Hello " and the mammal's name, from which the
      name (and a human's job) can be read back. */
  function GreetMammal(mammal: Mammal): (r: string)
    ensures |r| >= |GREETING| + |mammal.Name()| && r[..|GREETING|] == GREETING
    ensures r[|GREETING|..|GREETING| + |mammal.Name()|] == mammal.Name()
    ensures mammal.Cat? ==> |r| == |GREETING| + |mammal.Name()|
    ensures mammal.Human? ==> r[|GREETING| + |mammal.Name()|..] == JOB_INTRO + mammal.job
  {
    match mammal
    case Human(_, job) =>
      var r := GREETING + mammal.Name() + JOB_INTRO + job;
      assert r[|GREETING| + |mammal.Name()|..] == JOB_INTRO + job;
      r
    case Cat(_) => GREETING + mammal.Name()
  }

  /** Different cats get different greetings. */
  lemma CatGreetingInjective(a: string, b: string)
    ensures GreetMammal(Cat(a)) == GreetMammal(Cat(b)) <==> a == b
  {
    if GreetMammal(Cat(a)) == GreetMammal(Cat(b)) {
      assert a == GreetMammal(Cat(a))[|GREETING|..];
      assert b == GreetMammal(Cat(b))[|GREETING|..];
    }
  }

  /** `greetMammal(Cat("Snowy"))`, as `main` prints it. */
  lemma Demo()
    ensures GreetMammal(Cat("Snowy")) == "Hello Snowy"
    ensures Cat("Snowy").Name() == "Snowy"
  {
  }
}
