/** Operator functions: `Int.times` as `*`, and `String.get(IntRange)` as
    an inclusive-range substring. */
module OperatorFunctions {
  import opened Ints
  import opened Results
  import Strings

  /** The operator `Int.times` (`n * str`): `str` repeated `n` times. */
  function Times(n: Int32, str: string): (r: Result<string>)
    ensures n < 0 ==> r == Failure(IllegalArgument)
    ensures n >= 0 ==> r == Success(Strings.Repeat(str, n as nat))
  {
    Strings.RepeatChecked(str, n)
  }

  /** A Kotlin `IntRange` `start..endInclusive`. */
  datatype IntRange = IntRange(start: Int32, endInclusive: Int32)

  /** The operator `String.get` on a range (`s[a..b]`): the substring the range
      covers, which the standard
      library defines as `substring(range.start, range.endInclusive + 1)`. */
  function Get(s: string, range: IntRange): (r: Result<string>)
    ensures r.Success? <==>
              && 0 <= range.start as int <= range.endInclusive as int + 1 <= |s|
              && range.endInclusive as int < MAX
    ensures r.Failure? ==> r.error == StringIndexOutOfBounds
    ensures r.Success? ==> |r.value| == range.endInclusive as int - range.start as int + 1
    ensures r.Success? ==>
              forall i :: 0 <= i < |r.value| ==> r.value[i] == s[range.start as int + i]
    ensures r.Success? ==>
              s == s[..range.start] + r.value + s[range.endInclusive as int + 1..]
  {
    Strings.Substring(s, range.start, Add(range.endInclusive, 1))
  }

  /** `2 * "Bye "`. */
  lemma TimesDemo()
    ensures Times(2, "Bye ") == Success("Bye Bye ")
  {
    assert Strings.Repeat("Bye ", 2) == "Bye Bye " by {
      assert Strings.Repeat("Bye ", 1) == "Bye ";
    }
  }

  /** The demo's `str`. */
  const QUOTE: string := "Always forgive your enemies; nothing annoys them so much."

  /** `str[0..14]`: the first fifteen characters of the quote. */
  lemma GetDemo()
    ensures Get(QUOTE, IntRange(0, 14)) == Success("Always forgive ")
  {
    GetFirst15(QUOTE);
    assert forall i :: 0 <= i < 15 ==> QUOTE[i] == "Always forgive "[i];
    assert QUOTE[..15] == "Always forgive ";
  }

  lemma GetFirst15(s: string)
    requires |s| >= 15
    ensures Get(s, IntRange(0, 14)) == Success(s[..15])
  {
  }
}
