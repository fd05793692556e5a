/** Object expressions and companion objects: the rental price computed
    through an anonymous `dayRates` object, and `BigBen.getBongs`. */
module ObjectKeyword {
  import opened Ints
  import Strings

  /** The anonymous `dayRates` object: one `Int` amount per kind of day. */
  datatype DayRates = DayRates(standard: Int32, festivity: Int32, special: Int32)

  function DayRatesFor(standardDays: Int32, festivityDays: Int32, specialDays: Int32): DayRates {
    DayRates(Mul(30, standardDays), Mul(50, festivityDays), Mul(100, specialDays))
  }

  /** The exact price in whole units, before any `Int` wrap-around. */
  function ExactPrice(standardDays: int, festivityDays: int, specialDays: int): int {
    30 * standardDays + 50 * festivityDays + 100 * specialDays
  }

  /** The `total` that `rentPrice` prints: the exact price reduced to 32
      bits, which is the exact price whenever it fits in an `Int`. */
  function RentTotal(standardDays: Int32, festivityDays: Int32, specialDays: Int32): (total: Int32)
    ensures total == Wrap(ExactPrice(standardDays as int, festivityDays as int, specialDays as int))
    ensures InRange(ExactPrice(standardDays as int, festivityDays as int, specialDays as int)) ==>
              total as int == ExactPrice(standardDays as int, festivityDays as int, specialDays as int)
  {
    var dayRates := DayRatesFor(standardDays, festivityDays, specialDays);
    WrapSum(30 * standardDays as int, 50 * festivityDays as int);
    WrapSum(30 * standardDays as int + 50 * festivityDays as int, 100 * specialDays as int);
    Add(Add(dayRates.standard, dayRates.festivity), dayRates.special)
  }

  /** Without overflow, more days of any kind never lower the total, and no
      days cost nothing. */
  lemma RentMonotone(s: Int32, f: Int32, p: Int32, s': Int32, f': Int32, p': Int32)
    requires 0 <= s <= s' && 0 <= f <= f' && 0 <= p <= p'
    requires ExactPrice(s' as int, f' as int, p' as int) <= MAX
    ensures RentTotal(s, f, p) <= RentTotal(s', f', p')
    ensures RentTotal(0, 0, 0) == 0
  {
    var lo := ExactPrice(s as int, f as int, p as int);
    var hi := ExactPrice(s' as int, f' as int, p' as int);
    assert 0 <= lo <= hi;
    assert RentTotal(s, f, p) as int == lo;
    assert RentTotal(s', f', p') as int == hi;
  }

  /** `rentPrice(10, 2, 1)` totals 500. */
  lemma RentDemo()
    ensures RentTotal(10, 2, 1) == 500
  {
  }

  /** `BigBen.getBongs(nTimes)`: prints "BONG " once for each `i` in `1..nTimes`;
      the printed text is returned. */
  method GetBongs(nTimes: Int32) returns (out: string)
    ensures out == Strings.Repeat("BONG ", if nTimes < 1 then 0 else nTimes as nat)
    ensures |out| == 5 * (if nTimes < 1 then 0 else nTimes as int)
  {
    out := "";
    var i := 1;
    while i <= nTimes as int
      invariant 1 <= i <= (if nTimes < 1 then 1 else nTimes as int + 1)
      invariant out == Strings.Repeat("BONG ", i - 1)
    {
      out := out + "BONG ";
      i := i + 1;
    }
    Strings.RepeatLength("BONG ", i - 1);
  }
}
