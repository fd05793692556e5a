/** Enum classes: `State` with an exhaustive `when`, and `Color` with an
    `rgb` property and a bitmask test. */
module EnumClasses {
  import opened Ints

  datatype State = IDLE | RUNNING | FINISHED

  /** The `when (state)` of the demo; no else-branch is needed. */
  function Message(state: State): (m: string)
    ensures |m| > 5 && m[..5] == "It's "
  {
    match state
    case IDLE => "It's idle"
    case RUNNING => "It's running"
    case FINISHED => "It's finished"
  }

  /** Every state has its own message. */
  lemma MessageInjective(a: State, b: State)
    ensures Message(a) == Message(b) <==> a == b
  {
    assert Message(IDLE)[5] != Message(RUNNING)[5];
    assert Message(IDLE)[5] != Message(FINISHED)[5];
    assert Message(RUNNING)[5] != Message(FINISHED)[5];
  }

  /** The three messages of the `when`; the demo prints RUNNING's. */
  lemma MessageDemo()
    ensures Message(IDLE) == "It's idle"
    ensures Message(RUNNING) == "It's running"
    ensures Message(FINISHED) == "It's finished"
  {
  }

  datatype Color = RED | GREEN | BLUE | YELLOW {
    /** The colour as a 24-bit 0xRRGGBB value. */
    function Rgb(): (rgb: Int32)
      ensures 0 <= rgb < 0x100_0000
    {
      match this
      case RED => 0xFF0000
      case GREEN => 0x00FF00
      case BLUE => 0x0000FF
      case YELLOW => 0xFFFF00
    }

    /** `(this.rgb and 0xFF0000 != 0)`: infix `and` binds tighter than `!=`,
        so this masks first and compares the mask with zero. */
    function ContainsRed(): (red: bool)
      ensures red <==> this == RED || this == YELLOW
    {
      RedMasks();
      BitAnd(Rgb(), 0xFF0000) != 0
    }
  }

  /** The red mask applied to each colour's `rgb` value. */
  lemma RedMasks()
    ensures BitAnd(0xFF0000, 0xFF0000) == 0xFF0000
    ensures BitAnd(0x00FF00, 0xFF0000) == 0
    ensures BitAnd(0x0000FF, 0xFF0000) == 0
    ensures BitAnd(0xFFFF00, 0xFF0000) == 0xFF0000
  {
  }

  /** The red byte of a colour's `rgb` value. */
  function RedChannel(c: Color): int {
    (c.Rgb() as int / 0x1_0000) % 0x100
  }

  /** A colour contains red exactly when its red byte is non-zero. */
  lemma ContainsRedIffRedChannel(c: Color)
    ensures c.ContainsRed() <==> RedChannel(c) != 0
    ensures c.ContainsRed() <==> c == RED || c == YELLOW
  {
    match c
    case RED => assert BitAnd(0xFF0000, 0xFF0000) == 0xFF0000;
    case GREEN => assert BitAnd(0x00FF00, 0xFF0000) == 0;
    case BLUE => assert BitAnd(0x0000FF, 0xFF0000) == 0;
    case YELLOW => assert BitAnd(0xFFFF00, 0xFF0000) == 0xFF0000;
  }

  /** No two colours share an `rgb` value. */
  lemma RgbInjective(a: Color, b: Color)
    ensures a.Rgb() == b.Rgb() <==> a == b
  {
  }
}
