/** The value types and wire constants that the Moonlight C++/CX binding
  * exposes to the C# front-end: the stream configuration record and the
  * mouse, keyboard, modifier and controller-button enumerations. */
module BindingTypes {
  import opened Common

  const AES_BLOCK_BYTES: nat := 16

  /** The immutable configuration record. Its key and IV are private 16-byte
    * copies, so neither the caller's arrays nor the arrays the getters hand
    * out alias them; as Dafny values that holds by construction. */
  datatype MoonlightStreamConfiguration = MoonlightStreamConfiguration(
    width: int, height: int, fps: int, bitrate: int, packetSize: int,
    riAesKey: seq<byte>, riAesIv: seq<byte>)
  {
    ghost predicate Valid() { |riAesKey| == AES_BLOCK_BYTES && |riAesIv| == AES_BLOCK_BYTES }
  }

  /** The constructor: numeric settings stored as given, exactly the first 16
    * bytes of the key and of the IV copied (a shorter array would be read past
    * its end, so callers must pass at least 16). */
  function NewStreamConfiguration(width: int, height: int, fps: int, bitrate: int, packetSize: int,
                                  riAesKey: seq<byte>, riAesIv: seq<byte>): (c: MoonlightStreamConfiguration)
    requires |riAesKey| >= AES_BLOCK_BYTES && |riAesIv| >= AES_BLOCK_BYTES
    ensures c.Valid()
    ensures c.width == width && c.height == height && c.fps == fps
    ensures c.bitrate == bitrate && c.packetSize == packetSize
    ensures c.riAesKey == riAesKey[..AES_BLOCK_BYTES] && c.riAesIv == riAesIv[..AES_BLOCK_BYTES]
  {
    MoonlightStreamConfiguration(width, height, fps, bitrate, packetSize,
      riAesKey[..AES_BLOCK_BYTES], riAesIv[..AES_BLOCK_BYTES])
  }

  /** `MouseButtonAction`, `MouseButton` and `KeyAction` wire values. */
  const MOUSE_PRESS: int := 0x07
  const MOUSE_RELEASE: int := 0x08
  const BUTTON_LEFT: int := 0x01
  const BUTTON_MIDDLE: int := 0x02
  const BUTTON_RIGHT: int := 0x03
  const KEY_DOWN: int := 0x03
  const KEY_UP: int := 0x04

  /** `Modifier` bits. */
  const MODIFIER_SHIFT: bv8 := 0x01
  const MODIFIER_CTRL: bv8 := 0x02
  const MODIFIER_ALT: bv8 := 0x04

  /** The fifteen `ButtonFlags` members of the controller packet. */
  datatype Button = A | B | X | Y | Up | Down | Left | Right | LB | RB | Play | Back | LS | RS | Special

  function ButtonFlag(b: Button): (f: bv16)
    ensures f != 0 && f & (f - 1) == 0
  {
    match b
    case A => 0x1000
    case B => 0x2000
    case X => 0x4000
    case Y => 0x8000
    case Up => 0x0001
    case Down => 0x0002
    case Left => 0x0004
    case Right => 0x0008
    case LB => 0x0100
    case RB => 0x0200
    case Play => 0x0010
    case Back => 0x0020
    case LS => 0x0040
    case RS => 0x0080
    case Special => 0x0400
  }

  /** Distinct members never share a bit, so a packet's button word says
    * exactly which members were ORed into it. */
  lemma ButtonFlagsDisjoint(a: Button, b: Button)
    requires a != b
    ensures ButtonFlag(a) & ButtonFlag(b) == 0
  {
  }

  /** Only bit 0x0800 is not the flag of some member. */
  lemma ButtonFlagsCoverage(bit: bv16)
    requires bit != 0 && bit & (bit - 1) == 0 && bit != 0x0800
    ensures exists b :: ButtonFlag(b) == bit
  {
    if bit == 0x1000 { assert ButtonFlag(A) == bit; }
    else if bit == 0x2000 { assert ButtonFlag(B) == bit; }
    else if bit == 0x4000 { assert ButtonFlag(X) == bit; }
    else if bit == 0x8000 { assert ButtonFlag(Y) == bit; }
    else if bit == 0x0001 { assert ButtonFlag(Up) == bit; }
    else if bit == 0x0002 { assert ButtonFlag(Down) == bit; }
    else if bit == 0x0004 { assert ButtonFlag(Left) == bit; }
    else if bit == 0x0008 { assert ButtonFlag(Right) == bit; }
    else if bit == 0x0100 { assert ButtonFlag(LB) == bit; }
    else if bit == 0x0200 { assert ButtonFlag(RB) == bit; }
    else if bit == 0x0010 { assert ButtonFlag(Play) == bit; }
    else if bit == 0x0020 { assert ButtonFlag(Back) == bit; }
    else if bit == 0x0040 { assert ButtonFlag(LS) == bit; }
    else if bit == 0x0080 { assert ButtonFlag(RS) == bit; }
    else if bit == 0x0400 { assert ButtonFlag(Special) == bit; }
    else { SingleBitCases(bit); }
  }

  lemma SingleBitCases(bit: bv16)
    requires bit != 0 && bit & (bit - 1) == 0
    ensures bit in {0x1, 0x2, 0x4, 0x8, 0x10, 0x20, 0x40, 0x80, 0x100, 0x200, 0x400, 0x800, 0x1000, 0x2000, 0x4000, 0x8000}
  {
  }
}
