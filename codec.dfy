/**
 * The instruction set and its byte codec: `enum Inst` with `TryFrom<i8>`
 * (decode) and `TryInto<i8>` (encode), as written. Decoding keeps the whole
 * byte as the operand, maps bands 4, 5 and 6 to the variant one place further
 * on (Str, Jmp, Jz), so that `Load` is never produced, and fails only on
 * 112..127; encoding adds `16 * k` to the operand and panics when the sum
 * leaves `i8`.
 */
module Codec {
  import opened Bits

  datatype Inst =
    | Add(n: I8)
    | And(n: I8)
    | Shl(addr: U8)
    | Disp(n: I8)
    | Load(n: I8)
    | Str(n: I8)
    | Jmp(target: U8)
    | Jz(target: U8)
    | None

  /** Position of the variant in the instruction table, Add = 0 … Jz = 7; `None` shares 0. */
  function Opcode(i: Inst): nat {
    match i
    case Add(_) => 0
    case And(_) => 1
    case Shl(_) => 2
    case Disp(_) => 3
    case Load(_) => 4
    case Str(_) => 5
    case Jmp(_) => 6
    case Jz(_) => 7
    case None => 0
  }

  /** The value an instruction carries, whatever its Rust type; `None` carries 0. */
  function Operand(i: Inst): int {
    match i
    case Add(n) => n
    case And(n) => n
    case Shl(a) => a
    case Disp(n) => n
    case Load(n) => n
    case Str(n) => n
    case Jmp(t) => t
    case Jz(t) => t
    case None => 0
  }

  /** Result of `Inst::try_from`: the source's `Result<Inst, ()>`. */
  datatype Decoded = Ok(inst: Inst) | Err

  /** Result of `Inst::try_into`: a byte, or the panic of an overflow or an `unwrap`. */
  datatype Encoded = Fits(byte: I8) | Panics

  /** `Inst::try_from(value)`. */
  function Decode(value: I8): (r: Decoded)
    ensures r.Err? <==> value >= 112
    ensures value < 16 ==> r == Ok(Add(value))
    ensures r.Ok? ==> Operand(r.inst) == value
    ensures r.Ok? && value >= 16 ==>
              Opcode(r.inst) == value / 16 + (if value / 16 < 4 then 0 else 1)
    ensures r.Ok? ==> !r.inst.Load? && !r.inst.None?
  {
    if value < 16 then Ok(Add(value))
    else
      match value / 16
      case 1 => Ok(And(value))
      case 2 => Ok(Shl(AsU8(value)))
      case 3 => Ok(Disp(value))
      case 4 => Ok(Str(value))
      case 5 => Ok(Jmp(AsU8(value)))
      case 6 => Ok(Jz(AsU8(value)))
      case _ => Err
  }

  /** Checked `i8` addition, `a + b` in a debug build. */
  function CheckedAdd(a: I8, b: int): (r: Encoded)
    ensures r.Fits? <==> -128 <= a + b < 128
    ensures r.Fits? ==> r.byte == a + b
  {
    if -128 <= a + b < 128 then Fits(a + b) else Panics
  }

  /** `i8::try_from(u).unwrap()` after the checked `u8` sum `n + offset`. */
  function NarrowU8(n: U8, offset: nat): (r: Encoded)
    ensures r.Fits? <==> n + offset < 128
    ensures r.Fits? ==> r.byte == n + offset
  {
    if n + offset >= 256 then Panics
    else if n + offset >= 128 then Panics
    else Fits(n + offset)
  }

  /** `Inst::try_into()`. */
  function Encode(i: Inst): (r: Encoded)
    ensures i.None? ==> r == Fits(0)
    ensures r.Fits? <==> Operand(i) + 16 * Opcode(i) < 128
    ensures r.Fits? ==> r.byte == Operand(i) + 16 * Opcode(i)
  {
    match i
    case Add(n) => Fits(n)
    case And(n) => CheckedAdd(n, 16)
    case Shl(n) => NarrowU8(n, 16 * 2)
    case Disp(n) => CheckedAdd(n, 16 * 3)
    case Load(n) => CheckedAdd(n, 16 * 4)
    case Str(n) => CheckedAdd(n, 16 * 5)
    case Jmp(n) => NarrowU8(n, 16 * 6)
    case Jz(n) => NarrowU8(n, 16 * 7)
    case None => Fits(0)
  }

  /**
   * The round trip `decode(encode(i)) == i` holds for exactly the `Add`
   * instructions with an operand below 16.
   */
  lemma DecodeEncode(i: Inst)
    requires Encode(i).Fits?
    ensures Decode(Encode(i).byte) == Ok(i) <==> i.Add? && i.n < 16
  {
  }

  /**
   * Re-encoding a decoded byte gives that byte back exactly for the bytes
   * below 16; every other decodable byte moves up by its band or panics.
   */
  lemma EncodeDecode(value: I8)
    requires Decode(value).Ok?
    ensures Encode(Decode(value).inst) == Fits(value) <==> value < 16
    ensures value >= 16 && Encode(Decode(value).inst).Fits? ==>
              Encode(Decode(value).inst).byte >= value + 16
  {
  }

  /** `None` encodes to 0, which decodes to `Add(0)`, not back to `None`. */
  lemma NoneRoundTrip()
    ensures Encode(None) == Fits(0) && Decode(0) == Ok(Add(0))
  {
  }

  /** Every `Jz` that encodes lands in 112..127, the one band that does not decode. */
  lemma JzNeverDecodes(t: U8)
    requires Encode(Jz(t)).Fits?
    ensures 112 <= Encode(Jz(t)).byte && Decode(Encode(Jz(t)).byte) == Err
  {
  }
}
