/**
 * `struct Computer` and its methods, updating the machine in place: a fixed
 * 16-cell array and three scalar fields. Each method is proved against the
 * value-level semantics of module Machine.
 */
module Cpu {
  import opened Bits
  import opened Codec
  import opened Machine

  /** Every instruction of a program can be encoded without a panic. */
  predicate Encodable(insts: seq<Inst>) {
    forall k | 0 <= k < |insts| :: Encode(insts[k]).Fits?
  }

  /** The memory image `load_instructions` writes: cell k holds the encoding of instruction k. */
  function Image(insts: seq<Inst>): (m: Memory)
    requires |insts| == MemorySize && Encodable(insts)
    ensures forall k | 0 <= k < MemorySize :: m[k] == Encode(insts[k]).byte
  {
    seq(MemorySize, k requires 0 <= k < MemorySize => Encode(insts[k]).byte)
  }

  class Computer {
    const memory: array<I8>
    var register: I8
    var bcd: I8
    var pc: U8

    ghost predicate Valid()
      reads this
    {
      memory.Length == MemorySize
    }

    /** The machine's fields as a value. */
    ghost function Snapshot(): State
      reads this, memory
      requires Valid()
    {
      State(memory[..], register, bcd, pc)
    }

    /** `Computer::new()`: all fields zero. */
    constructor ()
      ensures Valid() && fresh(memory)
      ensures Snapshot() == Initial
    {
      memory := new I8[MemorySize](_ => 0);
      register, bcd, pc := 0, 0, 0;
    }

    /** `load_instructions`: writes the encoding of each instruction into its cell. */
    method LoadInstructions(insts: seq<Inst>)
      requires Valid()
      requires |insts| == MemorySize && Encodable(insts)
      modifies memory
      ensures Valid()
      ensures Snapshot() == old(Snapshot()).(memory := Image(insts))
    {
      for idx := 0 to MemorySize
        invariant forall k | 0 <= k < idx :: memory[k] == Encode(insts[k]).byte
        invariant forall k | idx <= k < MemorySize :: memory[k] == old(memory[k])
      {
        memory[idx] := Encode(insts[idx]).byte;
      }
      assert memory[..] == Image(insts);
    }

    /**
     * The body of `run`'s loop for an instruction that decoded: the
     * `match inst { … }` and then `self.pc += 1`.
     */
    method Execute(inst: Inst) returns (status: Status)
      requires Valid()
      modifies this, memory
      ensures Valid()
      ensures Outcome(Snapshot(), status) == Machine.Execute(old(Snapshot()), inst)
    {
      match inst {
        case Add(n) =>
          if !(-128 <= register + n < 128) {
            return Panicked(AddOverflow);
          }
          register := register + n;
        case And(n) =>
          register := And8(register, n);
        case Shl(n) =>
          if !InBounds(n) {
            return Panicked(IndexOutOfBounds);
          }
          memory[n] := ShiftLeft(memory[n]);
        case Disp(n) =>
          if !InBounds(n) {
            return Panicked(IndexOutOfBounds);
          }
          bcd := memory[n];
        case Load(n) =>
          if !InBounds(n) {
            return Panicked(IndexOutOfBounds);
          }
          register := memory[n];
        case Str(n) =>
          if !InBounds(n) {
            return Panicked(IndexOutOfBounds);
          }
          memory[n] := register;
        case Jmp(n) =>
          pc := n;
        case Jz(_) =>
          return Panicked(Unimplemented);
        case None =>
      }
      if pc == 255 {
        return Panicked(PcOverflow);
      }
      pc := pc + 1;
      status := Normal;
    }

    /**
     * `run`: one pass of the fetch-decode-execute loop over the 16 bytes the
     * memory held when the pass began, in index order. Returns how the pass
     * ended; on a panic the fields hold what they held when it happened.
     */
    method Run() returns (status: Status)
      requires Valid()
      modifies this, memory
      ensures Valid()
      ensures Outcome(Snapshot(), status) == RunBytes(old(Snapshot()), old(memory[..]))
    {
      ghost var start := Snapshot();
      var fetched := memory[..];
      for i := 0 to MemorySize
        invariant RunBytes(start, fetched[..i]) == Outcome(Snapshot(), Normal)
      {
        assert fetched[..i + 1][..i] == fetched[..i];
        ghost var before := Snapshot();
        assert RunBytes(start, fetched[..i + 1]) == Cycle(before, fetched[i]);
        var decoded := Decode(fetched[i]);
        if decoded.Err? {
          continue;
        }
        status := Execute(decoded.inst);
        assert Outcome(Snapshot(), status) == RunBytes(start, fetched[..i + 1]);
        if status.Panicked? {
          PanicStops(start, fetched, i + 1);
          assert fetched[..MemorySize] == fetched;
          return;
        }
      }
      assert fetched[..MemorySize] == fetched;
      status := Normal;
    }
  }
}
