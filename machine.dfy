/**
 * The semantics of `Computer::run` on values: the machine state, one
 * executed instruction (`Execute`), one iteration of the `for` loop over the
 * copied memory (`Cycle`) and a whole pass over a sequence of fetched bytes
 * (`RunBytes`). A panic of the source (checked `i8` or `u8` overflow, an index
 * outside the 16 cells, the `todo!()` on `Jz`) is an explicit outcome that
 * stops the pass, with the state as it was when the panic happened.
 */
module Machine {
  import opened Bits
  import opened Codec

  const MemorySize: nat := 16

  /** The `[i8; 16]` memory. */
  type Memory = m: seq<I8> | |m| == MemorySize witness seq(16, _ => 0)

  datatype State = State(memory: Memory, register: I8, bcd: I8, pc: U8)

  /** `Computer::new()`: every field zero. */
  const Initial: State := State(seq(16, _ => 0), 0, 0, 0)

  datatype Fault =
    | AddOverflow        // `self.register += n` leaves `i8`
    | IndexOutOfBounds   // `self.memory[n as usize]` with `n as usize >= 16`
    | PcOverflow         // `self.pc += 1` with `pc == 255`
    | Unimplemented      // the `todo!()` on `Jz`

  datatype Status = Normal | Panicked(fault: Fault)

  datatype Outcome = Outcome(state: State, status: Status)

  /** `n as usize` names one of the 16 cells (a negative `i8` becomes a huge `usize`). */
  predicate InBounds(n: int) {
    0 <= n < MemorySize
  }

  /** The instructions whose operand indexes memory. */
  predicate Addresses(i: Inst) {
    i.Shl? || i.Disp? || i.Load? || i.Str?
  }

  /** `self.pc += 1` at the end of an iteration. */
  function Advance(t: State): (r: Outcome)
    ensures r.status.Panicked? <==> t.pc == 255
    ensures r.status.Panicked? ==> r == Outcome(t, Panicked(PcOverflow))
    ensures r.status.Normal? ==> r.state == t.(pc := t.pc + 1)
  {
    if t.pc == 255 then Outcome(t, Panicked(PcOverflow))
    else Outcome(t.(pc := t.pc + 1), Normal)
  }

  /** The `match inst { … }` of `run`, before `self.pc += 1`. */
  function Apply(s: State, inst: Inst): (r: Outcome)
    ensures r.status == Panicked(Unimplemented) <==> inst.Jz?
    ensures r.status == Panicked(IndexOutOfBounds) <==> Addresses(inst) && !InBounds(Operand(inst))
    ensures r.status == Panicked(AddOverflow) <==> inst.Add? && !(-128 <= s.register + inst.n < 128)
    ensures r.status.Panicked? ==> r.state == s && r.status.fault != PcOverflow
    // Each instruction changes only its own target.
    ensures inst.Disp? || r.state.bcd == s.bcd
    ensures inst.Add? || inst.And? || inst.Load? || r.state.register == s.register
    ensures inst.Shl? || inst.Str? || r.state.memory == s.memory
    ensures forall k | 0 <= k < MemorySize && k != Operand(inst) :: r.state.memory[k] == s.memory[k]
    ensures r.state.pc == (if inst.Jmp? && r.status.Normal? then inst.target else s.pc)
    // What the target becomes.
    ensures r.status.Normal? && inst.Add? ==> r.state.register == s.register + inst.n
    ensures r.status.Normal? && inst.And? ==> r.state.register == And8(s.register, inst.n)
    ensures r.status.Normal? && inst.Load? && InBounds(inst.n) ==>
              r.state.register == s.memory[inst.n]
    ensures r.status.Normal? && inst.Disp? && InBounds(inst.n) ==> r.state.bcd == s.memory[inst.n]
    ensures r.status.Normal? && inst.Shl? && InBounds(inst.addr) ==>
              r.state.memory[inst.addr] == ShiftLeft(s.memory[inst.addr])
    ensures r.status.Normal? && inst.Str? && InBounds(inst.n) ==> r.state.memory[inst.n] == s.register
  {
    match inst
    case Add(n) =>
      if -128 <= s.register + n < 128 then Outcome(s.(register := s.register + n), Normal)
      else Outcome(s, Panicked(AddOverflow))
    case And(n) => Outcome(s.(register := And8(s.register, n)), Normal)
    case Shl(n) =>
      if InBounds(n) then Outcome(s.(memory := s.memory[n := ShiftLeft(s.memory[n])]), Normal)
      else Outcome(s, Panicked(IndexOutOfBounds))
    case Disp(n) =>
      if InBounds(n) then Outcome(s.(bcd := s.memory[n]), Normal)
      else Outcome(s, Panicked(IndexOutOfBounds))
    case Load(n) =>
      if InBounds(n) then Outcome(s.(register := s.memory[n]), Normal)
      else Outcome(s, Panicked(IndexOutOfBounds))
    case Str(n) =>
      if InBounds(n) then Outcome(s.(memory := s.memory[n := s.register]), Normal)
      else Outcome(s, Panicked(IndexOutOfBounds))
    case Jmp(n) => Outcome(s.(pc := n), Normal)
    case Jz(_) => Outcome(s, Panicked(Unimplemented))
    case None => Outcome(s, Normal)
  }

  /** The `match inst { … }` of `run` followed by `self.pc += 1`. */
  function Execute(s: State, inst: Inst): (r: Outcome)
    ensures r.status == Panicked(Unimplemented) <==> inst.Jz?
    ensures r.status == Panicked(IndexOutOfBounds) <==> Addresses(inst) && !InBounds(Operand(inst))
    ensures r.status == Panicked(AddOverflow) <==> inst.Add? && !(-128 <= s.register + inst.n < 128)
    ensures r.status == Panicked(PcOverflow) <==>
              && !inst.Jz?
              && !(Addresses(inst) && !InBounds(Operand(inst)))
              && !(inst.Add? && !(-128 <= s.register + inst.n < 128))
              && (if inst.Jmp? then inst.target else s.pc) == 255
    ensures r.status.Panicked? && r.status.fault != PcOverflow ==> r.state == s
    // Each instruction changes only its own target.
    ensures inst.Disp? || r.state.bcd == s.bcd
    ensures inst.Add? || inst.And? || inst.Load? || r.state.register == s.register
    ensures inst.Shl? || inst.Str? || r.state.memory == s.memory
    ensures forall k | 0 <= k < MemorySize && k != Operand(inst) :: r.state.memory[k] == s.memory[k]
    // What the target becomes.
    ensures r.status.Normal? && inst.Add? ==> r.state.register == s.register + inst.n
    ensures r.status.Normal? && inst.And? ==> r.state.register == And8(s.register, inst.n)
    ensures r.status.Normal? && inst.Load? && InBounds(inst.n) ==>
              r.state.register == s.memory[inst.n]
    ensures r.status.Normal? && inst.Disp? && InBounds(inst.n) ==> r.state.bcd == s.memory[inst.n]
    ensures r.status.Normal? && inst.Shl? && InBounds(inst.addr) ==>
              r.state.memory[inst.addr] == ShiftLeft(s.memory[inst.addr])
    ensures r.status.Normal? && inst.Str? && InBounds(inst.n) ==> r.state.memory[inst.n] == s.register
    // The program counter.
    ensures r.status.Normal? ==> r.state.pc == (if inst.Jmp? then inst.target else s.pc) + 1
    ensures r.status == Panicked(PcOverflow) ==> r.state.pc == 255
  {
    var applied := Apply(s, inst);
    if applied.status.Panicked? then applied else Advance(applied.state)
  }

  /**
   * The bytes a pass can get through without an index or `todo!()` panic:
   * every byte below 32, negatives included (Add, And), band 5 (Jmp) and
   * band 7 (not decodable).
   */
  predicate Executable(value: I8) {
    value < 32 || 80 <= value < 96 || 112 <= value
  }

  /** One iteration of `for val in self.memory { … }`. */
  function Cycle(s: State, value: I8): (r: Outcome)
    // A decoded Shl, Disp or Str always indexes outside the 16 cells, so no
    // iteration ever writes memory or the display.
    ensures r.state.memory == s.memory && r.state.bcd == s.bcd
    ensures value >= 112 ==> r == Outcome(s, Normal)
    ensures r.status.Panicked? && r.status.fault != PcOverflow ==> r.state == s
    ensures r.status.Normal? ==> Executable(value)
    ensures !Executable(value) ==>
              r.status.Panicked? && r.status.fault in {IndexOutOfBounds, Unimplemented}
    ensures r.status.Normal? && value < 16 ==> r.state.register == s.register + value
    ensures 16 <= value < 32 ==> r.state.register == And8(s.register, value)
    ensures value >= 32 ==> r.state.register == s.register
    ensures r.status.Normal? && value < 112 ==>
              r.state.pc == (if 80 <= value < 96 then value else s.pc) + 1
  {
    match Decode(value)
    case Err => Outcome(s, Normal)
    case Ok(inst) => Execute(s, inst)
  }

  /** The outcome of a pass over `bytes`, fetched in index order, stopping at the first panic. */
  function RunBytes(s: State, bytes: seq<I8>): (r: Outcome)
    decreases |bytes|
    ensures r.state.memory == s.memory && r.state.bcd == s.bcd
  {
    if |bytes| == 0 then Outcome(s, Normal)
    else
      var o := RunBytes(s, bytes[..|bytes| - 1]);
      if o.status.Panicked? then o else Cycle(o.state, bytes[|bytes| - 1])
  }

  /** Continues a pass from an earlier outcome unless it already panicked. */
  function Then(o: Outcome, bytes: seq<I8>): Outcome {
    if o.status.Panicked? then o else RunBytes(o.state, bytes)
  }

  /** A pass over `a + b` is a pass over `a` followed by a pass over `b`. */
  lemma {:induction false} RunAppend(s: State, a: seq<I8>, b: seq<I8>)
    ensures RunBytes(s, a + b) == Then(RunBytes(s, a), b)
    decreases |b|
  {
    if |b| == 0 {
      assert a + b == a;
    } else {
      var c := b[..|b| - 1];
      assert (a + b)[..|a + b| - 1] == a + c;
      assert (a + b)[|a + b| - 1] == b[|b| - 1];
      RunAppend(s, a, c);
    }
  }

  /** Once a pass has panicked, the bytes after that point are never fetched. */
  lemma PanicStops(s: State, bytes: seq<I8>, k: nat)
    requires k <= |bytes|
    requires RunBytes(s, bytes[..k]).status.Panicked?
    ensures RunBytes(s, bytes) == RunBytes(s, bytes[..k])
  {
    assert bytes == bytes[..k] + bytes[k..];
    RunAppend(s, bytes[..k], bytes[k..]);
  }

  /**
   * A `Jmp` byte sets `pc` but does not redirect fetching: the pass goes on
   * with the byte right after it.
   */
  lemma JmpDoesNotRedirect(s: State, value: I8, rest: seq<I8>)
    requires 80 <= value < 96
    ensures RunBytes(s, [value] + rest) == RunBytes(s.(pc := value + 1), rest)
  {
    RunAppend(s, [value], rest);
    assert [value][..0] == [];
    assert RunBytes(s, [value]) == Cycle(s, value);
    CycleJmp(s, value);
  }

  lemma CycleJmp(s: State, value: I8)
    requires 80 <= value < 96
    ensures Cycle(s, value) == Outcome(s.(pc := value + 1), Normal)
  {
  }

  /**
   * The program counter a pass leaves, computed from the bytes alone: an
   * undecodable byte leaves it alone, a `Jmp` byte sets it to that byte plus
   * one, any other byte adds one.
   */
  function PcAfter(pc: int, bytes: seq<I8>): int
    decreases |bytes|
  {
    if |bytes| == 0 then pc
    else
      var p := PcAfter(pc, bytes[..|bytes| - 1]);
      var value := bytes[|bytes| - 1];
      if value >= 112 then p
      else if 80 <= value < 96 then value + 1
      else p + 1
  }

  lemma {:induction false} RunPc(s: State, bytes: seq<I8>)
    requires RunBytes(s, bytes).status.Normal?
    ensures RunBytes(s, bytes).state.pc == PcAfter(s.pc, bytes)
    decreases |bytes|
  {
    if |bytes| > 0 {
      RunPc(s, bytes[..|bytes| - 1]);
    }
  }

  /** Without `Jmp` bytes, a pass adds one to `pc` per decodable byte. */
  lemma {:induction false} PcCountsDecoded(pc: int, bytes: seq<I8>)
    requires forall k | 0 <= k < |bytes| :: !(80 <= bytes[k] < 96)
    ensures PcAfter(pc, bytes) == pc + |set k | 0 <= k < |bytes| && bytes[k] < 112|
    decreases |bytes|
  {
    if |bytes| > 0 {
      var n := |bytes| - 1;
      var front := bytes[..n];
      PcCountsDecoded(pc, front);
      var before := set k | 0 <= k < n && front[k] < 112;
      var after := set k | 0 <= k < |bytes| && bytes[k] < 112;
      if bytes[n] < 112 {
        assert after == before + {n};
      } else {
        assert after == before;
      }
    }
  }

  /** The accumulator over a pass, `Overflow` once an addition leaves `i8`. */
  datatype Accumulated = Value(v: I8) | Overflow

  /**
   * The register a pass leaves, computed from the bytes alone: a byte below
   * 16 is added, a byte in 16..31 is anded in, any other byte leaves it.
   */
  function RegisterAfter(register: I8, bytes: seq<I8>): Accumulated
    decreases |bytes|
  {
    if |bytes| == 0 then Value(register)
    else
      match RegisterAfter(register, bytes[..|bytes| - 1])
      case Overflow => Overflow
      case Value(r) =>
        var value := bytes[|bytes| - 1];
        if value < 16 then (if -128 <= r + value < 128 then Value(r + value) else Overflow)
        else if value < 32 then Value(And8(r, value))
        else Value(r)
  }

  lemma {:induction false} RunRegister(s: State, bytes: seq<I8>)
    requires RunBytes(s, bytes).status.Normal?
    ensures RegisterAfter(s.register, bytes) == Value(RunBytes(s, bytes).state.register)
    decreases |bytes|
  {
    if |bytes| > 0 {
      RunRegister(s, bytes[..|bytes| - 1]);
    }
  }

  /** A pass that completes fetched only executable bytes. */
  lemma {:induction false} NormalRunIsExecutable(s: State, bytes: seq<I8>)
    requires RunBytes(s, bytes).status.Normal?
    ensures forall k | 0 <= k < |bytes| :: Executable(bytes[k])
    decreases |bytes|
  {
    if |bytes| > 0 {
      NormalRunIsExecutable(s, bytes[..|bytes| - 1]);
      forall k | 0 <= k < |bytes| ensures Executable(bytes[k]) {
        if k < |bytes| - 1 {
          assert bytes[k] == bytes[..|bytes| - 1][k];
        }
      }
    }
  }

  /**
   * A pass over executable bytes can only panic by an `i8` overflow of the
   * register or a `u8` overflow of `pc`.
   */
  lemma {:induction false} ExecutableRunFaults(s: State, bytes: seq<I8>)
    requires forall k | 0 <= k < |bytes| :: Executable(bytes[k])
    ensures RunBytes(s, bytes).status.Panicked? ==>
              RunBytes(s, bytes).status.fault in {AddOverflow, PcOverflow}
    decreases |bytes|
  {
    if |bytes| > 0 {
      var front := bytes[..|bytes| - 1];
      assert forall k | 0 <= k < |front| :: front[k] == bytes[k];
      ExecutableRunFaults(s, front);
      var o := RunBytes(s, front);
      if o.status.Normal? {
        var value := bytes[|bytes| - 1];
        var r := Cycle(o.state, value);
        if r.status.Panicked? {
          match Decode(value)
          case Err =>
          case Ok(inst) =>
            assert !inst.Jz?;
            assert !(Addresses(inst) && !InBounds(Operand(inst)));
        }
      }
    }
  }
}
