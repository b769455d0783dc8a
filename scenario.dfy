/**
 * The program `main` builds, `[Add(15), None × 15]`, loaded into a fresh
 * machine and run once; and the three-instruction program
 * `[Add(15), Disp(0), Jmp(0), None × 13]`, which the code as written stops
 * at its second byte.
 */
module Scenario {
  import opened Bits
  import opened Codec
  import opened Machine
  import opened Cpu

  function Zeros(n: nat): (z: seq<I8>)
    ensures |z| == n && forall k | 0 <= k < n :: z[k] == 0
  {
    seq(n, _ => 0)
  }

  /** The instruction array of `main`. */
  function MainProgram(): (p: seq<Inst>)
    ensures |p| == MemorySize && Encodable(p)
  {
    [Add(15)] + seq(15, _ => None)
  }

  /** A program that displays cell 0 and jumps back to the start. */
  function DisplayLoopProgram(): (p: seq<Inst>)
    ensures |p| == MemorySize && Encodable(p)
  {
    [Add(15), Disp(0), Jmp(0)] + seq(13, _ => None)
  }

  /** Zero bytes decode to `Add(0)`: each adds nothing and moves `pc` on by one. */
  lemma {:induction false} RunZeros(s: State, n: nat)
    requires s.pc + n < 256
    ensures RunBytes(s, Zeros(n)) == Outcome(s.(pc := s.pc + n), Normal)
  {
    if n > 0 {
      assert Zeros(n)[..n - 1] == Zeros(n - 1);
      RunZeros(s, n - 1);
    }
  }

  lemma MainProgramImage()
    ensures Image(MainProgram()) == [15] + Zeros(15)
  {
  }

  /**
   * `main`: from `new()`, loading `[Add(15), None × 15]` and running ends
   * with the register at 15, the display at 0, `pc` at 16 and only cell 0
   * non-zero.
   */
  lemma MainProgramRun()
    ensures var image := [15] + Zeros(15);
            RunBytes(Initial.(memory := Image(MainProgram())), Image(MainProgram()))
            == Outcome(State(image, 15, 0, 16), Normal)
  {
    MainProgramImage();
    var image := [15] + Zeros(15);
    var s := Initial.(memory := image);
    RunAppend(s, [15], Zeros(15));
    assert [15][..0] == [];
    assert RunBytes(s, [15]) == Outcome(s.(register := 15, pc := 1), Normal);
    RunZeros(s.(register := 15, pc := 1), 15);
  }

  lemma DisplayLoopImage()
    ensures Image(DisplayLoopProgram()) == [15, 48, 96] + Zeros(13)
  {
  }

  /**
   * `Disp(0)` encodes to 48, which decodes back to `Disp(48)`: the pass
   * panics on an out-of-bounds index at the second byte, after `Add(15)`.
   */
  lemma DisplayLoopRun()
    ensures RunBytes(Initial.(memory := Image(DisplayLoopProgram())), Image(DisplayLoopProgram()))
            == Outcome(State(Image(DisplayLoopProgram()), 15, 0, 1), Panicked(IndexOutOfBounds))
  {
    DisplayLoopImage();
    var image := Image(DisplayLoopProgram());
    var s := Initial.(memory := image);
    assert image[..2] == [15, 48];
    assert [15, 48][..1] == [15];
    assert [15][..0] == [];
    PanicStops(s, image, 2);
  }

  /** `main` on the class: `new()`, `load_instructions`, `run`. */
  method MainScenario() returns (memory: seq<I8>, register: I8, bcd: I8, pc: U8, status: Status)
    ensures status == Normal
    ensures register == 15 && bcd == 0 && pc == 16
    ensures |memory| == MemorySize
    ensures memory[0] == 15 && forall k | 1 <= k < |memory| :: memory[k] == 0
  {
    var c := new Computer();
    c.LoadInstructions(MainProgram());
    status := c.Run();
    MainProgramRun();
    memory, register, bcd, pc := c.memory[..], c.register, c.bcd, c.pc;
  }
}
