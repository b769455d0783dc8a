# tinycpu-sim in Dafny

A model of the toy 8-bit computer of `src/main.rs`: a `Computer` with a
16-cell `i8` memory, an `i8` accumulator `register`, an `i8` display latch
`bcd` and a `u8` program counter `pc`, and the instruction set `Inst`
(Add, And, Shl, Disp, Load, Str, Jmp, Jz, None) with its byte codec.

The model follows the code as written:

- `Inst::try_from` (module `Codec`, `Decode`) keeps the whole byte as the
  operand. Every byte below 16, negatives included, is `Add(byte)`. Bands 1
  to 6 (`byte / 16`, Euclidean) give And, Shl, Disp, Str, Jmp and Jz, so band
  4 is `Str` and `Load` is never produced. Band 7 (112..127) is the only
  error.
- `Inst::try_into` (`Encode`) returns `operand + 16 * k`, with k the
  variant's position Add = 0 … Jz = 7, and 0 for `None`. It panics, through a
  checked `i8` or `u8` addition or the `unwrap` of `i8::try_from`, exactly
  when that sum is above 127. The model gives that panic as `Panics`.
- `Computer::run` (class method `Cpu.Computer.Run`, specified by
  `Machine.RunBytes`) goes once over a copy of the 16 bytes memory held when
  it started, in index order. An undecodable byte is skipped without
  touching `pc`. Any other byte is executed and then `pc` goes up by one;
  after a `Jmp(n)` that leaves `pc == n + 1`. `pc` never selects what is
  fetched.
- The panics of `run` are an explicit outcome, `Status.Panicked(fault)`,
  that ends the pass with the fields as they were when it happened:
  - `AddOverflow`: the checked `self.register += n` leaves `i8`.
  - `IndexOutOfBounds`: `self.memory[n as usize]` with `n` outside 0..15.
  - `PcOverflow`: `self.pc += 1` with `pc == 255`.
  - `Unimplemented`: the `todo!()` on `Jz`.
- Decoded Shl, Disp and Str operands are 32..79, so these instructions
  always index outside the 16 cells. A pass therefore never changes memory
  or `bcd` (`Machine.Cycle`, `Machine.RunBytes`). A pass completes only over
  bytes in -128..31, 80..95 or 112..127.
- `load_instructions` (`Cpu.Computer.LoadInstructions`) needs every
  instruction to be encodable, because it `unwrap`s each encoding.
- `i8 & i8` is modelled bit by bit on the two's complement bits (`Bits.And8`).
  `i8 << 1` wraps, because Rust checks only the shift amount
  (`Bits.ShiftLeft`).

Consequences of the code as written, proved in the model:

- `decode(encode(i)) == i` holds only for `Add(n)` with `n < 16`
  (`Codec.DecodeEncode`); `None` comes back as `Add(0)`, and an encodable
  `Jz` lands in 112..127, which does not decode.
- `Jmp` sets `pc` and nothing else; fetching goes on with the next byte
  (`Machine.JmpDoesNotRedirect`).
- `Jz` always ends the pass with the `todo!()` panic.
- The program `[Add(15), Disp(0), Jmp(0), None × 13]` panics at its second
  byte: `Disp(0)` encodes to 48, which decodes to `Disp(48)`
  (`Scenario.DisplayLoopRun`).

Modules: `Bits` (integer widths), `Codec` (`Inst`, decode, encode),
`Machine` (the state and the semantics of `run` on values), `Cpu` (the
`Computer` class), `Scenario` (the program of `main`).

## Model

| member | source | states |
|---|---|---|
| `Bits.AsU8` | src/main.rs:75-79 | `value as u8` keeps the eight bits: same residue mod 256, unchanged for non-negative values |
| `Bits.ShiftLeft` | src/main.rs:37 | `x << 1` on `i8` is `2 * x` modulo 256, and exactly `2 * x` when that fits |
| `Bits.And8` | src/main.rs:36 | `x & y` on `i8`: with a non-negative side the result lies between 0 and that side; -1 is the identity |
| `Bits.And8Bits` | src/main.rs:36 | each of the eight bits of `x & y` is set exactly when it is set in both `x` and `y` |
| `Codec.Decode` | src/main.rs:65-82 | fails exactly on 112..127; below 16 gives `Add(byte)`; otherwise band b/16 gives And/Shl/Disp/Str/Jmp/Jz carrying the whole byte; never `Load` or `None` |
| `Codec.Encode` | src/main.rs:85-100 | succeeds exactly when `operand + 16*k` is at most 127 and then returns that sum; `None` gives 0 |
| `Codec.DecodeEncode` | src/main.rs:68-99 | `decode(encode(i)) == i` holds if and only if `i` is `Add(n)` with `n < 16` |
| `Codec.EncodeDecode` | src/main.rs:68-99 | re-encoding a decoded byte returns it if and only if it is below 16; otherwise the result is at least 16 higher |
| `Codec.NoneRoundTrip` | src/main.rs:69-70 | `None` encodes to 0, which decodes to `Add(0)` |
| `Codec.JzNeverDecodes` | src/main.rs:79-80 | every `Jz` that encodes lands in 112..127 and does not decode |
| `Machine.Advance` | src/main.rs:46 | `pc += 1` panics exactly at 255, otherwise adds one and changes nothing else |
| `Machine.Apply` | src/main.rs:34-44 | the `match` alone: when each fault happens, that each instruction changes only its target (register, bcd, one cell or pc) and the value the target gets |
| `Machine.Execute` | src/main.rs:34-46 | one instruction: when each fault happens, that each instruction changes only its target (register, bcd, one cell or pc), the new target value, and `pc` after the step |
| `Machine.Cycle` | src/main.rs:21-46 | one loop iteration: an undecodable byte changes nothing; memory and bcd never change; a completed step fetched a byte in -128..31, 80..95 or 112..127, and any other byte panics by index or `todo!` |
| `Machine.RunBytes` | src/main.rs:20-48 | a whole pass leaves memory and bcd unchanged |
| `Machine.RunAppend` | src/main.rs:21 | a pass over `a + b` is a pass over `a`, then over `b` unless it panicked |
| `Machine.PanicStops` | src/main.rs:20-48 | once a pass panics, later bytes are not fetched |
| `Machine.JmpDoesNotRedirect` | src/main.rs:21-46 | after a `Jmp` byte the pass fetches the next byte in order, with `pc` set to the byte plus one |
| `Machine.RunPc` | src/main.rs:22-46 | a completed pass leaves `pc` as computed from the bytes alone: skip on 112..127, byte + 1 on a Jmp byte, +1 otherwise |
| `Machine.PcCountsDecoded` | src/main.rs:22-46 | without Jmp bytes, `pc` grows by the number of decodable bytes |
| `Machine.RunRegister` | src/main.rs:35-36 | a completed pass leaves the register as computed from the bytes alone: adds each byte below 16 and `&`s in each byte in 16..31 |
| `Machine.NormalRunIsExecutable` | src/main.rs:34-44 | a completed pass fetched only bytes in -128..31, 80..95 or 112..127 |
| `Machine.ExecutableRunFaults` | src/main.rs:34-46 | a pass over such bytes can fail only by register or `pc` overflow |
| `Cpu.Image` | src/main.rs:14-18 | cell k of the loaded image is the encoding of instruction k |
| `Cpu.Computer.constructor` | src/main.rs:10-12 | `new()` zeroes every field |
| `Cpu.Computer.LoadInstructions` | src/main.rs:14-18 | memory becomes the image of the program; register, bcd and pc are unchanged |
| `Cpu.Computer.Execute` | src/main.rs:34-46 | the in-place match and `pc += 1` produce exactly `Machine.Execute`'s state and status |
| `Cpu.Computer.Run` | src/main.rs:20-48 | the in-place pass over the copied memory produces exactly `Machine.RunBytes` of the starting state and bytes |
| `Scenario.RunZeros` | src/main.rs:35 | zero bytes (`Add(0)`) only move `pc` on by one each |
| `Scenario.MainProgramImage` | src/main.rs:104-124 | `main`'s program loads as 15 followed by fifteen zeros |
| `Scenario.MainProgramRun` | src/main.rs:103-125 | running it from `new()` ends normally with register 15, bcd 0, pc 16 and memory unchanged |
| `Scenario.DisplayLoopRun` | src/main.rs:38 | `[Add(15), Disp(0), Jmp(0), …]` panics on an index at byte 2, with register 15 and pc 1 |
| `Scenario.MainScenario` | src/main.rs:103-125 | `new`, `load_instructions`, `run` on the class end with register 15, bcd 0, pc 16, cell 0 = 15 and other cells 0 |

## Left out

- `main`'s `dbg!` output and the `Debug` and `Default` derives: printing and boilerplate; `Default` appears only as the all-zero state of `new()`.
- A release build, where `+=` on `i8` and `u8` wraps instead of panicking: the model takes the checked (debug) semantics and reports the panic as a fault.
- The process abort that follows a Rust panic: the model stops the pass and returns the fault with the state at the point of the panic.
- A zero flag and any meaning for `Jz`: the source has `todo!()`, modelled as the `Unimplemented` fault.
- A `pc`-driven fetch loop, a halt state and a step limit: the source has none.
- `Cpu.Computer.LoadInstructions`: an unencodable instruction, which panics in the source at the `unwrap`, is excluded by its precondition rather than modelled as a fault.
