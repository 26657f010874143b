/**
 * Semantics: the machine state as a value and the effect of every
 * instruction family on it.  These functions are the specification that the
 * imperative machine in module Vm is proved to implement, and the lemmas
 * below state what the instruction set promises about them.
 *
 * Errors follow the source.  An unsupported opcode, a call on a full stack
 * and a return on an empty stack leave the state as it was and the cycle
 * goes on.  An index outside memory or outside the keypad halts the machine
 * (`Halted`), where the source would raise an exception out of its loop.
 */
module Semantics {
  import opened Wrappers
  import opened Bytes
  import opened Opcodes
  import opened Registers
  import Display
  import Timers
  import Font

  const MEMORY_SIZE: nat := 4096
  const PROGRAM_START: nat := 0x200
  const STACK_DEPTH: nat := 16
  const KEY_COUNT: nat := 16
  /** The largest 12-bit address; I never exceeds it. */
  const ADDRESS_LIMIT: nat := 0xFFF

  type KeyIndex = k: int | 0 <= k < 16

  /** The source draws `int(random.random() * 255)`, a value in 0..254. */
  type RandomByte = r: int | 0 <= r < 255

  /** A key going down or coming up, already translated to its keypad number. */
  datatype KeyEvent = KeyDown(k: KeyIndex) | KeyUp(k: KeyIndex)

  /**
   * What the world supplies to one cycle: the key events polled before the
   * fetch, the random draw CXNN uses and the key whose press ends the wait
   * of FX0A.
   */
  datatype Input = Input(events: seq<KeyEvent>, random: RandomByte, pressedKey: KeyIndex)

  datatype Fault = PcOutOfRange | MemoryOutOfRange | KeyOutOfRange

  datatype Outcome = Executed | Unsupported | StackFull | StackEmpty | Halted(fault: Fault)

  datatype Machine = Machine(
    reg: seq<byte>,
    I: nat,
    pc: nat,
    stack: seq<nat>,
    memory: seq<byte>,
    key: seq<bool>,
    delayTimer: byte,
    soundTimer: byte,
    pixels: Display.Grid)

  predicate Valid(m: Machine) {
    && |m.reg| == REGISTER_COUNT
    && m.I <= ADDRESS_LIMIT
    && |m.stack| <= STACK_DEPTH
    && |m.memory| == MEMORY_SIZE
    && |m.key| == KEY_COUNT
    && Display.IsGrid(m.pixels)
  }

  datatype Transition = Transition(next: Machine, outcome: Outcome)

  /** `block` written over `s` starting at index `at`. */
  function Overwrite(s: seq<byte>, at: nat, block: seq<byte>): (r: seq<byte>)
    requires at + |block| <= |s|
    ensures |r| == |s|
    ensures forall a :: 0 <= a < |s| ==> r[a] == if at <= a < at + |block| then block[a - at] else s[a]
  {
    s[..at] + block + s[at + |block|..]
  }

  /** Writing back what a range already holds changes nothing. */
  lemma OverwriteSame(s: seq<byte>, at: nat, block: seq<byte>)
    requires at + |block| <= |s| && block == s[at .. at + |block|]
    ensures Overwrite(s, at, block) == s
  {
    var r := Overwrite(s, at, block);
    forall a | 0 <= a < |s|
      ensures r[a] == s[a]
    {
      if at <= a < at + |block| {
        assert block[a - at] == s[a];
      }
    }
  }

  /** The range just written reads back as the block. */
  lemma OverwriteReads(s: seq<byte>, at: nat, block: seq<byte>)
    requires at + |block| <= |s|
    ensures Overwrite(s, at, block)[at .. at + |block|] == block
  {
    var r := Overwrite(s, at, block);
    forall k | 0 <= k < |block|
      ensures r[at .. at + |block|][k] == block[k]
    {
      assert r[at + k] == block[k];
    }
  }

  /** The machine after `load_font` and after loading `rom` at 0x200. */
  function Init(rom: seq<byte>): (m: Machine)
    requires |rom| <= MEMORY_SIZE - PROGRAM_START
    ensures Valid(m)
  {
    Machine(
      seq(REGISTER_COUNT, _ => 0), 0, PROGRAM_START, [],
      Font.FONT + seq(PROGRAM_START - Font.FONT_SIZE, _ => 0) + rom
        + seq(MEMORY_SIZE - PROGRAM_START - |rom|, _ => 0),
      seq(KEY_COUNT, _ => false), 0, 0, Display.Cleared())
  }

  /** Skips the next instruction when `condition` holds. */
  function SkipIf(m: Machine, condition: bool): Machine {
    if condition then m.(pc := m.pc + 2) else m
  }

  /** 00E0 clears the screen, 00EE returns from a subroutine; every other 0NNN is unsupported. */
  function Op0(m: Machine, op: Opcode): (t: Transition)
    requires Valid(m) && Family(op) == 0
    ensures Valid(t.next)
  {
    if op == 0x00E0 then Transition(m.(pixels := Display.Cleared()), Executed)
    else if op == 0x00EE then
      if |m.stack| == 0 then Transition(m, StackEmpty)
      else Transition(m.(pc := m.stack[|m.stack| - 1], stack := m.stack[..|m.stack| - 1]), Executed)
    else Transition(m, Unsupported)
  }

  /** 1NNN jumps to NNN. */
  function Op1(m: Machine, op: Opcode): (t: Transition)
    requires Valid(m) && Family(op) == 1
    ensures Valid(t.next)
  {
    Transition(m.(pc := NNN(op)), Executed)
  }

  /** 2NNN calls the subroutine at NNN, pushing the (already advanced) pc. */
  function Op2(m: Machine, op: Opcode): (t: Transition)
    requires Valid(m) && Family(op) == 2
    ensures Valid(t.next)
  {
    if |m.stack| == STACK_DEPTH then Transition(m, StackFull)
    else Transition(m.(stack := m.stack + [m.pc], pc := NNN(op)), Executed)
  }

  /** 3XNN skips when VX == NN. */
  function Op3(m: Machine, op: Opcode): (t: Transition)
    requires Valid(m) && Family(op) == 3
    ensures Valid(t.next)
  {
    Transition(SkipIf(m, m.reg[X(op)] == NN(op)), Executed)
  }

  /** 4XNN skips when VX != NN. */
  function Op4(m: Machine, op: Opcode): (t: Transition)
    requires Valid(m) && Family(op) == 4
    ensures Valid(t.next)
  {
    Transition(SkipIf(m, m.reg[X(op)] != NN(op)), Executed)
  }

  /** 5XY0 skips when VX == VY; a non-zero low nibble is unsupported. */
  function Op5(m: Machine, op: Opcode): (t: Transition)
    requires Valid(m) && Family(op) == 5
    ensures Valid(t.next)
  {
    if N(op) == 0 then Transition(SkipIf(m, m.reg[X(op)] == m.reg[Y(op)]), Executed)
    else Transition(m, Unsupported)
  }

  /** 6XNN sets VX to NN. */
  function Op6(m: Machine, op: Opcode): (t: Transition)
    requires Valid(m) && Family(op) == 6
    ensures Valid(t.next)
  {
    Transition(m.(reg := m.reg[X(op) := NN(op)]), Executed)
  }

  /** 7XNN adds NN to VX modulo 256 (the source masks with 0xff); VF is not touched. */
  function Op7(m: Machine, op: Opcode): (t: Transition)
    requires Valid(m) && Family(op) == 7
    ensures Valid(t.next)
  {
    Transition(m.(reg := m.reg[X(op) := (m.reg[X(op)] as int + NN(op)) % 0x100]), Executed)
  }

  /** 8XY_ combines VX and VY. */
  function Op8(m: Machine, op: Opcode): (t: Transition)
    requires Valid(m) && Family(op) == 8
    ensures Valid(t.next)
  {
    match Alu(m.reg, X(op), Y(op), N(op))
    case Some(r) => Transition(m.(reg := r), Executed)
    case None => Transition(m, Unsupported)
  }

  /** 9XY0 skips when VX != VY; a non-zero low nibble is unsupported. */
  function Op9(m: Machine, op: Opcode): (t: Transition)
    requires Valid(m) && Family(op) == 9
    ensures Valid(t.next)
  {
    if N(op) == 0 then Transition(SkipIf(m, m.reg[X(op)] != m.reg[Y(op)]), Executed)
    else Transition(m, Unsupported)
  }

  /** ANNN sets I to NNN. */
  function OpA(m: Machine, op: Opcode): (t: Transition)
    requires Valid(m) && Family(op) == 0xA
    ensures Valid(t.next)
  {
    Transition(m.(I := NNN(op)), Executed)
  }

  /** BNNN jumps to NNN + V0 (unchecked: a target past memory halts the next fetch). */
  function OpB(m: Machine, op: Opcode): (t: Transition)
    requires Valid(m) && Family(op) == 0xB
    ensures Valid(t.next)
  {
    Transition(m.(pc := NNN(op) + m.reg[0]), Executed)
  }

  /** CXNN sets VX to a random draw AND NN. */
  function OpC(m: Machine, op: Opcode, random: RandomByte): (t: Transition)
    requires Valid(m) && Family(op) == 0xC
    ensures Valid(t.next)
  {
    Transition(m.(reg := m.reg[X(op) := BitAnd(random, NN(op))]), Executed)
  }

  /** The N sprite rows DXYN draws: memory[I .. I + N]. */
  function Sprite(m: Machine, op: Opcode): (rows: seq<byte>)
    requires Valid(m) && m.I + N(op) <= MEMORY_SIZE
    ensures |rows| == N(op) && forall i :: 0 <= i < N(op) ==> rows[i] == m.memory[m.I + i]
  {
    m.memory[m.I .. m.I + N(op)]
  }

  /**
   * DXYN draws the N-row sprite at memory[I] at (VX, VY) by XOR and sets VF
   * to the collision flag.  A sprite that runs past the end of memory halts.
   */
  function OpD(m: Machine, op: Opcode): (t: Transition)
    requires Valid(m) && Family(op) == 0xD
    ensures Valid(t.next)
  {
    if m.I + N(op) > MEMORY_SIZE then Transition(m, Halted(MemoryOutOfRange))
    else
      var rows, x, y := Sprite(m, op), m.reg[X(op)], m.reg[Y(op)];
      var flag := if Display.Collides(m.pixels, rows, x, y) then 1 else 0;
      Transition(m.(pixels := Display.Draw(m.pixels, rows, x, y), reg := m.reg[VF := flag]), Executed)
  }

  /** EX9E / EXA1 skip when the key numbered VX is / is not pressed. */
  function OpE(m: Machine, op: Opcode): (t: Transition)
    requires Valid(m) && Family(op) == 0xE
    ensures Valid(t.next)
  {
    var k := m.reg[X(op)];
    if NN(op) == 0x9E then
      if k >= KEY_COUNT then Transition(m, Halted(KeyOutOfRange))
      else Transition(SkipIf(m, m.key[k]), Executed)
    else if NN(op) == 0xA1 then
      if k >= KEY_COUNT then Transition(m, Halted(KeyOutOfRange))
      else Transition(SkipIf(m, !m.key[k]), Executed)
    else Transition(m, Unsupported)
  }

  /** FX1E adds VX to I; a sum past 0xFFF wraps around and sets VF. */
  function AddIndex(m: Machine, x: RegIndex): (t: Transition)
    requires Valid(m)
    ensures Valid(t.next) && t.outcome == Executed
  {
    var sum := m.I + m.reg[x];
    if sum > ADDRESS_LIMIT then Transition(m.(I := sum - 0x1000, reg := m.reg[VF := 1]), Executed)
    else Transition(m.(I := sum, reg := m.reg[VF := 0]), Executed)
  }

  /** FX33 writes the three decimal digits of VX to memory[I], memory[I+1], memory[I+2]. */
  function StoreBcd(m: Machine, x: RegIndex): (t: Transition)
    requires Valid(m)
    ensures Valid(t.next)
  {
    var vx: int := m.reg[x];
    if m.I + 2 >= MEMORY_SIZE then Transition(m, Halted(MemoryOutOfRange))
    else Transition(m.(memory := m.memory[m.I := vx / 100][m.I + 1 := (vx / 10) % 10][m.I + 2 := vx % 10]), Executed)
  }

  /** FX55 writes V0..VX to memory from I on. */
  function StoreBlock(m: Machine, x: RegIndex): (t: Transition)
    requires Valid(m)
    ensures Valid(t.next)
  {
    if m.I + x >= MEMORY_SIZE then Transition(m, Halted(MemoryOutOfRange))
    else Transition(m.(memory := Overwrite(m.memory, m.I, m.reg[..x + 1])), Executed)
  }

  /** FX65 fills V0..VX from memory from I on. */
  function LoadBlock(m: Machine, x: RegIndex): (t: Transition)
    requires Valid(m)
    ensures Valid(t.next)
  {
    if m.I + x >= MEMORY_SIZE then Transition(m, Halted(MemoryOutOfRange))
    else Transition(m.(reg := Overwrite(m.reg, 0, m.memory[m.I .. m.I + x + 1])), Executed)
  }

  /** FX__: timers, keypad wait, I arithmetic, BCD and register block transfers. */
  function OpF(m: Machine, op: Opcode, pressedKey: KeyIndex): (t: Transition)
    requires Valid(m) && Family(op) == 0xF
    ensures Valid(t.next)
  {
    var x := X(op);
    var sub := NN(op);
    if sub == 0x07 then Transition(m.(reg := m.reg[x := m.delayTimer]), Executed)
    else if sub == 0x0A then Transition(m.(reg := m.reg[x := pressedKey]), Executed)
    else if sub == 0x15 then Transition(m.(delayTimer := m.reg[x]), Executed)
    else if sub == 0x18 then Transition(m.(soundTimer := m.reg[x]), Executed)
    else if sub == 0x1E then AddIndex(m, x)
    else if sub == 0x29 then Transition(m.(I := m.reg[x] as int * Font.GLYPH_HEIGHT), Executed)
    else if sub == 0x33 then StoreBcd(m, x)
    else if sub == 0x55 then StoreBlock(m, x)
    else if sub == 0x65 then LoadBlock(m, x)
    else Transition(m, Unsupported)
  }

  /** Dispatch on the top nibble, as `run` does by calling the handler named after the hexadecimal digit `opcode >> 12`. */
  function Execute(m: Machine, op: Opcode, input: Input): (t: Transition)
    requires Valid(m)
    ensures Valid(t.next)
  {
    match Family(op)
    case 0 => Op0(m, op)
    case 1 => Op1(m, op)
    case 2 => Op2(m, op)
    case 3 => Op3(m, op)
    case 4 => Op4(m, op)
    case 5 => Op5(m, op)
    case 6 => Op6(m, op)
    case 7 => Op7(m, op)
    case 8 => Op8(m, op)
    case 9 => Op9(m, op)
    case 10 => OpA(m, op)
    case 11 => OpB(m, op)
    case 12 => OpC(m, op, input.random)
    case 13 => OpD(m, op)
    case 14 => OpE(m, op)
    case 15 => OpF(m, op, input.pressedKey)
  }

  /** Both timers after one decrement. */
  function TickTimers(m: Machine): Machine {
    m.(delayTimer := Timers.Tick(m.delayTimer), soundTimer := Timers.Tick(m.soundTimer))
  }

  /**
   * One cycle of `run`: fetch the big-endian opcode at pc, advance pc by 2,
   * execute the handler of its family, then tick both timers.  A fetch past
   * the end of memory, or a handler that halts, ends the cycle there.
   */
  function Step(m: Machine, input: Input): (t: Transition)
    requires Valid(m)
    ensures Valid(t.next)
  {
    if m.pc + 1 >= MEMORY_SIZE then Transition(m, Halted(PcOutOfRange))
    else Advance(m, Fetch(m.memory, m.pc), input)
  }

  /** The rest of a cycle once `op` is fetched: advance pc by 2, execute, finish. */
  function Advance(m: Machine, op: Opcode, input: Input): (t: Transition)
    requires Valid(m)
    ensures Valid(t.next)
  {
    Finish(Execute(Fetched(m), op, input))
  }

  /** The machine once the fetch has moved pc past the two-byte instruction. */
  function Fetched(m: Machine): (r: Machine)
    requires Valid(m)
    ensures Valid(r)
  {
    m.(pc := m.pc + 2)
  }

  /** The rest of a cycle is its handler's transition, finished. */
  lemma AdvanceFinishes(m: Machine, op: Opcode, input: Input, t: Transition)
    requires Valid(m) && t == Finish(Execute(Fetched(m), op, input))
    ensures t == Advance(m, op, input)
  {
  }

  /** The end of a cycle: a handler that halted ends it there, otherwise both timers tick. */
  function Finish(e: Transition): (t: Transition)
    requires Valid(e.next)
    ensures Valid(t.next)
  {
    if e.outcome.Halted? then e else Transition(TickTimers(e.next), e.outcome)
  }

  /** The keypad after one event: down sets the key, up clears it. */
  function Press(m: Machine, e: KeyEvent): (r: Machine)
    requires Valid(m)
    ensures Valid(r) && r == m.(key := r.key)
    ensures forall k :: 0 <= k < KEY_COUNT && k != e.k ==> r.key[k] == m.key[k]
  {
    m.(key := m.key[e.k := e.KeyDown?])
  }

  /** The keypad after the events of one poll, taken in order. */
  function ApplyKeys(m: Machine, events: seq<KeyEvent>): (r: Machine)
    requires Valid(m)
    ensures Valid(r) && r == m.(key := r.key)
    decreases |events|
  {
    if events == [] then m
    else Press(ApplyKeys(m, events[..|events| - 1]), events[|events| - 1])
  }

  /** One iteration of the driver loop: poll the key events, then one cycle. */
  function Cycle(m: Machine, input: Input): (t: Transition)
    requires Valid(m)
    ensures Valid(t.next)
  {
    Step(ApplyKeys(m, input.events), input)
  }

  /** Where a run ends: the state and, if it halted, why. */
  datatype RunEnd = RunEnd(final: Machine, fault: Option<Fault>)

  /** The driver loop over one input per cycle, until the inputs run out or a cycle halts. */
  function Run(m: Machine, inputs: seq<Input>): (e: RunEnd)
    requires Valid(m)
    ensures Valid(e.final)
    decreases |inputs|
  {
    if inputs == [] then RunEnd(m, None)
    else
      var t := Cycle(m, inputs[0]);
      if t.outcome.Halted? then RunEnd(t.next, Some(t.outcome.fault)) else Run(t.next, inputs[1..])
  }
}
