/**
 * Vm: the virtual machine as the object the source builds, its registers,
 * memory, keypad and screen held in arrays that the handlers update in
 * place.  Every method is proved to have exactly the effect that module
 * Semantics gives the same instruction, through the abstraction State().
 */
module Vm {
  import opened Wrappers
  import opened Bytes
  import opened Opcodes
  import opened Registers
  import opened Semantics
  import Display
  import Timers
  import Font

  class Chip8 {
    /** V0..VF. */
    const reg: array<byte>
    /** The 12-bit address register. */
    var I: nat
    var pc: nat
    /** Return addresses, most recent last. */
    var stack: seq<nat>
    const memory: array<byte>
    /** Keypad state, true while a key is held down. */
    const key: array<bool>
    var delayTimer: byte
    var soundTimer: byte
    /** The screen, `pixels[row, column]`; 00E0 replaces it by a fresh dark one. */
    var pixels: array2<bool>

    ghost predicate Valid()
      reads this
    {
      && reg.Length == REGISTER_COUNT
      && memory.Length == MEMORY_SIZE
      && key.Length == KEY_COUNT
      && pixels.Length0 == Display.HEIGHT && pixels.Length1 == Display.WIDTH
      && reg != memory
      && I <= ADDRESS_LIMIT
      && |stack| <= STACK_DEPTH
    }

    /** The screen array as a grid value. */
    static ghost function GridOf(p: array2<bool>): (g: Display.Grid)
      reads p
      requires p.Length0 == Display.HEIGHT && p.Length1 == Display.WIDTH
      ensures Display.IsGrid(g)
      ensures forall r, c :: 0 <= r < Display.HEIGHT && 0 <= c < Display.WIDTH ==> g[r][c] == p[r, c]
    {
      seq(Display.HEIGHT, r requires 0 <= r < Display.HEIGHT reads p =>
        seq(Display.WIDTH, c requires 0 <= c < Display.WIDTH reads p => p[r, c]))
    }

    /** The whole machine as a value of the specification. */
    ghost function State(): (m: Machine)
      reads this, reg, memory, key, pixels
      requires Valid()
      ensures Semantics.Valid(m)
    {
      Machine(reg[..], I, pc, stack, memory[..], key[..], delayTimer, soundTimer, GridOf(pixels))
    }

    /** Writes the font glyphs to memory[0..80] and leaves the rest. */
    static method LoadFont(mem: array<byte>)
      requires mem.Length == MEMORY_SIZE
      modifies mem
      ensures mem[..Font.FONT_SIZE] == Font.FONT
      ensures mem[Font.FONT_SIZE..] == old(mem[Font.FONT_SIZE..])
    {
      forall a | 0 <= a < Font.FONT_SIZE {
        mem[a] := Font.FONT[a];
      }
    }

    /** Copies the ROM image byte by byte to memory from 0x200 on. */
    static method LoadRom(mem: array<byte>, rom: seq<byte>)
      requires mem.Length == MEMORY_SIZE && |rom| <= MEMORY_SIZE - PROGRAM_START
      modifies mem
      ensures mem[..] == Overwrite(old(mem[..]), PROGRAM_START, rom)
    {
      var pos := PROGRAM_START;
      while pos < PROGRAM_START + |rom|
        invariant PROGRAM_START <= pos <= PROGRAM_START + |rom|
        invariant forall a :: 0 <= a < MEMORY_SIZE ==>
          mem[a] == if PROGRAM_START <= a < pos then rom[a - PROGRAM_START] else old(mem[a])
      {
        mem[pos] := rom[pos - PROGRAM_START];
        pos := pos + 1;
      }
      assert mem[..] == Overwrite(old(mem[..]), PROGRAM_START, rom) by {
        forall a | 0 <= a < MEMORY_SIZE
          ensures mem[..][a] == Overwrite(old(mem[..]), PROGRAM_START, rom)[a]
        {
        }
      }
    }

    /** A fresh machine: everything zero, the font and the ROM loaded, pc at 0x200. */
    constructor (rom: seq<byte>)
      requires |rom| <= MEMORY_SIZE - PROGRAM_START
      ensures Valid() && State() == Init(rom)
      ensures fresh(reg) && fresh(memory) && fresh(key) && fresh(pixels)
    {
      reg := new byte[REGISTER_COUNT](_ => 0);
      I := 0;
      stack := [];
      var mem := new byte[MEMORY_SIZE](_ => 0);
      key := new bool[KEY_COUNT](_ => false);
      delayTimer, soundTimer := 0, 0;
      LoadFont(mem);
      ghost var afterFont := mem[..];
      LoadRom(mem, rom);
      memory := mem;
      pc := PROGRAM_START;
      pixels := new bool[Display.HEIGHT, Display.WIDTH]((_, _) => false);
      new;
      Display.GridExtensionality(GridOf(pixels), Display.Cleared());
      ghost var image := Init(rom).memory;
      assert memory[..] == image by {
        forall a | 0 <= a < MEMORY_SIZE
          ensures memory[..][a] == image[a]
        {
          if a < Font.FONT_SIZE {
            assert afterFont[..Font.FONT_SIZE][a] == Font.FONT[a];
          } else {
            assert afterFont[Font.FONT_SIZE..][a - Font.FONT_SIZE] == 0;
          }
        }
      }
    }

    /** The keypad after the polled events, in order. */
    method HandleEvents(events: seq<KeyEvent>)
      requires Valid()
      modifies key
      ensures Valid() && State() == ApplyKeys(old(State()), events)
    {
      var i := 0;
      while i < |events|
        invariant 0 <= i <= |events|
        invariant State() == ApplyKeys(old(State()), events[..i])
      {
        var e := events[i];
        key[e.k] := e.KeyDown?;
        assert events[..i + 1][..i] == events[..i];
        i := i + 1;
      }
      assert events[..|events|] == events;
    }

    method Op0(op: Opcode) returns (outcome: Outcome)
      requires Valid() && Family(op) == 0
      modifies this
      ensures Valid() && (pixels == old(pixels) || fresh(pixels))
      ensures Transition(State(), outcome) == Semantics.Op0(old(State()), op)
    {
      if op == 0x00E0 {
        pixels := new bool[Display.HEIGHT, Display.WIDTH]((_, _) => false);
        Display.GridExtensionality(GridOf(pixels), Display.Cleared());
        outcome := Executed;
      } else if op == 0x00EE {
        if |stack| == 0 {
          outcome := StackEmpty;
        } else {
          pc := stack[|stack| - 1];
          stack := stack[..|stack| - 1];
          outcome := Executed;
        }
      } else {
        outcome := Unsupported;
      }
    }

    method Op1(op: Opcode) returns (outcome: Outcome)
      requires Valid() && Family(op) == 1
      modifies this
      ensures Valid() && pixels == old(pixels)
      ensures Transition(State(), outcome) == Semantics.Op1(old(State()), op)
    {
      pc := NNN(op);
      outcome := Executed;
    }

    method Op2(op: Opcode) returns (outcome: Outcome)
      requires Valid() && Family(op) == 2
      modifies this
      ensures Valid() && pixels == old(pixels)
      ensures Transition(State(), outcome) == Semantics.Op2(old(State()), op)
    {
      if |stack| == STACK_DEPTH {
        outcome := StackFull;
      } else {
        stack := stack + [pc];
        pc := NNN(op);
        outcome := Executed;
      }
    }

    method Op3(op: Opcode) returns (outcome: Outcome)
      requires Valid() && Family(op) == 3
      modifies this
      ensures Valid() && pixels == old(pixels)
      ensures Transition(State(), outcome) == Semantics.Op3(old(State()), op)
    {
      if reg[X(op)] == NN(op) {
        pc := pc + 2;
      }
      outcome := Executed;
    }

    method Op4(op: Opcode) returns (outcome: Outcome)
      requires Valid() && Family(op) == 4
      modifies this
      ensures Valid() && pixels == old(pixels)
      ensures Transition(State(), outcome) == Semantics.Op4(old(State()), op)
    {
      if reg[X(op)] != NN(op) {
        pc := pc + 2;
      }
      outcome := Executed;
    }

    method Op5(op: Opcode) returns (outcome: Outcome)
      requires Valid() && Family(op) == 5
      modifies this
      ensures Valid() && pixels == old(pixels)
      ensures Transition(State(), outcome) == Semantics.Op5(old(State()), op)
    {
      if N(op) == 0 {
        if reg[X(op)] == reg[Y(op)] {
          pc := pc + 2;
        }
        outcome := Executed;
      } else {
        outcome := Unsupported;
      }
    }

    method Op6(op: Opcode) returns (outcome: Outcome)
      requires Valid() && Family(op) == 6
      modifies reg
      ensures Valid()
      ensures Transition(State(), outcome) == Semantics.Op6(old(State()), op)
    {
      reg[X(op)] := NN(op);
      outcome := Executed;
    }

    method Op7(op: Opcode) returns (outcome: Outcome)
      requires Valid() && Family(op) == 7
      modifies reg
      ensures Valid()
      ensures Transition(State(), outcome) == Semantics.Op7(old(State()), op)
    {
      var x := X(op);
      reg[x] := (reg[x] as int + NN(op)) % 0x100;
      outcome := Executed;
    }

    method Op8(op: Opcode) returns (outcome: Outcome)
      requires Valid() && Family(op) == 8
      modifies reg
      ensures Valid()
      ensures Transition(State(), outcome) == Semantics.Op8(old(State()), op)
    {
      ghost var before := State();
      var ok := ApplyAlu(X(op), Y(op), N(op));
      outcome := if ok then Executed else Unsupported;
      assert State() == before.(reg := reg[..]);
    }

    /** The 8XY_ sub-operation `sub` on the register array, in place. */
    method ApplyAlu(x: RegIndex, y: RegIndex, sub: nat) returns (ok: bool)
      requires Valid()
      modifies reg
      ensures Valid()
      ensures Registers.Alu(old(reg[..]), x, y, sub) == if ok then Some(reg[..]) else None
      ensures !ok ==> reg[..] == old(reg[..])
    {
      ok := true;
      if sub == 0 {
        reg[x] := reg[y];
      } else if sub == 1 {
        reg[x] := BitOr(reg[x], reg[y]);
      } else if sub == 2 {
        reg[x] := BitAnd(reg[x], reg[y]);
      } else if sub == 3 {
        reg[x] := BitXor(reg[x], reg[y]);
      } else if sub == 4 {
        var sum := reg[x] as int + reg[y];
        if sum > 0xFF {
          reg[x] := sum - 0x100;
          reg[VF] := 1;
        } else {
          reg[x] := sum;
          reg[VF] := 0;
        }
      } else if sub == 5 {
        if reg[x] >= reg[y] {
          reg[x] := reg[x] - reg[y];
          reg[VF] := 1;
        } else {
          reg[x] := reg[x] as int + 0x100 - reg[y];
          reg[VF] := 0;
        }
      } else if sub == 6 {
        reg[VF] := reg[x] % 2;
        reg[x] := reg[x] / 2;
      } else if sub == 7 {
        if reg[y] >= reg[x] {
          reg[x] := reg[y] - reg[x];
          reg[VF] := 1;
        } else {
          reg[x] := reg[y] as int + 0x100 - reg[x];
          reg[VF] := 0;
        }
      } else if sub == 0xE {
        reg[VF] := (reg[x] / 0x80) % 2;
        reg[x] := (reg[x] as int * 2) % 0x100;
      } else {
        ok := false;
      }
    }

    method Op9(op: Opcode) returns (outcome: Outcome)
      requires Valid() && Family(op) == 9
      modifies this
      ensures Valid() && pixels == old(pixels)
      ensures Transition(State(), outcome) == Semantics.Op9(old(State()), op)
    {
      if N(op) == 0 {
        if reg[X(op)] != reg[Y(op)] {
          pc := pc + 2;
        }
        outcome := Executed;
      } else {
        outcome := Unsupported;
      }
    }

    method OpA(op: Opcode) returns (outcome: Outcome)
      requires Valid() && Family(op) == 0xA
      modifies this
      ensures Valid() && pixels == old(pixels)
      ensures Transition(State(), outcome) == Semantics.OpA(old(State()), op)
    {
      I := NNN(op);
      outcome := Executed;
    }

    method OpB(op: Opcode) returns (outcome: Outcome)
      requires Valid() && Family(op) == 0xB
      modifies this
      ensures Valid() && pixels == old(pixels)
      ensures Transition(State(), outcome) == Semantics.OpB(old(State()), op)
    {
      pc := NNN(op) + reg[0];
      outcome := Executed;
    }

    method OpC(op: Opcode, random: RandomByte) returns (outcome: Outcome)
      requires Valid() && Family(op) == 0xC
      modifies reg
      ensures Valid()
      ensures Transition(State(), outcome) == Semantics.OpC(old(State()), op, random)
    {
      reg[X(op)] := BitAnd(random, NN(op));
      outcome := Executed;
    }

    /**
     * One row of DXYN: each set bit of `row` toggles its pixel on screen row
     * (y + i) mod 32, and VF is raised whenever a toggle turns a pixel off.
     * Before and after, the screen is `g` with the bits drawn so far toggled
     * and VF tells whether one of them hit a lit pixel of `g`.
     */
    method DrawRow(ghost g: Display.Grid, ghost rows: seq<byte>, ghost regs: seq<byte>, x: nat, y: nat, i: nat, row: byte)
      requires Valid() && Display.IsGrid(g) && |regs| == REGISTER_COUNT
      requires i < |rows| <= Display.HEIGHT && row == rows[i]
      requires reg[..] == regs[VF := if Display.CollidedBefore(g, rows, x, y, i, 0) then 1 else 0]
      requires forall r, c :: 0 <= r < Display.HEIGHT && 0 <= c < Display.WIDTH ==>
        pixels[r, c] == (g[r][c] != Display.DrawnBefore(rows, x, y, i, 0, r, c))
      modifies reg, pixels
      ensures reg[..] == regs[VF := if Display.CollidedBefore(g, rows, x, y, i + 1, 0) then 1 else 0]
      ensures forall r, c :: 0 <= r < Display.HEIGHT && 0 <= c < Display.WIDTH ==>
        pixels[r, c] == (g[r][c] != Display.DrawnBefore(rows, x, y, i + 1, 0, r, c))
    {
      var ymod := (y + i) % Display.HEIGHT;
      var j := 0;
      while j < Display.SPRITE_WIDTH
        invariant 0 <= j <= Display.SPRITE_WIDTH
        invariant reg[..] == regs[VF := if Display.CollidedBefore(g, rows, x, y, i, j) then 1 else 0]
        invariant forall r, c :: 0 <= r < Display.HEIGHT && 0 <= c < Display.WIDTH ==>
          pixels[r, c] == (g[r][c] != Display.DrawnBefore(rows, x, y, i, j, r, c))
      {
        var xmod := (x + j) % Display.WIDTH;
        Display.DrawStep(rows, x, y, i, j);
        Display.CollideStep(g, rows, x, y, i, j);
        if (row / Pow2(7 - j)) % 2 == 1 {
          pixels[ymod, xmod] := !pixels[ymod, xmod];
          if !pixels[ymod, xmod] {
            reg[VF] := 1;
          }
        }
        j := j + 1;
      }
      Display.DrawRowDone(rows, x, y, i);
      Display.CollideRowDone(g, rows, x, y, i);
    }

    /**
     * The row loop of DXYN, entered with VF cleared and the screen `g`: it
     * leaves the screen drawn with `rows` and VF set to the collision flag.
     */
    method DrawSprite(ghost g: Display.Grid, ghost rows: seq<byte>, ghost regs: seq<byte>, x: nat, y: nat, height: nat)
      requires Valid() && Display.IsGrid(g) && |regs| == REGISTER_COUNT
      requires height == |rows| <= Display.HEIGHT && I + height <= MEMORY_SIZE
      requires forall i :: 0 <= i < height ==> rows[i] == memory[I + i]
      requires reg[..] == regs[VF := 0]
      requires forall r, c :: 0 <= r < Display.HEIGHT && 0 <= c < Display.WIDTH ==> pixels[r, c] == g[r][c]
      modifies reg, pixels
      ensures reg[..] == regs[VF := if Display.Collides(g, rows, x, y) then 1 else 0]
      ensures forall r, c :: 0 <= r < Display.HEIGHT && 0 <= c < Display.WIDTH ==>
        pixels[r, c] == (g[r][c] != Display.Covers(rows, x, y, r, c))
    {
      var i := 0;
      while i < height
        invariant 0 <= i <= height
        invariant reg[..] == regs[VF := if Display.CollidedBefore(g, rows, x, y, i, 0) then 1 else 0]
        invariant forall r, c :: 0 <= r < Display.HEIGHT && 0 <= c < Display.WIDTH ==>
          pixels[r, c] == (g[r][c] != Display.DrawnBefore(rows, x, y, i, 0, r, c))
      {
        DrawRow(g, rows, regs, x, y, i, memory[I + i]);
        i := i + 1;
      }
    }

    /** DXYN: VF is cleared, then the N sprite rows at memory[I] are drawn one by one. */
    method OpD(op: Opcode) returns (outcome: Outcome)
      requires Valid() && Family(op) == 0xD
      modifies reg, pixels
      ensures Valid()
      ensures Transition(State(), outcome) == Semantics.OpD(old(State()), op)
    {
      var height := N(op);
      if I + height > MEMORY_SIZE {
        return Halted(MemoryOutOfRange);
      }
      ghost var m := State();
      ghost var g := GridOf(pixels);
      ghost var rows := Sprite(m, op);
      var x, y := reg[X(op)], reg[Y(op)];
      reg[VF] := 0;
      DrawSprite(g, rows, m.reg, x, y, height);
      ghost var d := Display.Draw(g, rows, x, y);
      Display.GridExtensionality(GridOf(pixels), d);
      assert State() == m.(pixels := d, reg := m.reg[VF := if Display.Collides(g, rows, x, y) then 1 else 0]);
      outcome := Executed;
    }

    method OpE(op: Opcode) returns (outcome: Outcome)
      requires Valid() && Family(op) == 0xE
      modifies this
      ensures Valid() && pixels == old(pixels)
      ensures Transition(State(), outcome) == Semantics.OpE(old(State()), op)
    {
      var sub := NN(op);
      var k := reg[X(op)];
      if sub == 0x9E {
        if k >= KEY_COUNT {
          return Halted(KeyOutOfRange);
        }
        if key[k] {
          pc := pc + 2;
        }
        outcome := Executed;
      } else if sub == 0xA1 {
        if k >= KEY_COUNT {
          return Halted(KeyOutOfRange);
        }
        if !key[k] {
          pc := pc + 2;
        }
        outcome := Executed;
      } else {
        outcome := Unsupported;
      }
    }

    /** FX1E: I += VX, wrapped back into 12 bits with VF as the overflow flag. */
    method AddIndex(x: RegIndex) returns (outcome: Outcome)
      requires Valid()
      modifies this, reg
      ensures Valid() && pixels == old(pixels)
      ensures Transition(State(), outcome) == Semantics.AddIndex(old(State()), x)
    {
      I := I + reg[x];
      if I > ADDRESS_LIMIT {
        I := I - 0x1000;
        reg[VF] := 1;
      } else {
        reg[VF] := 0;
      }
      outcome := Executed;
    }

    /** FX33: the decimal digits of VX to memory[I], memory[I+1], memory[I+2]. */
    method StoreBcd(x: RegIndex) returns (outcome: Outcome)
      requires Valid()
      modifies memory
      ensures Valid()
      ensures Transition(State(), outcome) == Semantics.StoreBcd(old(State()), x)
    {
      if I + 2 >= MEMORY_SIZE {
        return Halted(MemoryOutOfRange);
      }
      var temp := reg[x];
      memory[I] := temp / 100;
      memory[I + 1] := (temp / 10) % 10;
      memory[I + 2] := temp % 10;
      outcome := Executed;
    }

    /** FX55: V0..VX to memory[I..I+X], one register at a time. */
    method StoreBlock(x: RegIndex) returns (outcome: Outcome)
      requires Valid()
      modifies memory
      ensures Valid()
      ensures Transition(State(), outcome) == Semantics.StoreBlock(old(State()), x)
    {
      if I + x >= MEMORY_SIZE {
        return Halted(MemoryOutOfRange);
      }
      var i := 0;
      while i <= x
        invariant 0 <= i <= x + 1
        invariant forall a :: 0 <= a < MEMORY_SIZE ==>
          memory[a] == if I <= a < I + i then reg[a - I] else old(memory[a])
      {
        memory[I + i] := reg[i];
        i := i + 1;
      }
      assert memory[..] == Overwrite(old(memory[..]), I, reg[..x + 1]) by {
        forall a | 0 <= a < MEMORY_SIZE
          ensures memory[..][a] == Overwrite(old(memory[..]), I, reg[..x + 1])[a]
        {
        }
      }
      outcome := Executed;
    }

    /** FX65: memory[I..I+X] to V0..VX, one register at a time. */
    method LoadBlock(x: RegIndex) returns (outcome: Outcome)
      requires Valid()
      modifies reg
      ensures Valid()
      ensures Transition(State(), outcome) == Semantics.LoadBlock(old(State()), x)
    {
      if I + x >= MEMORY_SIZE {
        return Halted(MemoryOutOfRange);
      }
      ghost var before := State();
      var i := 0;
      while i <= x
        invariant 0 <= i <= x + 1
        invariant forall k :: 0 <= k < REGISTER_COUNT ==>
          reg[k] == if k < i then memory[I + k] else old(reg[k])
      {
        reg[i] := memory[I + i];
        i := i + 1;
      }
      assert reg[..] == Overwrite(old(reg[..]), 0, memory[I .. I + x + 1]) by {
        forall k | 0 <= k < REGISTER_COUNT
          ensures reg[..][k] == Overwrite(old(reg[..]), 0, memory[I .. I + x + 1])[k]
        {
        }
      }
      assert State() == before.(reg := reg[..]);
      outcome := Executed;
    }

    method OpF(op: Opcode, pressedKey: KeyIndex) returns (outcome: Outcome)
      requires Valid() && Family(op) == 0xF
      modifies this, reg, memory
      ensures Valid() && pixels == old(pixels)
      ensures Transition(State(), outcome) == Semantics.OpF(old(State()), op, pressedKey)
    {
      var sub, x := NN(op), X(op);
      outcome := Executed;
      if sub == 0x07 {
        reg[x] := delayTimer;
      } else if sub == 0x0A {
        reg[x] := pressedKey;
      } else if sub == 0x15 {
        delayTimer := reg[x];
      } else if sub == 0x18 {
        soundTimer := reg[x];
      } else if sub == 0x1E {
        outcome := AddIndex(x);
      } else if sub == 0x29 {
        I := reg[x] as int * Font.GLYPH_HEIGHT;
      } else if sub == 0x33 {
        outcome := StoreBcd(x);
      } else if sub == 0x55 {
        outcome := StoreBlock(x);
      } else if sub == 0x65 {
        outcome := LoadBlock(x);
      } else {
        outcome := Unsupported;
      }
    }

    /** Runs the handler of the opcode's family, as `run` looks it up by name. */
    method Execute(op: Opcode, input: Input) returns (outcome: Outcome)
      requires Valid()
      modifies this, reg, memory, pixels
      ensures Valid() && (pixels == old(pixels) || fresh(pixels))
      ensures Transition(State(), outcome) == Semantics.Execute(old(State()), op, input)
    {
      var family := op / 0x1000;
      if family < 8 {
        outcome := ExecuteLow(op);
      } else {
        outcome := ExecuteHigh(op, input);
      }
    }

    /** Families 0 to 7. */
    method ExecuteLow(op: Opcode) returns (outcome: Outcome)
      requires Valid() && Family(op) < 8
      modifies this, reg
      ensures Valid() && (pixels == old(pixels) || fresh(pixels))
      ensures Transition(State(), outcome) == Semantics.Execute(old(State()), op, Input([], 0, 0))
    {
      var family := op / 0x1000;
      if family == 0 {
        outcome := Op0(op);
      } else if family == 1 {
        outcome := Op1(op);
      } else if family == 2 {
        outcome := Op2(op);
      } else if family == 3 {
        outcome := Op3(op);
      } else if family == 4 {
        outcome := Op4(op);
      } else if family == 5 {
        outcome := Op5(op);
      } else if family == 6 {
        outcome := Op6(op);
      } else {
        outcome := Op7(op);
      }
    }

    /** Families 8 to F. */
    method ExecuteHigh(op: Opcode, input: Input) returns (outcome: Outcome)
      requires Valid() && Family(op) >= 8
      modifies this, reg, memory, pixels
      ensures Valid() && pixels == old(pixels)
      ensures Transition(State(), outcome) == Semantics.Execute(old(State()), op, input)
    {
      var family := op / 0x1000;
      if family == 8 {
        outcome := Op8(op);
      } else if family == 9 {
        outcome := Op9(op);
      } else if family == 0xA {
        outcome := OpA(op);
      } else if family == 0xB {
        outcome := OpB(op);
      } else if family == 0xC {
        outcome := OpC(op, input.random);
      } else if family == 0xD {
        outcome := OpD(op);
      } else if family == 0xE {
        outcome := OpE(op);
      } else {
        outcome := OpF(op, input.pressedKey);
      }
    }

    /** Fetch the big-endian opcode at pc and run the rest of the cycle on it. */
    method Step(input: Input) returns (outcome: Outcome)
      requires Valid()
      modifies this, reg, memory, pixels
      ensures Valid() && (pixels == old(pixels) || fresh(pixels))
      ensures Transition(State(), outcome) == Semantics.Step(old(State()), input)
    {
      if pc + 1 >= MEMORY_SIZE {
        return Halted(PcOutOfRange);
      }
      var op: Opcode := memory[pc] as int * 0x100 + memory[pc + 1];
      assert op == Fetch(memory[..], pc);
      outcome := Advance(op, input);
    }

    /** Advance pc by 2, run the handler of `op`, then tick both timers unless it halted. */
    method Advance(op: Opcode, input: Input) returns (outcome: Outcome)
      requires Valid()
      modifies this, reg, memory, pixels
      ensures Valid() && (pixels == old(pixels) || fresh(pixels))
      ensures Transition(State(), outcome) == Semantics.Advance(old(State()), op, input)
    {
      ghost var before := State();
      pc := pc + 2;
      ghost var fetched := State();
      assert fetched == Semantics.Fetched(before);
      outcome := ExecuteThenTick(op, input);
      Semantics.AdvanceFinishes(before, op, input, Transition(State(), outcome));
    }

    /** Run the handler of `op`, then tick both timers unless it halted. */
    method ExecuteThenTick(op: Opcode, input: Input) returns (outcome: Outcome)
      requires Valid()
      modifies this, reg, memory, pixels
      ensures Valid() && (pixels == old(pixels) || fresh(pixels))
      ensures Transition(State(), outcome) == Finish(Semantics.Execute(old(State()), op, input))
    {
      outcome := Execute(op, input);
      ghost var executed := Transition(State(), outcome);
      if !outcome.Halted? {
        TickTimers();
        assert Transition(State(), outcome) == Transition(Semantics.TickTimers(executed.next), outcome);
      }
    }

    /** Both timers drop by one if above zero. */
    method TickTimers()
      requires Valid()
      modifies this
      ensures Valid() && pixels == old(pixels)
      ensures State() == Semantics.TickTimers(old(State()))
    {
      if delayTimer > 0 {
        delayTimer := delayTimer - 1;
      }
      if soundTimer > 0 {
        soundTimer := soundTimer - 1;
      }
    }

    /**
     * The driver loop, one input per iteration: poll the key events, then
     * one cycle; it stops when the inputs run out or a cycle halts.
     */
    method Run(inputs: seq<Input>) returns (fault: Option<Fault>)
      requires Valid()
      modifies this, reg, memory, key, pixels
      ensures Valid()
      ensures RunEnd(State(), fault) == Semantics.Run(old(State()), inputs)
    {
      var k := 0;
      while k < |inputs|
        invariant 0 <= k <= |inputs| && Valid()
        invariant pixels == old(pixels) || fresh(pixels)
        invariant Semantics.Run(old(State()), inputs) == Semantics.Run(State(), inputs[k..])
      {
        ghost var before := State();
        assert inputs[k..][0] == inputs[k] && inputs[k..][1..] == inputs[k + 1..];
        HandleEvents(inputs[k].events);
        var outcome := Step(inputs[k]);
        if outcome.Halted? {
          return Some(outcome.fault);
        }
        k := k + 1;
      }
      fault := None;
    }
  }
}
