/**
 * Properties: what the instruction set promises, stated and proved about
 * the value semantics of module Semantics.
 */
module Properties {
  import opened Wrappers
  import opened Bytes
  import opened Opcodes
  import opened Registers
  import opened Semantics
  import Display
  import Timers
  import Font

  // ---------------------------------------------------------------- cycle

  /** A fetch at the last byte of memory or beyond halts and changes nothing. */
  lemma StepHaltsPastMemory(m: Machine, input: Input)
    requires Valid(m) && m.pc + 1 >= MEMORY_SIZE
    ensures Step(m, input) == Transition(m, Halted(PcOutOfRange))
  {
  }

  /**
   * A cycle that does not transfer control moves pc to the next instruction:
   * pc is advanced by 2 before the handler runs, and only jumps, calls,
   * returns and skips change it further.
   */
  lemma StepAdvancesPc(m: Machine, input: Input)
    requires Valid(m) && m.pc + 1 < MEMORY_SIZE
    requires var op := Fetch(m.memory, m.pc);
      Family(op) in {6, 7, 8, 0xA, 0xC, 0xD, 0xF} || op == 0x00E0
    ensures var t := Step(m, input);
      !t.outcome.Halted? ==> t.next.pc == m.pc + 2
  {
    AdvanceMovesPc(m, Fetch(m.memory, m.pc), input);
  }

  /** The pc part of a cycle once `op` is fetched. */
  lemma AdvanceMovesPc(m: Machine, op: Opcode, input: Input)
    requires Valid(m)
    requires Family(op) in {6, 7, 8, 0xA, 0xC, 0xD, 0xF} || op == 0x00E0
    ensures var t := Advance(m, op, input);
      !t.outcome.Halted? ==> t.next.pc == m.pc + 2
  {
    var e := Execute(Fetched(m), op, input);
    ExecuteKeepsPc(Fetched(m), op, input);
    FinishTicks(e);
  }

  /** The handlers of those families leave pc where the fetch put it. */
  lemma ExecuteKeepsPc(m: Machine, op: Opcode, input: Input)
    requires Valid(m)
    requires Family(op) in {6, 7, 8, 0xA, 0xC, 0xD, 0xF} || op == 0x00E0
    ensures Execute(m, op, input).next.pc == m.pc
  {
    if Family(op) == 0 {
      assert Execute(m, op, input) == Op0(m, op);
    } else if Family(op) == 0xD {
      assert Execute(m, op, input) == OpD(m, op);
    } else if Family(op) == 0xF {
      assert Execute(m, op, input) == OpF(m, op, input.pressedKey);
    }
  }

  /**
   * A cycle whose handler halts ends with the handler's transition; any
   * other keeps the handler's outcome and ticks both timers once.
   */
  lemma FinishTicks(e: Transition)
    requires Valid(e.next)
    ensures var t := Finish(e);
      && (e.outcome.Halted? ==> t == e)
      && (!e.outcome.Halted? ==>
            && t.outcome == e.outcome
            && t.next == e.next.(delayTimer := t.next.delayTimer, soundTimer := t.next.soundTimer)
            && t.next.delayTimer == Timers.Tick(e.next.delayTimer)
            && t.next.soundTimer == Timers.Tick(e.next.soundTimer))
  {
  }

  /**
   * After every cycle that does not halt, each timer has dropped by one if
   * it was above zero and stays at zero otherwise; FX15 and FX18 write the
   * timer first, and the decrement applies to the written value.
   */
  lemma StepTicksTimers(m: Machine, input: Input)
    requires Valid(m) && m.pc + 1 < MEMORY_SIZE
    ensures var op := Fetch(m.memory, m.pc);
      var t := Step(m, input);
      var delay := if Family(op) == 0xF && NN(op) == 0x15 then m.reg[X(op)] else m.delayTimer;
      var sound := if Family(op) == 0xF && NN(op) == 0x18 then m.reg[X(op)] else m.soundTimer;
      !t.outcome.Halted? ==>
        t.next.delayTimer == Timers.Tick(delay) && t.next.soundTimer == Timers.Tick(sound)
  {
    AdvanceTicksTimers(m, Fetch(m.memory, m.pc), input);
  }

  /** The timer part of a cycle once `op` is fetched. */
  lemma AdvanceTicksTimers(m: Machine, op: Opcode, input: Input)
    requires Valid(m)
    ensures var t := Advance(m, op, input);
      var delay := if Family(op) == 0xF && NN(op) == 0x15 then m.reg[X(op)] else m.delayTimer;
      var sound := if Family(op) == 0xF && NN(op) == 0x18 then m.reg[X(op)] else m.soundTimer;
      !t.outcome.Halted? ==>
        t.next.delayTimer == Timers.Tick(delay) && t.next.soundTimer == Timers.Tick(sound)
  {
    var e := Execute(Fetched(m), op, input);
    FinishTicks(e);
    ExecuteKeepsTimers(Fetched(m), op, input);
  }

  /** Only FX15 and FX18 write a timer; every other instruction leaves both alone. */
  lemma ExecuteKeepsTimers(m: Machine, op: Opcode, input: Input)
    requires Valid(m)
    ensures var t := Execute(m, op, input);
      && t.next.delayTimer == (if Family(op) == 0xF && NN(op) == 0x15 then m.reg[X(op)] else m.delayTimer)
      && t.next.soundTimer == (if Family(op) == 0xF && NN(op) == 0x18 then m.reg[X(op)] else m.soundTimer)
  {
    if Family(op) == 0xF {
      assert Execute(m, op, input) == OpF(m, op, input.pressedKey);
    }
  }
  /** Only 00E0 and DXYN touch the screen; every other instruction leaves it alone. */
  lemma ExecuteKeepsPixels(m: Machine, op: Opcode, input: Input)
    requires Valid(m)
    ensures op != 0x00E0 && Family(op) != 0xD ==> Execute(m, op, input).next.pixels == m.pixels
  {
    if Family(op) == 0 {
      assert Execute(m, op, input) == Op0(m, op);
    } else if Family(op) == 0xF {
      assert Execute(m, op, input) == OpF(m, op, input.pressedKey);
    }
  }


  /**
   * An instruction that does not execute (unsupported, a full or empty
   * stack, or a halt) leaves the machine exactly as it found it.
   */
  lemma NotExecutedKeepsMachine(m: Machine, op: Opcode, input: Input)
    requires Valid(m)
    ensures var t := Execute(m, op, input);
      t.outcome != Executed ==> t.next == m
  {
  }

  /** FX15 and FX18, the two instructions that write a timer. */
  predicate WritesTimer(op: Opcode) {
    Family(op) == 0xF && (NN(op) == 0x15 || NN(op) == 0x18)
  }

  /** No cycle of the run, up to a halt, fetches an instruction that writes a timer. */
  predicate NoTimerWrites(m: Machine, inputs: seq<Input>)
    requires Valid(m)
    decreases |inputs|
  {
    || inputs == []
    || (&& (m.pc + 1 < MEMORY_SIZE ==> !WritesTimer(Fetch(m.memory, m.pc)))
        && (Cycle(m, inputs[0]).outcome.Halted? || NoTimerWrites(Cycle(m, inputs[0]).next, inputs[1..])))
  }

  /**
   * A run of n cycles that write no timer and do not halt leaves each timer
   * at t ticked n times, which is max(0, t - n).
   */
  lemma {:induction false} RunTicksTimers(m: Machine, inputs: seq<Input>)
    requires Valid(m) && NoTimerWrites(m, inputs) && Run(m, inputs).fault.None?
    ensures var n, e := |inputs|, Run(m, inputs).final;
      && e.delayTimer == Timers.TickN(m.delayTimer, n) == (if m.delayTimer >= n then m.delayTimer - n else 0)
      && e.soundTimer == Timers.TickN(m.soundTimer, n) == (if m.soundTimer >= n then m.soundTimer - n else 0)
    decreases |inputs|
  {
    Timers.TickNFloor(m.delayTimer, |inputs|);
    Timers.TickNFloor(m.soundTimer, |inputs|);
    if inputs != [] {
      var k := ApplyKeys(m, inputs[0].events);
      var t := Cycle(m, inputs[0]);
      assert t == Step(k, inputs[0]);
      assert !t.outcome.Halted?;
      assert k.pc + 1 < MEMORY_SIZE;
      StepTicksTimers(k, inputs[0]);
      RunTicksTimers(t.next, inputs[1..]);
    }
  }

  /** A key no event of the poll names keeps its state. */
  lemma {:induction false} UntouchedKeyKeeps(m: Machine, events: seq<KeyEvent>, k: KeyIndex)
    requires Valid(m)
    requires forall i :: 0 <= i < |events| ==> events[i].k != k
    ensures ApplyKeys(m, events).key[k] == m.key[k]
    decreases |events|
  {
    if events != [] {
      UntouchedKeyKeeps(m, events[..|events| - 1], k);
    }
  }

  /** A key is pressed after a poll exactly when the last event naming it was a key-down. */
  lemma {:induction false} KeyFollowsLastEvent(m: Machine, events: seq<KeyEvent>, i: nat)
    requires Valid(m) && i < |events|
    requires forall j :: i < j < |events| ==> events[j].k != events[i].k
    ensures ApplyKeys(m, events).key[events[i].k] == events[i].KeyDown?
    decreases |events|
  {
    if i < |events| - 1 {
      var front := events[..|events| - 1];
      assert front[i] == events[i];
      KeyFollowsLastEvent(m, front, i);
    }
  }

  /**
   * Running two stretches of input one after the other is running their
   * concatenation, as long as the first stretch does not halt.
   */
  lemma {:induction false} RunConcat(m: Machine, a: seq<Input>, b: seq<Input>)
    requires Valid(m)
    ensures var e := Run(m, a);
      e.fault.None? ==> Run(m, a + b) == Run(e.final, b)
    ensures var e := Run(m, a);
      e.fault.Some? ==> Run(m, a + b) == e
    decreases |a|
  {
    if a == [] {
      assert a + b == b;
    } else {
      var t := Cycle(m, a[0]);
      assert (a + b)[0] == a[0] && (a + b)[1..] == a[1..] + b;
      if !t.outcome.Halted? {
        RunConcat(t.next, a[1..], b);
      }
    }
  }

  // ---------------------------------------------------------------- subroutines

  /** 2NNN pushes the return address and jumps; on a full stack (16 entries) nothing changes. */
  lemma CallPushes(m: Machine, op: Opcode)
    requires Valid(m) && Family(op) == 2
    ensures var t := Op2(m, op);
      && (t.outcome == StackFull <==> |m.stack| == STACK_DEPTH)
      && (t.outcome == StackFull ==> t.next == m)
      && (t.outcome != StackFull ==> t.next == m.(stack := m.stack + [m.pc], pc := NNN(op)))
  {
  }

  /** 00EE pops the return address into pc; on an empty stack nothing changes. */
  lemma ReturnPops(m: Machine)
    requires Valid(m)
    ensures var t := Op0(m, 0x00EE);
      && (t.outcome == StackEmpty <==> m.stack == [])
      && (t.outcome == StackEmpty ==> t.next == m)
      && (t.outcome != StackEmpty ==> t.next.stack + [t.next.pc] == m.stack && t.next == m.(pc := t.next.pc, stack := t.next.stack))
  {
  }

  /** A call followed by a return restores pc and the stack. */
  lemma CallThenReturn(m: Machine, op: Opcode)
    requires Valid(m) && Family(op) == 2 && |m.stack| < STACK_DEPTH
    ensures Op2(m, op).outcome == Executed
    ensures Op0(Op2(m, op).next, 0x00EE) == Transition(m, Executed)
  {
    var c := Op2(m, op).next;
    assert c.stack[..|c.stack| - 1] == m.stack;
  }

  /**
   * The same round trip over two whole cycles: a 2NNN at pc whose target
   * holds a 00EE brings pc to the instruction after the call with the stack
   * as it was, and both timers ticked twice.
   */
  lemma CallReturnCycles(m: Machine, in1: Input, in2: Input)
    requires Valid(m) && m.pc + 1 < MEMORY_SIZE && |m.stack| < STACK_DEPTH
    requires Family(Fetch(m.memory, m.pc)) == 2
    requires var target := NNN(Fetch(m.memory, m.pc));
      target + 1 < MEMORY_SIZE && Fetch(m.memory, target) == 0x00EE
    ensures var t1 := Step(m, in1);
      var t2 := Step(t1.next, in2);
      && t1.outcome == Executed && t2.outcome == Executed
      && t2.next == TickTimers(TickTimers(m.(pc := m.pc + 2)))
  {
    var op := Fetch(m.memory, m.pc);
    var m1 := Fetched(m);
    CallThenReturn(m1, op);
    var call := Execute(m1, op, in1);
    assert call == Op2(m1, op);
    assert Step(m, in1) == Finish(call) == Transition(TickTimers(call.next), Executed);
    var c := TickTimers(call.next);
    assert Fetch(c.memory, c.pc) == 0x00EE;
    var back := Execute(Fetched(c), 0x00EE, in2);
    assert back == Op0(Fetched(c), 0x00EE);
    assert back == Transition(TickTimers(m1), Executed);
    assert Step(c, in2) == Finish(back) == Transition(TickTimers(back.next), Executed);
  }

  // ---------------------------------------------------------------- skips

  /**
   * The conditional skips add exactly 2 to pc when their condition holds and
   * leave it otherwise; they change nothing else.  5XY_ and 9XY_ with a
   * non-zero low nibble change nothing at all.
   */
  lemma SkipsOnlyMovePc(m: Machine, op: Opcode, input: Input)
    requires Valid(m) && Family(op) in {3, 4, 5, 9, 0xE}
    ensures var t := Execute(m, op, input);
      && (t.next == m || t.next == m.(pc := m.pc + 2))
      && (Family(op) == 3 ==> (t.next.pc == m.pc + 2 <==> m.reg[X(op)] == NN(op)))
      && (Family(op) == 4 ==> (t.next.pc == m.pc + 2 <==> m.reg[X(op)] != NN(op)))
      && (Family(op) == 5 && N(op) == 0 ==> (t.next.pc == m.pc + 2 <==> m.reg[X(op)] == m.reg[Y(op)]))
      && (Family(op) == 9 && N(op) == 0 ==> (t.next.pc == m.pc + 2 <==> m.reg[X(op)] != m.reg[Y(op)]))
      && ((Family(op) == 5 || Family(op) == 9) && N(op) != 0 ==> t == Transition(m, Unsupported))
  {
  }

  /** EX9E and EXA1 skip on the state of key VX; a key number above F halts. */
  lemma KeySkips(m: Machine, op: Opcode)
    requires Valid(m) && Family(op) == 0xE
    ensures var t := OpE(m, op);
      var k := m.reg[X(op)];
      && (NN(op) == 0x9E && k < KEY_COUNT ==> t.outcome == Executed && (t.next.pc == m.pc + 2 <==> m.key[k]))
      && (NN(op) == 0xA1 && k < KEY_COUNT ==> t.outcome == Executed && (t.next.pc == m.pc + 2 <==> !m.key[k]))
      && ((NN(op) == 0x9E || NN(op) == 0xA1) && k >= KEY_COUNT ==> t == Transition(m, Halted(KeyOutOfRange)))
      && (NN(op) != 0x9E && NN(op) != 0xA1 ==> t == Transition(m, Unsupported))
  {
  }

  /** 1NNN and BNNN jump to absolute addresses. */
  lemma JumpsAreAbsolute(m: Machine, op: Opcode, input: Input)
    requires Valid(m) && Family(op) in {1, 0xB}
    ensures var t := Execute(m, op, input);
      && t.outcome == Executed
      && t.next == m.(pc := NNN(op) + (if Family(op) == 0xB then m.reg[0] else 0))
  {
  }

  // ---------------------------------------------------------------- registers

  /** 7XNN adds modulo 256 and never writes a carry into VF; no other register changes. */
  lemma AddImmediateKeepsFlag(m: Machine, op: Opcode)
    requires Valid(m) && Family(op) == 7
    ensures var r := Op7(m, op).next.reg;
      && r[X(op)] == (m.reg[X(op)] as int + NN(op)) % 0x100
      && (forall k :: 0 <= k < REGISTER_COUNT && k != X(op) ==> r[k] == m.reg[k])
      && Op7(m, op) == Transition(m.(reg := r), Executed)
  {
  }

  /** 8XY4 through the whole machine: sum modulo 256 and the carry in VF; only VX and VF change. */
  lemma AddRegistersCarry(m: Machine, op: Opcode)
    requires Valid(m) && Family(op) == 8 && N(op) == 4
    ensures var t := Op8(m, op);
      && t.outcome == Executed
      && (t.next.reg[VF] == 1 <==> m.reg[X(op)] as int + m.reg[Y(op)] > 0xFF)
      && (X(op) != VF ==> t.next.reg[X(op)] == (m.reg[X(op)] as int + m.reg[Y(op)]) % 0x100)
      && t.next == m.(reg := t.next.reg)
  {
    AddCarry(m.reg, X(op), Y(op));
  }

  /** 8XY5 and 8XY7 through the whole machine: VF = 1 exactly when there is no borrow. */
  lemma SubtractRegistersBorrow(m: Machine, op: Opcode)
    requires Valid(m) && Family(op) == 8 && (N(op) == 5 || N(op) == 7)
    ensures var t := Op8(m, op);
      var (a, b) := if N(op) == 5 then (m.reg[X(op)], m.reg[Y(op)]) else (m.reg[Y(op)], m.reg[X(op)]);
      && t.outcome == Executed
      && (t.next.reg[VF] == 1 <==> a >= b)
      && (t.next.reg[VF] == 0 <==> a < b)
      && (X(op) != VF ==> t.next.reg[X(op)] == (a as int - b) % 0x100)
      && t.next == m.(reg := t.next.reg)
  {
    SubtractBorrow(m.reg, X(op), Y(op));
    ReverseSubtractBorrow(m.reg, X(op), Y(op));
  }

  /** 8XY_ with a low nibble outside 0..7 and E is unsupported and changes nothing. */
  lemma AluUnsupported(m: Machine, op: Opcode)
    requires Valid(m) && Family(op) == 8 && 7 < N(op) && N(op) != 0xE
    ensures Op8(m, op) == Transition(m, Unsupported)
  {
  }

  /** CXNN stores the random draw masked by NN, never above NN and never above 254; nothing else changes. */
  lemma RandomMasked(m: Machine, op: Opcode, random: RandomByte)
    requires Valid(m) && Family(op) == 0xC
    ensures var r := OpC(m, op, random).next.reg[X(op)];
      && r == BitAnd(random, NN(op)) && r <= NN(op) && r <= random < 255
      && OpC(m, op, random) == Transition(m.(reg := m.reg[X(op) := BitAnd(random, NN(op))]), Executed)
  {
  }

  /** FX0A stores the pressed key in VX. */
  lemma WaitKeyStores(m: Machine, op: Opcode, key: KeyIndex)
    requires Valid(m) && Family(op) == 0xF && NN(op) == 0x0A
    ensures OpF(m, op, key) == Transition(m.(reg := m.reg[X(op) := key]), Executed)
  {
  }

  // ---------------------------------------------------------------- display

  /** 00E0 turns every pixel off and changes nothing else. */
  lemma ClearTurnsAllOff(m: Machine)
    requires Valid(m)
    ensures var t := Op0(m, 0x00E0);
      && t.outcome == Executed && t.next == m.(pixels := t.next.pixels)
      && forall r, c :: 0 <= r < Display.HEIGHT && 0 <= c < Display.WIDTH ==> !t.next.pixels[r][c]
  {
  }

  /**
   * DXYN toggles exactly the pixels under set sprite bits, wrapping around
   * both edges, and sets VF to 1 exactly when it turned a lit pixel off.
   */
  lemma DrawSemantics(m: Machine, op: Opcode, i: nat, j: nat)
    requires Valid(m) && Family(op) == 0xD && m.I + N(op) <= MEMORY_SIZE
    requires i < N(op) && j < Display.SPRITE_WIDTH
    ensures var t := OpD(m, op);
      var x, y := m.reg[X(op)], m.reg[Y(op)];
      var r, c := (y + i) % Display.HEIGHT, (x + j) % Display.WIDTH;
      && t.outcome == Executed
      && t.next.pixels[r][c] == (m.pixels[r][c] != SpriteBit(m.memory[m.I + i], j))
      && t.next == m.(pixels := t.next.pixels, reg := m.reg[VF := t.next.reg[VF]])
  {
    var rows, x, y := Sprite(m, op), m.reg[X(op)], m.reg[Y(op)];
    assert OpD(m, op).next.pixels == Display.Draw(m.pixels, rows, x, y);
    Display.DrawTogglesSpriteBits(m.pixels, rows, x, y, i, j);
  }

  /** DXYN leaves 0 or 1 in VF, and 1 exactly when it turned some lit pixel off. */
  lemma DrawFlagsCollision(m: Machine, op: Opcode)
    requires Valid(m) && Family(op) == 0xD && m.I + N(op) <= MEMORY_SIZE
    ensures var t := OpD(m, op);
      && (t.next.reg[VF] == 1 <==>
          exists r, c :: 0 <= r < Display.HEIGHT && 0 <= c < Display.WIDTH
            && m.pixels[r][c] && !t.next.pixels[r][c])
      && (t.next.reg[VF] == 0 || t.next.reg[VF] == 1)
      && t.next == m.(pixels := t.next.pixels, reg := m.reg[VF := t.next.reg[VF]])
  {
    var rows, x, y := Sprite(m, op), m.reg[X(op)], m.reg[Y(op)];
    var t := OpD(m, op);
    assert t.next.pixels == Display.Draw(m.pixels, rows, x, y);
    assert t.next.reg[VF] == if Display.Collides(m.pixels, rows, x, y) then 1 else 0;
    Display.CollisionIffPixelTurnedOff(m.pixels, rows, x, y);
  }

  /**
   * Drawing the same sprite twice (VX and VY not VF, so the first draw's flag
   * does not move the second) restores the screen; a sprite with a set bit
   * collides on one of the two draws, and on the second when the screen
   * started dark.
   */
  lemma DrawTwice(m: Machine, op: Opcode, i: nat)
    requires Valid(m) && Family(op) == 0xD && m.I + N(op) <= MEMORY_SIZE
    requires X(op) != VF && Y(op) != VF
    requires i < N(op) && m.memory[m.I + i] != 0
    ensures var t1 := OpD(m, op);
      var t2 := OpD(t1.next, op);
      && t2.next.pixels == m.pixels
      && (t1.next.reg[VF] == 1 || t2.next.reg[VF] == 1)
      && (m.pixels == Display.Cleared() ==> t1.next.reg[VF] == 0 && t2.next.reg[VF] == 1)
  {
    var rows, x, y := Sprite(m, op), m.reg[X(op)], m.reg[Y(op)];
    var m1 := OpD(m, op).next;
    assert m1.reg[X(op)] == x && m1.reg[Y(op)] == y && m1.I == m.I && m1.memory == m.memory;
    assert Sprite(m1, op) == rows;
    Display.DrawTwiceRestores(m.pixels, rows, x, y);
    Display.DrawTwiceCollides(m.pixels, rows, x, y, i);
    if m.pixels == Display.Cleared() {
      Display.DrawTwiceOnClearedScreen(rows, x, y, i);
    }
  }

  /** A sprite running past the end of memory halts DXYN with nothing changed. */
  lemma DrawPastMemoryHalts(m: Machine, op: Opcode)
    requires Valid(m) && Family(op) == 0xD && m.I + N(op) > MEMORY_SIZE
    ensures OpD(m, op) == Transition(m, Halted(MemoryOutOfRange))
  {
  }

  // ---------------------------------------------------------------- I and memory

  /** FX1E keeps I within 12 bits, wrapping modulo 0x1000, with VF = 1 exactly on overflow. */
  lemma AddToIndex(m: Machine, x: RegIndex)
    requires Valid(m)
    ensures var t := AddIndex(m, x);
      && t.next.I <= ADDRESS_LIMIT
      && t.next.I == (m.I + m.reg[x]) % 0x1000
      && (t.next.reg[VF] == 1 <==> m.I + m.reg[x] > ADDRESS_LIMIT)
      && (t.next.reg[VF] == 0 <==> m.I + m.reg[x] <= ADDRESS_LIMIT)
      && t.outcome == Executed
      && t.next == m.(I := t.next.I, reg := m.reg[VF := t.next.reg[VF]])
  {
  }

  /** FX29 sets I to 5 * VX for every VX and changes nothing else. */
  lemma PointsAtGlyph(m: Machine, op: Opcode, key: KeyIndex)
    requires Valid(m) && Family(op) == 0xF && NN(op) == 0x29
    ensures OpF(m, op, key) == Transition(m.(I := m.reg[X(op)] as int * 5), Executed)
  {
  }

  /** With VX <= F and the font intact, FX29 points I at the glyph of digit VX, inside the font area. */
  lemma GlyphOfDigit(m: Machine, op: Opcode, key: KeyIndex)
    requires Valid(m) && Family(op) == 0xF && NN(op) == 0x29
    requires m.reg[X(op)] < 16 && m.memory[..Font.FONT_SIZE] == Font.FONT
    ensures var t := OpF(m, op, key);
      var d := m.reg[X(op)];
      && t.next.I == Font.GlyphAddress(d)
      && t.next.I + Font.GLYPH_HEIGHT <= Font.FONT_SIZE
      && t.next.memory[t.next.I .. t.next.I + Font.GLYPH_HEIGHT] == Font.FONT[d * 5 .. d * 5 + 5]
  {
    var d := m.reg[X(op)];
    assert m.memory[d * 5 .. d * 5 + 5] == m.memory[..Font.FONT_SIZE][d * 5 .. d * 5 + 5];
  }

  /**
   * FX33 stores the hundreds, tens and ones digits of VX at I, I+1 and I+2:
   * each at most 9, together equal to VX, and no other cell changes.
   */
  lemma BcdDigits(m: Machine, x: RegIndex)
    requires Valid(m)
    ensures var t := StoreBcd(m, x);
      (m.I + 2 < MEMORY_SIZE ==>
        var mem := t.next.memory;
        && t.outcome == Executed
        && mem[m.I] <= 9 && mem[m.I + 1] <= 9 && mem[m.I + 2] <= 9
        && 100 * mem[m.I] + 10 * mem[m.I + 1] + mem[m.I + 2] == m.reg[x]
        && (forall a :: 0 <= a < MEMORY_SIZE && !(m.I <= a <= m.I + 2) ==> mem[a] == m.memory[a])
        && t.next == m.(memory := mem))
    ensures m.I + 2 >= MEMORY_SIZE ==> StoreBcd(m, x) == Transition(m, Halted(MemoryOutOfRange))
  {
  }

  /** FX55 writes V0..VX to memory[I..I+X] and changes no other cell and no register. */
  lemma StoreChangesOnlyBlock(m: Machine, x: RegIndex)
    requires Valid(m) && m.I + x < MEMORY_SIZE
    ensures var t := StoreBlock(m, x);
      && t.outcome == Executed
      && t.next == m.(memory := t.next.memory)
      && (forall k :: 0 <= k <= x ==> t.next.memory[m.I + k] == m.reg[k])
      && (forall a :: 0 <= a < MEMORY_SIZE && !(m.I <= a <= m.I + x) ==> t.next.memory[a] == m.memory[a])
  {
  }

  /** FX55 or FX65 with a block reaching past memory halts with nothing changed. */
  lemma BlockPastMemoryHalts(m: Machine, x: RegIndex)
    requires Valid(m) && m.I + x >= MEMORY_SIZE
    ensures StoreBlock(m, x) == Transition(m, Halted(MemoryOutOfRange))
    ensures LoadBlock(m, x) == Transition(m, Halted(MemoryOutOfRange))
  {
  }

  /** FX55 followed by FX65 with the same X and I leaves every register as it was. */
  lemma StoreThenLoad(m: Machine, x: RegIndex)
    requires Valid(m) && m.I + x < MEMORY_SIZE
    ensures var s := StoreBlock(m, x).next;
      var l := LoadBlock(s, x);
      && l.outcome == Executed && l.next.reg == m.reg && l.next.memory == s.memory
  {
    var block := m.reg[..x + 1];
    var s := StoreBlock(m, x).next;
    OverwriteReads(m.memory, m.I, block);
    assert s.memory[m.I .. m.I + x + 1] == block;
    OverwriteSame(m.reg, 0, block);
  }

  /** FX65 followed by FX55 with the same X and I leaves memory as it was. */
  lemma LoadThenStore(m: Machine, x: RegIndex)
    requires Valid(m) && m.I + x < MEMORY_SIZE
    ensures var l := LoadBlock(m, x).next;
      var s := StoreBlock(l, x);
      && s.outcome == Executed && s.next.memory == m.memory && s.next.reg == l.reg
  {
    var block := m.memory[m.I .. m.I + x + 1];
    var l := LoadBlock(m, x).next;
    OverwriteReads(m.reg, 0, block);
    assert l.reg[..x + 1] == block;
    OverwriteSame(m.memory, m.I, block);
  }

  // ---------------------------------------------------------------- start-up

  /** After start-up the font is at 0..79, the ROM at 0x200, everything else zero, pc at 0x200. */
  lemma InitLayout(rom: seq<byte>)
    requires |rom| <= MEMORY_SIZE - PROGRAM_START
    ensures var m := Init(rom);
      && m.memory[..Font.FONT_SIZE] == Font.FONT
      && m.memory[PROGRAM_START .. PROGRAM_START + |rom|] == rom
      && (forall a :: Font.FONT_SIZE <= a < PROGRAM_START ==> m.memory[a] == 0)
      && (forall a :: PROGRAM_START + |rom| <= a < MEMORY_SIZE ==> m.memory[a] == 0)
      && m.pc == PROGRAM_START && m.stack == [] && m.I == 0
      && (forall k :: 0 <= k < REGISTER_COUNT ==> m.reg[k] == 0)
      && m.pixels == Display.Cleared()
  {
  }
}
