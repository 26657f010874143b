/**
 * AsWritten: the 8XY_ family exactly as chip8.py spells it, registers as
 * unbounded non-negative Python integers (bitwise operations keep every bit), next to the corrected Registers.Alu that the
 * rest of the model uses.  Three places differ: 8XY7 names `slef` and
 * raises NameError, the left shift is dispatched on low nibble F instead of
 * E, and that shift is not masked back to eight bits.
 */
module AsWritten {
  import opened Bytes
  import Registers

  datatype AluResult = Done(regs: seq<int>) | NameError | UnsupportedOp

  /** op_8 as written: the branches of chip8.py lines 210-264 in source order. */
  function Alu8AsWritten(v: seq<int>, x: Registers.RegIndex, y: Registers.RegIndex, sub: nat): (r: AluResult)
    requires |v| == Registers.REGISTER_COUNT
    requires forall k :: 0 <= k < |v| ==> 0 <= v[k]
    ensures r.Done? ==> |r.regs| == Registers.REGISTER_COUNT
    ensures r.Done? <==> sub <= 6 || sub == 15
  {
    var vx, vy := v[x], v[y];
    var VF := Registers.VF;
    if sub == 0 then Done(v[x := vy])
    else if sub <= 3 then
      var op := if sub == 1 then OrOp else if sub == 2 then AndOp else XorOp;
      Done(v[x := Bitwise(op, vx, vy, BitLength(if vx >= vy then vx else vy))])
    else if sub == 4 then
      var w := v[x := vx + vy];
      if w[x] > 0xFF then
        var w' := w[VF := 1];
        Done(w'[x := w'[x] % 0x100])
      else Done(w[VF := 0])
    else if sub == 5 then
      if vx >= vy then Done(v[x := vx - vy][VF := 1]) else Done(v[x := vx + 0x100 - vy][VF := 0])
    else if sub == 6 then
      var w := v[VF := vx % 2];
      Done(w[x := w[x] / 2])
    else if sub == 7 then NameError
    else if sub == 15 then
      var w := v[VF := (vx / 0x80) % 2];
      Done(w[x := w[x] * 2])
    else UnsupportedOp
  }

  /** Registers holding only bytes, as a Python list of integers. */
  function Widen(v: seq<byte>): (w: seq<int>)
    ensures |w| == |v| && forall k :: 0 <= k < |v| ==> 0 <= w[k] < 0x100
  {
    v
  }

  /**
   * On low nibbles 0 to 6 the source and the corrected model agree, for
   * every register file of bytes.
   */
  lemma AgreesBelowSeven(v: seq<byte>, x: Registers.RegIndex, y: Registers.RegIndex, sub: nat)
    requires |v| == Registers.REGISTER_COUNT && sub <= 6
    ensures Alu8AsWritten(Widen(v), x, y, sub) == Done(Widen(Registers.Alu(v, x, y, sub).value))
  {
    if sub == 1 {
      BitwiseOfBytes(OrOp, v[x], v[y]);
    } else if sub == 2 {
      BitwiseOfBytes(AndOp, v[x], v[y]);
    } else if sub == 3 {
      BitwiseOfBytes(XorOp, v[x], v[y]);
    }
  }

  /** On two bytes, a bitwise operation over the width of the larger one is the eight-bit one. */
  lemma BitwiseOfBytes(op: BitOp, a: byte, b: byte)
    ensures Bitwise(op, a as nat, b as nat, BitLength(if a as nat >= b as nat then a as nat else b as nat)) == Bitwise(op, a as nat, b as nat, 8)
  {
    var top: nat := if a as nat >= b as nat then a as nat else b as nat;
    Pow2Byte();
    BitLengthAtMost(top, 8);
    BitwiseWidthStable(op, a as nat, b as nat, BitLength(top), 8);
  }

  /** 8XY1 as written keeps every bit of either register, also above bit 7. */
  lemma OrKeepsWideValues(v: seq<int>, x: Registers.RegIndex, y: Registers.RegIndex)
    requires |v| == Registers.REGISTER_COUNT
    requires forall k :: 0 <= k < |v| ==> 0 <= v[k]
    ensures var r := Alu8AsWritten(v, x, y, 1).regs[x];
      r >= v[x] && r >= v[y]
  {
    var a: nat, b: nat := v[x], v[y];
    var k := BitLength(if a >= b then a else b);
    OrAtLeast(a, b, k);
    OrAtLeast(b, a, k);
    OrCommutes(a, b, k);
  }

  /**
   * With V0 = 0x100, the value the unmasked left shift leaves from 0x80,
   * 8XY1 as written leaves 0x100 in V0 (0x8011 with V1 = 0).
   */
  lemma OrOfShiftedValue()
    ensures Alu8AsWritten(seq(16, k => if k == 0 then 0x100 else 0), 0, 1, 1).regs[0] == 0x100
  {
    var w: seq<int> := seq(16, k => if k == 0 then 0x100 else 0);
    assert w[0] == 0x100 && w[1] == 0;
    Pow2Byte();
    assert Pow2(9) == 0x200;
    BitLengthAtMost(0x100, 9);
    BitwiseWidthStable(OrOp, 0x100, 0, BitLength(0x100), 9);
    OrZero(0x100, 9);
  }

  /** 8XY7 as written never completes: every register file raises NameError. */
  lemma ReverseSubtractRaises(v: seq<byte>, x: Registers.RegIndex, y: Registers.RegIndex)
    requires |v| == Registers.REGISTER_COUNT
    ensures Alu8AsWritten(Widen(v), x, y, 7) == NameError
    ensures Registers.Alu(v, x, y, 7).Some?
  {
  }

  /** 0x801E, the documented 8XYE, is reported unsupported; 0x801F shifts instead. */
  lemma ShiftLeftMisrouted()
    ensures Alu8AsWritten(Widen(seq(16, _ => 0)), 0, 1, 0xE) == UnsupportedOp
    ensures Alu8AsWritten(Widen(seq(16, _ => 0)), 0, 1, 0xF).Done?
    ensures Registers.Alu(seq(16, _ => 0), 0, 1, 0xE).Some?
    ensures Registers.Alu(seq(16, _ => 0), 0, 1, 0xF).None?
  {
  }

  /** With V0 = 0x80 the unmasked shift leaves 0x100 in V0, outside eight bits; the corrected one leaves 0. */
  lemma ShiftLeftOverflows()
    ensures var v := seq(16, k => if k == 0 then 0x80 else 0);
      && Alu8AsWritten(Widen(v), 0, 1, 0xF).regs[0] == 0x100
      && Registers.Alu(v, 0, 1, 0xE).value[0] == 0
      && Registers.Alu(v, 0, 1, 0xE).value[Registers.VF] == 1
  {
    var v: seq<byte> := seq(16, k => if k == 0 then 0x80 else 0);
    assert v[0] == 0x80;
  }
}
