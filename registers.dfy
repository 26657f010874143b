/**
 * Registers: the sixteen 8-bit general registers V0..VF and the 8XY_
 * arithmetic-logic family that combines two of them.  VF doubles as the flag
 * register that carry, borrow and shifted-out bits are written to.
 */
module Registers {
  import opened Wrappers
  import opened Bytes

  const REGISTER_COUNT: nat := 16
  /** Index of VF, the flag register. */
  const VF: nat := 15

  type RegIndex = x: int | 0 <= x < 16

  /**
   * The 8XY_ instructions, sub-operation `sub` (the opcode's low nibble),
   * applied to the register file `v`.  `None` is a sub-operation the machine
   * does not support.  Where the source writes VF before shifting VX (8XY6,
   * 8XYE) the shift reads VX after that write, so that X = F shifts the flag.
   */
  function Alu(v: seq<byte>, x: RegIndex, y: RegIndex, sub: nat): (r: Option<seq<byte>>)
    requires |v| == REGISTER_COUNT
    ensures r.Some? <==> sub <= 7 || sub == 0xE
    ensures r.Some? ==> |r.value| == REGISTER_COUNT
    ensures r.Some? ==> forall k :: 0 <= k < REGISTER_COUNT && k != x && k != VF ==> r.value[k] == v[k]
    ensures r.Some? && sub <= 3 ==> r.value[VF] == v[VF] || x == VF
  {
    var vx: int, vy: int := v[x], v[y];
    if sub == 0 then Some(v[x := vy])
    else if sub == 1 then Some(v[x := BitOr(vx, vy)])
    else if sub == 2 then Some(v[x := BitAnd(vx, vy)])
    else if sub == 3 then Some(v[x := BitXor(vx, vy)])
    else if sub == 4 then
      var sum := vx + vy;
      if sum > 0xFF then Some(v[x := sum - 0x100][VF := 1]) else Some(v[x := sum][VF := 0])
    else if sub == 5 then
      if vx >= vy then Some(v[x := vx - vy][VF := 1]) else Some(v[x := vx + 0x100 - vy][VF := 0])
    else if sub == 6 then
      var w := v[VF := vx % 2];
      Some(w[x := w[x] / 2])
    else if sub == 7 then
      if vy >= vx then Some(v[x := vy - vx][VF := 1]) else Some(v[x := vy + 0x100 - vx][VF := 0])
    else if sub == 0xE then
      var w := v[VF := (vx / 0x80) % 2];
      Some(w[x := (w[x] as int * 2) % 0x100])
    else None
  }

  /** 8XY4: VX takes the sum modulo 256 and VF is 1 exactly when the sum exceeds 255. */
  lemma AddCarry(v: seq<byte>, x: RegIndex, y: RegIndex)
    requires |v| == REGISTER_COUNT
    ensures var r := Alu(v, x, y, 4).value;
      && (r[VF] == 1 <==> v[x] as int + v[y] > 0xFF)
      && (r[VF] == 0 <==> v[x] as int + v[y] <= 0xFF)
      && (x != VF ==> r[x] == (v[x] as int + v[y]) % 0x100)
  {
  }

  /** 8XY5: VF is 1 exactly when there is no borrow (VX >= VY); VX = (VX - VY) mod 256. */
  lemma SubtractBorrow(v: seq<byte>, x: RegIndex, y: RegIndex)
    requires |v| == REGISTER_COUNT
    ensures var r := Alu(v, x, y, 5).value;
      && (r[VF] == 1 <==> v[x] >= v[y])
      && (r[VF] == 0 <==> v[x] < v[y])
      && (x != VF ==> r[x] == (v[x] as int - v[y]) % 0x100)
  {
  }

  /** 8XY7: the same convention with the operands swapped, VX = (VY - VX) mod 256. */
  lemma ReverseSubtractBorrow(v: seq<byte>, x: RegIndex, y: RegIndex)
    requires |v| == REGISTER_COUNT
    ensures var r := Alu(v, x, y, 7).value;
      && (r[VF] == 1 <==> v[y] >= v[x])
      && (r[VF] == 0 <==> v[y] < v[x])
      && (x != VF ==> r[x] == (v[y] as int - v[x]) % 0x100)
  {
  }

  /** 8XY6: VF receives the bit shifted out at the bottom; VX is halved. */
  lemma ShiftRightFlag(v: seq<byte>, x: RegIndex, y: RegIndex)
    requires |v| == REGISTER_COUNT
    ensures var r := Alu(v, x, y, 6).value;
      && (x != VF ==> r[x] as int * 2 + r[VF] == v[x] && r[VF] <= 1)
      && (x == VF ==> r[VF] == 0)
  {
  }

  /** 8XYE: VF receives the bit shifted out at the top; VX is doubled modulo 256. */
  lemma ShiftLeftFlag(v: seq<byte>, x: RegIndex, y: RegIndex)
    requires |v| == REGISTER_COUNT
    ensures var r := Alu(v, x, y, 0xE).value;
      && (x != VF ==> r[VF] as int * 0x100 + r[x] == v[x] as int * 2 && r[VF] <= 1)
      && (x == VF ==> r[VF] == ((v[x] / 0x80) % 2) * 2)
  {
  }

  /** 8XY1 and 8XY2 bound the result by their operands. */
  lemma OrAndBounds(v: seq<byte>, x: RegIndex, y: RegIndex)
    requires |v| == REGISTER_COUNT
    ensures var r := Alu(v, x, y, 1).value; v[x] <= r[x] && v[y] <= r[x]
    ensures var r := Alu(v, x, y, 2).value; r[x] <= v[x] && r[x] <= v[y]
  {
  }

  /** 8XY3 applied twice with the same VY (X != Y) restores VX: exclusive or undoes itself. */
  lemma XorTwiceRestores(v: seq<byte>, x: RegIndex, y: RegIndex)
    requires |v| == REGISTER_COUNT && x != y
    ensures Alu(Alu(v, x, y, 3).value, x, y, 3).value == v
  {
    ByteXorTwice(v[x], v[y]);
  }

  /** 8XY0 copies VY into VX and leaves VY as it was. */
  lemma CopyCopies(v: seq<byte>, x: RegIndex, y: RegIndex)
    requires |v| == REGISTER_COUNT
    ensures var r := Alu(v, x, y, 0).value; r[x] == v[y] && r[y] == v[y]
  {
  }
}
