/**
 * Opcodes: the 16-bit instruction word, how it is fetched from memory and
 * how its fields are picked apart.  The source writes the field extraction
 * with masks and shifts (`(opcode & 0x0f00) >> 8`); on non-negative numbers
 * these are the divisions and remainders by powers of two used here.
 */
module Opcodes {
  import opened Bytes

  type Opcode = x: int | 0 <= x < 0x10000

  /** Instructions are two bytes long and stored big-endian. */
  function Fetch(memory: seq<byte>, pc: nat): (op: Opcode)
    requires pc + 1 < |memory|
    ensures op / 0x100 == memory[pc] && op % 0x100 == memory[pc + 1]
  {
    (memory[pc] as int) * 0x100 + memory[pc + 1] as int
  }

  /** The top nibble, `opcode >> 12`, which selects the handler. */
  function Family(op: Opcode): (f: nat)
    ensures f < 16
  {
    op / 0x1000
  }

  /** The register named by the second nibble, `(opcode & 0x0f00) >> 8`. */
  function X(op: Opcode): (x: nat)
    ensures x < 16
  {
    (op / 0x100) % 0x10
  }

  /** The register named by the third nibble, `(opcode & 0x00f0) >> 4`. */
  function Y(op: Opcode): (y: nat)
    ensures y < 16
  {
    (op / 0x10) % 0x10
  }

  /** The low nibble, `opcode & 0xf`. */
  function N(op: Opcode): (n: nat)
    ensures n < 16
  {
    op % 0x10
  }

  /** The low byte, `opcode & 0xff`. */
  function NN(op: Opcode): byte {
    op % 0x100
  }

  /** The 12-bit address, `opcode & 0xfff`. */
  function NNN(op: Opcode): (a: nat)
    ensures a <= 0xFFF
  {
    op % 0x1000
  }

  /** Assembles an opcode from its four nibbles. */
  function Encode(family: nat, x: nat, y: nat, n: nat): Opcode
    requires family < 16 && x < 16 && y < 16 && n < 16
  {
    family * 0x1000 + x * 0x100 + y * 0x10 + n
  }

  /** Decoding is the inverse of assembling, in both directions. */
  lemma DecodeEncode(family: nat, x: nat, y: nat, n: nat)
    requires family < 16 && x < 16 && y < 16 && n < 16
    ensures var op := Encode(family, x, y, n);
      Family(op) == family && X(op) == x && Y(op) == y && N(op) == n
      && NN(op) == y * 0x10 + n && NNN(op) == x * 0x100 + y * 0x10 + n
  {
    var op := Encode(family, x, y, n);
    var nn := y * 0x10 + n;
    var nnn := x * 0x100 + nn;
    assert op / 0x1000 == family && op % 0x1000 == nnn;
    assert op / 0x100 == family * 0x10 + x && op % 0x100 == nn;
    assert op / 0x10 == family * 0x100 + x * 0x10 + y;
  }

  lemma EncodeDecode(op: Opcode)
    ensures Encode(Family(op), X(op), Y(op), N(op)) == op
    ensures NN(op) == Y(op) * 0x10 + N(op)
    ensures NNN(op) == X(op) * 0x100 + NN(op)
  {
    var n, q1 := op % 0x10, op / 0x10;
    var y, q2 := q1 % 0x10, q1 / 0x10;
    var x, f := q2 % 0x10, q2 / 0x10;
    assert op == f * 0x1000 + x * 0x100 + y * 0x10 + n;
    assert op / 0x1000 == f;
    assert op / 0x100 == q2;
  }
}
