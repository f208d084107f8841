/** The instruction set of the simulated processor: sizes, opcode numbering,
    the parsed instruction record, and C's integer division. */
module Isa {
  import opened Wrappers

  const REG_COUNT: nat := 16
  const MEMORY_SIZE: nat := 64000
  /** Byte width of one data-memory word and of one instruction slot. */
  const WORD_SIZE: nat := 4

  /** The nineteen opcodes, in the order of their numeric codes 0..18. */
  datatype Opcode =
    | MUL | ADD | SUB | DIV | LD | ST
    | MULL | ADDL | SUBL | DIVL | LDL | STL
    | SET | BEZ | BGEZ | BLEZ | BGTZ | BLTZ | RET

  /** The numeric code an opcode has in `cpu.h`. */
  function Code(op: Opcode): (n: nat)
    ensures n < 19
  {
    match op
    case MUL => 0   case ADD => 1   case SUB => 2   case DIV => 3
    case LD => 4    case ST => 5    case MULL => 6  case ADDL => 7
    case SUBL => 8  case DIVL => 9  case LDL => 10  case STL => 11
    case SET => 12  case BEZ => 13  case BGEZ => 14 case BLEZ => 15
    case BGTZ => 16 case BLTZ => 17 case RET => 18
  }

  /** The opcode with numeric code `n`, if there is one. */
  function FromCode(n: int): (r: Option<Opcode>)
    ensures r.Some? <==> 0 <= n < 19
    ensures r.Some? ==> Code(r.value) == n
  {
    if n == 0 then Some(MUL) else if n == 1 then Some(ADD)
    else if n == 2 then Some(SUB) else if n == 3 then Some(DIV)
    else if n == 4 then Some(LD) else if n == 5 then Some(ST)
    else if n == 6 then Some(MULL) else if n == 7 then Some(ADDL)
    else if n == 8 then Some(SUBL) else if n == 9 then Some(DIVL)
    else if n == 10 then Some(LDL) else if n == 11 then Some(STL)
    else if n == 12 then Some(SET) else if n == 13 then Some(BEZ)
    else if n == 14 then Some(BGEZ) else if n == 15 then Some(BLEZ)
    else if n == 16 then Some(BGTZ) else if n == 17 then Some(BLTZ)
    else if n == 18 then Some(RET) else None
  }

  /** The numbering is a bijection between opcodes and 0..18. */
  lemma CodeRoundTrip(op: Opcode)
    ensures FromCode(Code(op)) == Some(op)
  {
  }

  /** The five conditional branches. */
  predicate IsBranch(op: Opcode) {
    op == BEZ || op == BGEZ || op == BLEZ || op == BGTZ || op == BLTZ
  }

  /** Fetch recognises a branch by the numeric range 13..17; that range holds
      exactly the five conditional branches. */
  lemma BranchCodeRange(op: Opcode)
    ensures IsBranch(op) <==> 13 <= Code(op) <= 17
  {
  }

  /** The eleven opcodes that produce a register result: writeback stores it
      and Register-Read marks the destination busy. */
  predicate WritesRegister(op: Opcode) {
    op in {MUL, ADD, SUB, DIV, MULL, ADDL, SUBL, DIVL, SET, LD, LDL}
  }

  /** A parsed instruction. `instructionNo` is its line number in the program;
      fields an opcode has no operand for stay 0. The text of the line
      is kept by the simulator only for printing and is not modelled. */
  datatype Instruction = Instruction(instructionNo: int, opcode: Opcode, rd: int, rs1: int, rs2: int, op1: int)

  predicate IsRegister(r: int) {
    0 <= r < REG_COUNT
  }

  /** The register fields an opcode actually uses name one of the registers;
      `cpu.c` indexes its register file with them unchecked. */
  predicate RegisterFieldsOk(inst: Instruction) {
    match inst.opcode
    case MULL | ADDL | SUBL | DIVL => IsRegister(inst.rd) && IsRegister(inst.rs1) && IsRegister(inst.rs2)
    case MUL | ADD | SUB | DIV | LDL | STL => IsRegister(inst.rd) && IsRegister(inst.rs1)
    case LD | ST | SET | BEZ | BGEZ | BLEZ | BGTZ | BLTZ => IsRegister(inst.rd)
    case RET => true
  }

  /** What the model assumes of the instruction table: entry `i` is line
      `i`, as the loader numbers them, and every register field an opcode
      uses names one of R0..R15, which the loader's patterns do not
      check. */
  predicate WellFormedCode(code: seq<Instruction>) {
    forall i :: 0 <= i < |code| ==> code[i].instructionNo == i && RegisterFieldsOk(code[i])
  }

  function Abs(x: int): nat {
    if x < 0 then -x else x
  }

  /** C's `/` on ints: the quotient truncated toward zero (section 6.5.5 of
      ISO C99), unlike Dafny's Euclidean `/`. Overflow of the 32-bit
      quotient is not modelled. */
  function TDiv(a: int, b: int): (q: int)
    requires b != 0
    ensures Abs(a - q * b) < Abs(b)
    ensures a - q * b == 0 || (a - q * b < 0 <==> a < 0)
  {
    var m := Abs(a) / Abs(b);
    var q := if (a < 0) == (b < 0) then m else -m;
    TruncatedRemainder(a, b, m, q);
    q
  }

  /** The remainder left by the truncated quotient has the magnitude of the
      remainder of the magnitudes and the sign of the dividend. */
  lemma TruncatedRemainder(a: int, b: int, m: int, q: int)
    requires b != 0 && m == Abs(a) / Abs(b) && q == if (a < 0) == (b < 0) then m else -m
    ensures a - q * b == if a < 0 then -(Abs(a) % Abs(b)) else Abs(a) % Abs(b)
  {
    var A, B := Abs(a), Abs(b);
    assert A == m * B + A % B;
    var p := m * B;
    if b < 0 {
      assert m * b == -p;
      if a < 0 { assert q * b == -p; } else { assert q * b == (-m) * b == p; }
    } else {
      assert m * b == p;
      if a < 0 { assert q * b == (-m) * b == -p; } else { assert q * b == p; }
    }
  }

  /** On non-negative operands C's division agrees with Dafny's. */
  lemma TDivNonNegative(a: int, b: int)
    requires a >= 0 && b > 0
    ensures TDiv(a, b) == a / b
  {
  }

  /** With a negative dividend and a positive divisor the two differ by one
      whenever the division is inexact: C rounds up toward zero where
      Dafny rounds down. */
  lemma {:induction false} TDivTruncates(a: int, b: int)
    requires a < 0 && b > 0
    ensures TDiv(a, b) == if a % b == 0 then a / b else a / b + 1
  {
    var q := TDiv(a, b);
    var k := a / b - q;
    assert a == (a / b) * b + a % b;
    assert a - q * b == k * b + a % b;
    assert (k - 1) * b == k * b - b && (k + 2) * b == k * b + 2 * b;
    ProductSign(k - 1, b);
    ProductSign(k + 2, b);
  }

  lemma ProductSign(x: int, b: int)
    requires b > 0
    ensures x * b < 0 ==> x < 0
    ensures x * b > 0 ==> x > 0
  {
  }
}
