/** The pure helpers of the instruction loader: telling the register form of
    a mnemonic apart, looking the mnemonic up in the opcode table, and
    distributing the captured operands over the instruction's fields. The
    regular-expression matching that produces the mnemonic text and the
    operands is not modelled. */
module Parser {
  import opened Wrappers
  import opened Isa

  /** The mnemonic table; position `i` names the opcode with code `i`. */
  const Names: seq<string> := [
    "mul", "add", "sub", "div", "ld", "st", "mull", "addl", "subl", "divl",
    "ldl", "stl", "set", "bez", "bgez", "blez", "bgtz", "bltz", "ret"]

  /** Number of 'R' characters in `s`. */
  function CountR(s: string): nat
  {
    if |s| == 0 then 0 else CountR(s[..|s| - 1]) + (if s[|s| - 1] == 'R' then 1 else 0)
  }

  lemma {:induction false} CountRPrefix(s: string, i: nat, j: nat)
    requires i <= j <= |s|
    ensures CountR(s[..i]) <= CountR(s[..j])
    decreases j - i
  {
    if i < j {
      CountRPrefix(s, i, j - 1);
      assert s[..j][..j - 1] == s[..j - 1];
    }
  }

  /** How many 'R's a line needs to be the register-register form: two for
      the memory mnemonics `st` and `ld`, three for every other one. */
  function RThreshold(mnemonic: string): nat
  {
    if mnemonic == "st" || mnemonic == "ld" then 2 else 3
  }

  /** `has_two_R_letters`: scans the line and stops as soon as the threshold
      number of 'R's has been seen. */
  method HasRegisterForm(line: string, mnemonic: string) returns (b: bool)
    ensures b <==> CountR(line) >= RThreshold(mnemonic)
  {
    var threshold := if mnemonic == "st" || mnemonic == "ld" then 2 else 3;
    var count := 0;
    var i := 0;
    while i < |line|
      invariant 0 <= i <= |line|
      invariant count == CountR(line[..i])
      invariant count < threshold
    {
      assert line[..i + 1][..i] == line[..i];
      if line[i] == 'R' {
        count := count + 1;
        if count == threshold {
          CountRPrefix(line, i + 1, |line|);
          assert line[..|line|] == line;
          return true;
        }
      }
      i := i + 1;
    }
    assert line[..i] == line;
    return false;
  }

  /** The key `getIndex` searches for: the register form appends "l",
      except to `set` and `ret`. */
  function LookupKey(mnemonic: string, hasRegister: bool): string
  {
    if hasRegister && mnemonic != "set" && mnemonic != "ret" then mnemonic + "l" else mnemonic
  }

  /** `getIndex`: the first position of the key in the table, or -1. */
  method GetIndex(table: seq<string>, mnemonic: string, hasRegister: bool) returns (i: int)
    ensures -1 <= i < |table|
    ensures i == -1 <==> forall j :: 0 <= j < |table| ==> table[j] != LookupKey(mnemonic, hasRegister)
    ensures i >= 0 ==> table[i] == LookupKey(mnemonic, hasRegister)
    ensures forall j :: 0 <= j < i ==> table[j] != LookupKey(mnemonic, hasRegister)
  {
    var key := if hasRegister && mnemonic != "set" && mnemonic != "ret" then mnemonic + "l" else mnemonic;
    var k := 0;
    while k < |table|
      invariant 0 <= k <= |table|
      invariant forall j :: 0 <= j < k ==> table[j] != key
    {
      if table[k] == key {
        return k;
      }
      k := k + 1;
    }
    return -1;
  }

  /** The mnemonic as it is written in a program line: the register-register
      forms are written like their immediate forms and told apart by their
      operands. */
  function WrittenMnemonic(op: Opcode): string
  {
    match op
    case MUL | MULL => "mul"  case ADD | ADDL => "add"
    case SUB | SUBL => "sub"  case DIV | DIVL => "div"
    case LD | LDL => "ld"     case ST | STL => "st"
    case SET => "set"  case BEZ => "bez"  case BGEZ => "bgez"
    case BLEZ => "blez"  case BGTZ => "bgtz"  case BLTZ => "bltz"  case RET => "ret"
  }

  /** The opcodes whose line carries only register operands. */
  predicate IsRegisterForm(op: Opcode)
  {
    op in {MULL, ADDL, SUBL, DIVL, LDL, STL}
  }

  /** Looking up the written mnemonic of any opcode, with its form, finds
      exactly that opcode's code: the table has no earlier entry equal to
      the key, so the linear search stops at the opcode's own position. */
  lemma LookupFindsOpcode(op: Opcode)
    ensures Names[Code(op)] == LookupKey(WrittenMnemonic(op), IsRegisterForm(op))
    ensures forall j :: 0 <= j < Code(op) ==> Names[j] != LookupKey(WrittenMnemonic(op), IsRegisterForm(op))
  {
  }

  /** The opcode `parse_instructions` stores: the position `getIndex` finds
      in the mnemonic table, read as an opcode number. A key missing from the
      table gives no opcode; the parser itself would go on with -1. Every
      opcode written in its own form is recognised as itself. */
  method OpcodeOf(mnemonic: string, hasRegister: bool) returns (r: Option<Opcode>)
    ensures r.None? <==> forall j :: 0 <= j < |Names| ==> Names[j] != LookupKey(mnemonic, hasRegister)
    ensures r.Some? ==> Names[Code(r.value)] == LookupKey(mnemonic, hasRegister)
    ensures forall op :: LookupKey(WrittenMnemonic(op), IsRegisterForm(op)) == LookupKey(mnemonic, hasRegister) ==>
      r == Some(op)
  {
    var i := GetIndex(Names, mnemonic, hasRegister);
    r := FromCode(i);
    forall op | LookupKey(WrittenMnemonic(op), IsRegisterForm(op)) == LookupKey(mnemonic, hasRegister)
      ensures r == Some(op)
    {
      LookupFindsOpcode(op);
      CodeRoundTrip(op);
    }
  }

  /** The fields of an instruction that the parser can fill. */
  datatype Field = Rd | Rs1 | Rs2 | Op1

  function FieldOf(inst: Instruction, f: Field): int
  {
    match f
    case Rd => inst.rd
    case Rs1 => inst.rs1
    case Rs2 => inst.rs2
    case Op1 => inst.op1
  }

  /** The field that receives each captured operand, in the order the
      operands appear in the line. */
  function OperandFields(op: Opcode): seq<Field>
  {
    match op
    case MUL | ADD | SUB | DIV => [Rd, Rs1, Op1]
    case MULL | ADDL | SUBL | DIVL => [Rd, Rs1, Rs2]
    case SET | LD | ST | BEZ | BGEZ | BLEZ | BGTZ | BLTZ => [Rd, Op1]
    case LDL | STL => [Rd, Rs1]
    case RET => []
  }

  /** The opcode switch of `parse_instructions`: the instruction record starts
      zeroed and receives the captured operands per opcode. */
  function AssignOperands(no: int, op: Opcode, operands: seq<int>): (inst: Instruction)
    requires |operands| == 3
    ensures inst.instructionNo == no && inst.opcode == op
    ensures forall k :: 0 <= k < |OperandFields(op)| ==> FieldOf(inst, OperandFields(op)[k]) == operands[k]
    ensures forall f :: f !in OperandFields(op) ==> FieldOf(inst, f) == 0
  {
    var zero := Instruction(no, op, 0, 0, 0, 0);
    match op
    case MUL | ADD | SUB | DIV => zero.(rd := operands[0], rs1 := operands[1], op1 := operands[2])
    case MULL | ADDL | SUBL | DIVL => zero.(rd := operands[0], rs1 := operands[1], rs2 := operands[2])
    case SET | LD | ST | BEZ | BGEZ | BLEZ | BGTZ | BLTZ => zero.(rd := operands[0], op1 := operands[1])
    case LDL | STL => zero.(rd := operands[0], rs1 := operands[1])
    case RET => zero
  }
}
