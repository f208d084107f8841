/** The stage handlers of the eleven-stage pipeline. Each acts on its own
    latch only when the latch is occupied, and each execute unit acts only
    on its own opcodes, passing every other instruction through unchanged. */
module Stages {
  import opened Wrappers
  import opened Isa
  import opened Machine
  import opened Control
  import Predictor
  import Parser

  /** Why a cycle cannot complete. `cpu.c` exits on a zero divisor. It does
      not check data-memory indices, and fetch checks only the upper end of
      code memory; the model stops where an access would leave the array
      (for fetch, at a negative pc). */
  datatype Fault = DivideByZero | MemoryOutOfRange | FetchOutOfRange

  predicate IsAluOp(op: Opcode) { op in {ADD, ADDL, SUB, SUBL, SET} }
  predicate IsMulOp(op: Opcode) { op in {MUL, MULL} }
  predicate IsDivOp(op: Opcode) { op in {DIV, DIVL} }
  predicate IsLoad(op: Opcode) { op in {LD, LDL} }
  predicate IsStore(op: Opcode) { op in {ST, STL} }
  predicate IsMemOp(op: Opcode) { IsLoad(op) || IsStore(op) }

  /** Every opcode but RET is handled by exactly one execute unit, and the
      register-writing opcodes are those of the add, mul and div units plus
      the loads. */
  lemma UnitsPartitionOpcodes(op: Opcode)
    ensures op != RET <==> (IsAluOp(op) || IsMulOp(op) || IsDivOp(op) || IsBranch(op) || IsMemOp(op))
    ensures !(IsAluOp(op) && IsMulOp(op)) && !(IsAluOp(op) && IsDivOp(op)) && !(IsMulOp(op) && IsDivOp(op))
    ensures !(IsBranch(op) && (IsAluOp(op) || IsMulOp(op) || IsDivOp(op) || IsMemOp(op)))
    ensures !(IsMemOp(op) && (IsAluOp(op) || IsMulOp(op) || IsDivOp(op)))
    ensures WritesRegister(op) <==> IsAluOp(op) || IsMulOp(op) || IsDivOp(op) || IsLoad(op)
  {
  }

  // ---------------------------------------------------------------- Writeback

  /** `writeback_stage`: an occupied latch retires (the retired count grows
      by one); a register-writing instruction stores its result and frees its
      destination; RET reports the end of the program. */
  function WritebackStage(code: seq<Instruction>, s: Cpu): (r: (Cpu, bool))
    requires Valid(code, s)
    ensures Valid(code, r.0)
    ensures r.1 <==> s.writeback.occupied && InstAt(code, s, Writeback).opcode == RET
    ensures r.0.simulationCount == s.simulationCount + (if s.writeback.occupied then 1 else 0)
    ensures s.writeback.occupied && WritesRegister(InstAt(code, s, Writeback).opcode) ==>
      var rd := InstAt(code, s, Writeback).rd;
      && r.0.regs[rd] == Register(s.writeback.result, false)
      && forall j :: 0 <= j < REG_COUNT && j != rd ==> r.0.regs[j] == s.regs[j]
    ensures !(s.writeback.occupied && WritesRegister(InstAt(code, s, Writeback).opcode)) ==>
      r.0.regs == s.regs
    ensures r.0 == s.(regs := r.0.regs, simulationCount := r.0.simulationCount)
  {
    if s.writeback.occupied then
      var inst := code[s.writeback.inst];
      var t := s.(simulationCount := s.simulationCount + 1);
      if WritesRegister(inst.opcode) then
        (t.(regs := t.regs[inst.rd := t.regs[inst.rd].(value := s.writeback.result, isWriting := false)]), false)
      else
        (t, inst.opcode == RET)
    else
      (s, false)
  }

  // ---------------------------------------------------------------- Memory

  /** The word a byte address names: C's `addr / 4`. */
  function WordIndex(addr: int): int
  {
    TDiv(addr, WORD_SIZE)
  }

  /** The byte address a memory instruction in Mem2 accesses: loads use the
      address Mem1 computed, stores the address decoded into `destValue`. */
  function AccessAddress(op: Opcode, l: Latch): int
  {
    if IsLoad(op) then l.addr else l.destValue
  }

  predicate InMemory(i: int)
  {
    0 <= i < MEMORY_SIZE
  }

  /** `memory2_stage`: a load reads the addressed word into `result` and
      publishes it on the memory channel; a store writes `src1Value` to the
      addressed word and nothing else. */
  function Memory2Stage(code: seq<Instruction>, s: Cpu): (r: Result<Cpu, Fault>)
    requires Valid(code, s)
    ensures r.Success? ==> SameCounters(s, r.value)
    ensures r.Failure? <==>
      s.mem2.occupied && IsMemOp(InstAt(code, s, Mem2).opcode)
      && !InMemory(WordIndex(AccessAddress(InstAt(code, s, Mem2).opcode, s.mem2)))
    ensures r.Failure? ==> r.error == MemoryOutOfRange
    ensures r.Success? ==> Valid(code, r.value)
    ensures r.Success? && !(s.mem2.occupied && IsMemOp(InstAt(code, s, Mem2).opcode)) ==> r.value == s
    ensures r.Success? && s.mem2.occupied && IsLoad(InstAt(code, s, Mem2).opcode) ==>
      var v := s.dataMem[WordIndex(s.mem2.addr)];
      && r.value.mem2 == s.mem2.(result := v)
      && r.value.memoryBubble == Bubble(true, InstAt(code, s, Mem2).rd, v)
      && r.value == s.(mem2 := r.value.mem2, memoryBubble := r.value.memoryBubble)
    ensures r.Success? && s.mem2.occupied && IsStore(InstAt(code, s, Mem2).opcode) ==>
      var i := WordIndex(s.mem2.destValue);
      && |r.value.dataMem| == |s.dataMem|
      && r.value.dataMem[i] == s.mem2.src1Value
      && (forall j :: 0 <= j < |s.dataMem| && j != i ==> r.value.dataMem[j] == s.dataMem[j])
      && r.value == s.(dataMem := r.value.dataMem)
  {
    if !s.mem2.occupied then Success(s)
    else
      var inst := code[s.mem2.inst];
      if IsLoad(inst.opcode) then
        var i := WordIndex(s.mem2.addr);
        if !InMemory(i) then Failure(MemoryOutOfRange)
        else
          var l := s.mem2.(result := s.dataMem[i]);
          Success(s.(mem2 := l, memoryBubble := Bubble(true, inst.rd, l.result)))
      else if IsStore(inst.opcode) then
        var i := WordIndex(s.mem2.destValue);
        if !InMemory(i) then Failure(MemoryOutOfRange)
        else Success(s.(dataMem := s.dataMem[i := s.mem2.src1Value]))
      else Success(s)
  }

  /** A store followed by a load of the same word reads back the stored
      value; the load sees the memory the store left behind. */
  lemma StoreThenLoad(code: seq<Instruction>, s: Cpu, load: Latch)
    requires Valid(code, s) && s.mem2.occupied && IsStore(InstAt(code, s, Mem2).opcode)
    requires Memory2Stage(code, s).Success?
    requires load.occupied && load.inst < |code| && IsLoad(code[load.inst].opcode)
    requires WordIndex(load.addr) == WordIndex(s.mem2.destValue)
    ensures var s1 := Memory2Stage(code, s).value.(mem2 := load);
      Valid(code, s1) && Memory2Stage(code, s1).Success?
      && Memory2Stage(code, s1).value.mem2.result == s.mem2.src1Value
  {
  }

  /** `memory1_stage`: a memory instruction's address is its `src1Value`. */
  function Memory1Stage(code: seq<Instruction>, s: Cpu): (s': Cpu)
    requires Valid(code, s)
    ensures SameCounters(s, s')
    ensures Valid(code, s')
    ensures s.mem1.occupied && IsMemOp(InstAt(code, s, Mem1).opcode) ==>
      s' == s.(mem1 := s.mem1.(addr := s.mem1.src1Value))
    ensures !(s.mem1.occupied && IsMemOp(InstAt(code, s, Mem1).opcode)) ==> s' == s
  {
    if s.mem1.occupied && IsMemOp(code[s.mem1.inst].opcode) then
      s.(mem1 := s.mem1.(addr := s.mem1.src1Value))
    else s
  }

  // ---------------------------------------------------------------- Branch

  /** The actual outcome of a conditional branch on the value of its
      register. */
  function Taken(op: Opcode, v: int): bool
    requires IsBranch(op)
  {
    match op
    case BEZ => v == 0
    case BGEZ => v >= 0
    case BLEZ => v <= 0
    case BGTZ => v > 0
    case BLTZ => v < 0
  }

  /** The squash of a misprediction: Fetch through Div are emptied, the
      hazard flags and busy marks are dropped, a flush is signalled and fetch
      restarts at `target`. */
  function Redirect(code: seq<Instruction>, s: Cpu, target: int): (s': Cpu)
    requires Valid(code, s)
    ensures SameCounters(s, s')
    ensures Valid(code, s')
    ensures s'.flush && s'.pc == target
    ensures forall st :: IsFront(st) ==> !LatchAt(s', st).occupied
    ensures forall st :: !IsFront(st) ==> LatchAt(s', st) == LatchAt(s, st)
    ensures !s'.haltFlag.halt && !s'.haltFlag.endHalt
    ensures forall r :: 0 <= r < REG_COUNT ==> s'.regs[r].value == s.regs[r].value && !s'.regs[r].isWriting
    ensures s'.predictor == s.predictor && s'.dataMem == s.dataMem
    ensures Channels(s') == Channels(s) && s'.haltFlag.reg == s.haltFlag.reg
  {
    FlushStages(s).(flush := true, pc := target)
  }

  /** `updateBranchPredictor` for branch instruction number `n`, target
      `addr` and outcome `taken`. The flush test reads the tables before
      they are trained; a flush sends fetch to the target (`addr / 4`) when
      taken, to the next instruction otherwise. Only the predictor and, on a
      flush, the squash change. */
  function ResolveBranch(code: seq<Instruction>, s: Cpu, n: int, addr: int, taken: bool): (s': Cpu)
    requires Valid(code, s)
    ensures SameCounters(s, s')
    ensures Valid(code, s')
    ensures s'.predictor == Predictor.Train(s.predictor, n * 4, addr, taken)
    ensures Predictor.Mispredicted(s.predictor, n * 4, taken) ==>
      s'.(predictor := s.predictor) == Redirect(code, s, if taken then TDiv(addr, WORD_SIZE) else n + 1)
    ensures !Predictor.Mispredicted(s.predictor, n * 4, taken) ==> s'.(predictor := s.predictor) == s
  {
    var s1 :=
      if Predictor.Mispredicted(s.predictor, n * 4, taken) then
        Redirect(code, s, if taken then TDiv(addr, WORD_SIZE) else n + 1)
      else s;
    s1.(predictor := Predictor.Train(s.predictor, n * 4, addr, taken))
  }

  /** `branch_stage`: a conditional branch is resolved on `src2Value` (its
      register) with target `src1Value` (its immediate). */
  function BranchStage(code: seq<Instruction>, s: Cpu): (s': Cpu)
    requires Valid(code, s)
    ensures SameCounters(s, s')
    ensures Valid(code, s')
    ensures !(s.branch.occupied && IsBranch(InstAt(code, s, BranchUnit).opcode)) ==> s' == s
    ensures s.branch.occupied && IsBranch(InstAt(code, s, BranchUnit).opcode) ==>
      var inst := InstAt(code, s, BranchUnit);
      s' == ResolveBranch(code, s, inst.instructionNo, s.branch.src1Value, Taken(inst.opcode, s.branch.src2Value))
  {
    if s.branch.occupied && IsBranch(code[s.branch.inst].opcode) then
      var inst := code[s.branch.inst];
      ResolveBranch(code, s, inst.instructionNo, s.branch.src1Value, Taken(inst.opcode, s.branch.src2Value))
    else s
  }

  // ---------------------------------------------------------------- Execute

  /** `div_stage`: DIV and DIVL divide with C's truncating division and
      publish the quotient on the div channel; a zero divisor aborts. */
  function DivStage(code: seq<Instruction>, s: Cpu): (r: Result<Cpu, Fault>)
    requires Valid(code, s)
    ensures r.Success? ==> SameCounters(s, r.value)
    ensures r.Failure? <==> s.div.occupied && IsDivOp(InstAt(code, s, DivUnit).opcode) && s.div.src2Value == 0
    ensures r.Failure? ==> r.error == DivideByZero
    ensures r.Success? ==> Valid(code, r.value)
    ensures r.Success? && s.div.occupied && IsDivOp(InstAt(code, s, DivUnit).opcode) ==>
      var q := TDiv(s.div.src1Value, s.div.src2Value);
      && r.value.div == s.div.(result := q)
      && r.value.divBubble == Bubble(true, InstAt(code, s, DivUnit).rd, q)
      && r.value == s.(div := r.value.div, divBubble := r.value.divBubble)
    ensures !(s.div.occupied && IsDivOp(InstAt(code, s, DivUnit).opcode)) ==> r == Success(s)
  {
    if s.div.occupied && IsDivOp(code[s.div.inst].opcode) then
      if s.div.src2Value == 0 then Failure(DivideByZero)
      else
        var l := s.div.(result := TDiv(s.div.src1Value, s.div.src2Value));
        Success(s.(div := l, divBubble := Bubble(true, code[s.div.inst].rd, l.result)))
    else Success(s)
  }

  /** `mul_stage`: MUL and MULL multiply (over unbounded integers) and
      publish the product on the mul channel. */
  function MulStage(code: seq<Instruction>, s: Cpu): (s': Cpu)
    requires Valid(code, s)
    ensures SameCounters(s, s')
    ensures Valid(code, s')
    ensures s.mul.occupied && IsMulOp(InstAt(code, s, MulUnit).opcode) ==>
      && s'.mul == s.mul.(result := s.mul.src1Value * s.mul.src2Value)
      && s'.mulBubble == Bubble(true, InstAt(code, s, MulUnit).rd, s.mul.src1Value * s.mul.src2Value)
      && s' == s.(mul := s'.mul, mulBubble := s'.mulBubble)
    ensures !(s.mul.occupied && IsMulOp(InstAt(code, s, MulUnit).opcode)) ==> s' == s
  {
    if s.mul.occupied && IsMulOp(code[s.mul.inst].opcode) then
      var l := s.mul.(result := s.mul.src1Value * s.mul.src2Value);
      s.(mul := l, mulBubble := Bubble(true, code[s.mul.inst].rd, l.result))
    else s
  }

  /** `add_stage`: ADD/ADDL add, SUB/SUBL subtract, SET passes its immediate
      (`src1Value`) through; all five publish on the add channel. */
  function AddStage(code: seq<Instruction>, s: Cpu): (s': Cpu)
    requires Valid(code, s)
    ensures SameCounters(s, s')
    ensures Valid(code, s')
    ensures s.add.occupied && IsAluOp(InstAt(code, s, AddUnit).opcode) ==>
      var op := InstAt(code, s, AddUnit).opcode;
      var a := s.add.src1Value;
      var b := s.add.src2Value;
      && (op in {ADD, ADDL} ==> s'.add.result == a + b)
      && (op in {SUB, SUBL} ==> s'.add.result == a - b)
      && (op == SET ==> s'.add.result == a)
      && s'.add == s.add.(result := s'.add.result)
      && s'.addBubble == Bubble(true, InstAt(code, s, AddUnit).rd, s'.add.result)
      && s' == s.(add := s'.add, addBubble := s'.addBubble)
    ensures !(s.add.occupied && IsAluOp(InstAt(code, s, AddUnit).opcode)) ==> s' == s
  {
    if s.add.occupied && IsAluOp(code[s.add.inst].opcode) then
      var op := code[s.add.inst].opcode;
      var a := s.add.src1Value;
      var b := s.add.src2Value;
      var v := if op == ADD || op == ADDL then a + b else if op == SUB || op == SUBL then a - b else a;
      s.(add := s.add.(result := v), addBubble := Bubble(true, code[s.add.inst].rd, v))
    else s
  }

  // ---------------------------------------------------------------- Register read

  /** The operand slots of a latch. */
  datatype Slot = Src1 | Src2 | Dest

  function SlotValue(l: Latch, sl: Slot): int
  {
    match sl
    case Src1 => l.src1Value
    case Src2 => l.src2Value
    case Dest => l.destValue
  }

  /** The registers Register-Read looks up, in the order it looks them up. */
  function Sources(inst: Instruction): (rs: seq<int>)
    ensures RegisterFieldsOk(inst) ==> AllRegisters(rs)
  {
    match inst.opcode
    case ADDL | SUBL | MULL | DIVL => [inst.rs1, inst.rs2]
    case ADD | SUB | MUL | DIV | LDL => [inst.rs1]
    case ST => [inst.rd]
    case STL => [inst.rd, inst.rs1]
    case BEZ | BGEZ | BLEZ | BGTZ | BLTZ => [inst.rd]
    case LD | SET | RET => []
  }

  /** The slot each looked-up register's value goes to; a store's data
      register goes to `src1Value` and STL's address register to
      `destValue`. */
  function SourceSlots(op: Opcode): seq<Slot>
  {
    match op
    case ADDL | SUBL | MULL | DIVL => [Src1, Src2]
    case ADD | SUB | MUL | DIV | LDL => [Src1]
    case ST => [Src1]
    case STL => [Src1, Dest]
    case BEZ | BGEZ | BLEZ | BGTZ | BLTZ => [Src2]
    case LD | SET | RET => []
  }

  /** Every entry of `rs` names a register. */
  predicate AllRegisters(rs: seq<int>)
  {
    forall j :: 0 <= j < |rs| ==> 0 <= rs[j] < REG_COUNT
  }

  /** None of the first `k` looked-up registers is busy. */
  predicate FreeUpTo(s: Cpu, rs: seq<int>, k: int)
    requires |s.regs| == REG_COUNT && AllRegisters(rs) && k <= |rs|
  {
    forall j :: 0 <= j < k ==> !s.regs[rs[j]].isWriting
  }

  /** Whether Register-Read marks the destination busy: LD and SET always;
      the other register-writing opcodes only once all their sources were
      free and no hazard was carried over from the previous cycle. */
  predicate MarksDest(s: Cpu, inst: Instruction)
    requires |s.regs| == REG_COUNT && RegisterFieldsOk(inst)
  {
    && WritesRegister(inst.opcode)
    && (inst.opcode in {LD, SET} || (FreeUpTo(s, Sources(inst), |Sources(inst)|) && !s.haltFlag.endHalt))
  }

  function MarkBusy(s: Cpu, r: int): (s': Cpu)
    requires IsRegister(r) && |s.regs| == REG_COUNT
  {
    s.(regs := s.regs[r := s.regs[r].(isWriting := true)])
  }

  /** Looks `reg` up with `bubble_fetch` and stores the value in `slot` of
      the Register-Read latch. */
  function ReadInto(s: Cpu, reg: int, slot: Slot): (f: Fetched)
    requires IsRegister(reg) && |s.regs| == REG_COUNT
    ensures forall sl :: sl != slot ==> SlotValue(f.cpu.readRegisters, sl) == SlotValue(s.readRegisters, sl)
  {
    var l := s.readRegisters;
    var f := BubbleFetch(s, reg, SlotValue(l, slot));
    var l' := match slot
      case Src1 => l.(src1Value := f.value)
      case Src2 => l.(src2Value := f.value)
      case Dest => l.(destValue := f.value);
    Fetched(f.cpu.(readRegisters := l'), f.ok, f.value)
  }

  /** What Register-Read does to `s` for the instruction `inst`, giving `s'`.
      Every looked-up register is checked for a pending write: the first busy
      one raises `halt`, naming it, and stops the lookups; when none is busy
      the named register is kept. So a slot takes a value only when its
      register and every register looked up before it are free, and then
      takes the forwarded value. Immediates are copied and the destination
      is marked busy as `MarksDest` says. Apart from the slots, whose frame
      `KeepsOtherSlots` states, nothing else changes. */
  predicate ReadsOperands(s: Cpu, inst: Instruction, s': Cpu)
    requires |s.regs| == REG_COUNT && RegisterFieldsOk(inst)
  {
    var rs := Sources(inst);
    var slots := SourceSlots(inst.opcode);
    && |slots| == |rs|
    && (|rs| > 0 ==> (s'.haltFlag.halt <==> !FreeUpTo(s, rs, |rs|)))
    && (s'.haltFlag.halt && |rs| > 0 ==>
          exists k :: 0 <= k < |rs| && FreeUpTo(s, rs, k) && s.regs[rs[k]].isWriting
                      && s'.haltFlag.reg == rs[k])
    && (|rs| == 0 ==> s'.haltFlag == s.haltFlag)
    && (!s'.haltFlag.halt ==> s'.haltFlag.reg == s.haltFlag.reg)
    && s'.haltFlag.endHalt == s.haltFlag.endHalt
    && (forall k :: 0 <= k < |rs| ==>
          SlotValue(s'.readRegisters, slots[k]) ==
            if FreeUpTo(s, rs, k + 1) then Forwarded(Channels(s), rs[k], s.regs[rs[k]].value)
            else SlotValue(s.readRegisters, slots[k]))
    && (inst.opcode in {ADD, SUB, MUL, DIV} ==> s'.readRegisters.src2Value == inst.op1)
    && (inst.opcode in {LD, SET} ==> s'.readRegisters.src1Value == inst.op1)
    && |s'.regs| == REG_COUNT
    && (forall r :: 0 <= r < REG_COUNT ==>
          && s'.regs[r].value == s.regs[r].value
          && (s'.regs[r].isWriting <==> s.regs[r].isWriting || (r == inst.rd && MarksDest(s, inst))))
    && s'.readRegisters.(src1Value := 0, src2Value := 0, destValue := 0)
         == s.readRegisters.(src1Value := 0, src2Value := 0, destValue := 0)
    && s' == s.(readRegisters := s'.readRegisters, regs := s'.regs, haltFlag := s'.haltFlag)
  }

  /** The slots Register-Read fills with the instruction's immediate. */
  function ImmediateSlots(op: Opcode): seq<Slot>
  {
    match op
    case ADD | SUB | MUL | DIV => [Src2]
    case LD | SET => [Src1]
    case _ => []
  }

  /** `l'` agrees with `l` on every slot that Register-Read of `inst` neither
      looks a register up for nor fills with an immediate: a branch keeps its
      target and `destValue`, every opcode but STL keeps its destination,
      and RET keeps all three slots. */
  predicate KeepsOtherSlots(inst: Instruction, l: Latch, l': Latch)
  {
    var written := SourceSlots(inst.opcode) + ImmediateSlots(inst.opcode);
    && (Src1 !in written ==> l'.src1Value == l.src1Value)
    && (Src2 !in written ==> l'.src2Value == l.src2Value)
    && (Dest !in written ==> l'.destValue == l.destValue)
  }

  /** `read_registers_stage`. */
  function ReadRegistersStage(code: seq<Instruction>, s: Cpu): (s': Cpu)
    requires Valid(code, s)
    ensures SameCounters(s, s')
    ensures Valid(code, s')
    ensures !s.readRegisters.occupied ==> s' == s
    ensures s.readRegisters.occupied ==> ReadsOperands(s, InstAt(code, s, ReadRegisters), s')
    ensures s.readRegisters.occupied ==>
      KeepsOtherSlots(InstAt(code, s, ReadRegisters), s.readRegisters, s'.readRegisters)
  {
    if !s.readRegisters.occupied then s
    else
      var inst := InstAt(code, s, ReadRegisters);
      var s' := ReadRegistersOf(s, inst);
      ReadRegistersSpec(s, inst);
      ReadRegistersKeepsValid(code, s, s');
      s'
  }

  /** Register-Read keeps the invariant: the latch keeps its instruction,
      and the destination and branch target decode put there are slots it
      does not write. */
  lemma ReadRegistersKeepsValid(code: seq<Instruction>, s: Cpu, s': Cpu)
    requires Valid(code, s) && s.readRegisters.occupied
    requires ReadsOperands(s, InstAt(code, s, ReadRegisters), s')
    requires KeepsOtherSlots(InstAt(code, s, ReadRegisters), s.readRegisters, s'.readRegisters)
    ensures Valid(code, s')
  {
    var l, l' := s.readRegisters, s'.readRegisters;
    assert l'.occupied == l.(src1Value := 0, src2Value := 0, destValue := 0).occupied;
    assert l'.inst == l.(src1Value := 0, src2Value := 0, destValue := 0).inst;
    DecodedSlotsUnwritten(code[l.inst].opcode);
  }

  /** Register-Read never writes the slots decode fills with the
      destination of a register-writing instruction or a branch's target. */
  lemma DecodedSlotsUnwritten(op: Opcode)
    ensures WritesRegister(op) ==> Dest !in SourceSlots(op) + ImmediateSlots(op)
    ensures IsBranch(op) ==> Src1 !in SourceSlots(op) + ImmediateSlots(op)
  {
  }

  /** The body of `read_registers_stage` for an occupied latch holding `inst`. */
  function ReadRegistersOf(s: Cpu, inst: Instruction): (s': Cpu)
    requires |s.regs| == REG_COUNT && RegisterFieldsOk(inst)
    requires WritesRegister(inst.opcode) ==> s.readRegisters.destValue == inst.rd
  {
    match inst.opcode
    case ADDL | SUBL | MULL | DIVL =>
      var f1 := ReadInto(s, inst.rs1, Src1);
      if !f1.ok then f1.cpu
      else
        var f2 := ReadInto(f1.cpu, inst.rs2, Src2);
        if !f2.ok || f2.cpu.haltFlag.endHalt then f2.cpu
        else MarkBusy(f2.cpu, f2.cpu.readRegisters.destValue)
    case ADD | SUB | MUL | DIV =>
      var s0 := s.(readRegisters := s.readRegisters.(src2Value := inst.op1));
      var f1 := ReadInto(s0, inst.rs1, Src1);
      if !f1.ok || f1.cpu.haltFlag.endHalt then f1.cpu
      else MarkBusy(f1.cpu, f1.cpu.readRegisters.destValue)
    case LD | SET =>
      var s0 := s.(readRegisters := s.readRegisters.(src1Value := inst.op1));
      MarkBusy(s0, s0.readRegisters.destValue)
    case LDL =>
      var f1 := ReadInto(s, inst.rs1, Src1);
      if !f1.ok || f1.cpu.haltFlag.endHalt then f1.cpu
      else MarkBusy(f1.cpu, f1.cpu.readRegisters.destValue)
    case ST =>
      ReadInto(s, inst.rd, Src1).cpu
    case STL =>
      var f1 := ReadInto(s, inst.rd, Src1);
      if !f1.ok then f1.cpu
      else ReadInto(f1.cpu, inst.rs1, Dest).cpu
    case BEZ | BGEZ | BLEZ | BGTZ | BLTZ =>
      ReadInto(s, inst.rd, Src2).cpu
    case RET => s
  }

  /** The frame of Register-Read on its own latch. */
  lemma ReadRegistersKeepsOtherSlots(s: Cpu, inst: Instruction)
    requires |s.regs| == REG_COUNT && RegisterFieldsOk(inst)
    requires WritesRegister(inst.opcode) ==> s.readRegisters.destValue == inst.rd
    ensures KeepsOtherSlots(inst, s.readRegisters, ReadRegistersOf(s, inst).readRegisters)
  {
  }

  lemma ReadRegistersSpec(s: Cpu, inst: Instruction)
    requires |s.regs| == REG_COUNT && RegisterFieldsOk(inst)
    requires WritesRegister(inst.opcode) ==> s.readRegisters.destValue == inst.rd
    ensures ReadsOperands(s, inst, ReadRegistersOf(s, inst))
    ensures KeepsOtherSlots(inst, s.readRegisters, ReadRegistersOf(s, inst).readRegisters)
  {
    ReadRegistersKeepsOtherSlots(s, inst);
    match inst.opcode
    case ADDL | SUBL | MULL | DIVL => ReadTwoRegisters(s, inst);
    case ADD | SUB | MUL | DIV => ReadRegisterAndImmediate(s, inst);
    case LD | SET | RET =>
    case LDL | ST | BEZ | BGEZ | BLEZ | BGTZ | BLTZ => ReadOneRegister(s, inst);
    case STL => ReadStoreRegisters(s, inst);
  }

  lemma ReadTwoRegisters(s: Cpu, inst: Instruction)
    requires |s.regs| == REG_COUNT && RegisterFieldsOk(inst)
    requires inst.opcode in {ADDL, SUBL, MULL, DIVL} && s.readRegisters.destValue == inst.rd
    ensures ReadsOperands(s, inst, ReadRegistersOf(s, inst))
    ensures KeepsOtherSlots(inst, s.readRegisters, ReadRegistersOf(s, inst).readRegisters)
  {
    ReadRegistersKeepsOtherSlots(s, inst);
    if s.regs[inst.rs1].isWriting {
      FirstOfTwoBusy(s, inst);
    } else if s.regs[inst.rs2].isWriting {
      SecondOfTwoBusy(s, inst);
    } else if s.haltFlag.endHalt {
      BothOfTwoFreeHeld(s, inst);
    } else {
      BothOfTwoFreeMarked(s, inst);
    }
  }

  lemma FirstOfTwoBusy(s: Cpu, inst: Instruction)
    requires |s.regs| == REG_COUNT && RegisterFieldsOk(inst)
    requires inst.opcode in {ADDL, SUBL, MULL, DIVL} && s.readRegisters.destValue == inst.rd
    requires s.regs[inst.rs1].isWriting
    ensures ReadsOperands(s, inst, ReadRegistersOf(s, inst))
  {
    var rs := Sources(inst);
    assert ReadRegistersOf(s, inst) == ReadInto(s, inst.rs1, Src1).cpu;
    assert FreeUpTo(s, rs, 0);
    assert s.regs[rs[0]].isWriting;
  }

  lemma SecondOfTwoBusy(s: Cpu, inst: Instruction)
    requires |s.regs| == REG_COUNT && RegisterFieldsOk(inst)
    requires inst.opcode in {ADDL, SUBL, MULL, DIVL} && s.readRegisters.destValue == inst.rd
    requires !s.regs[inst.rs1].isWriting && s.regs[inst.rs2].isWriting
    ensures ReadsOperands(s, inst, ReadRegistersOf(s, inst))
  {
    var rs := Sources(inst);
    var f1 := ReadInto(s, inst.rs1, Src1);
    assert Channels(f1.cpu) == Channels(s);
    assert ReadRegistersOf(s, inst) == ReadInto(f1.cpu, inst.rs2, Src2).cpu;
    assert FreeUpTo(s, rs, 1);
    assert rs[1] == inst.rs2;
  }

  /** Both sources free, but a hazard carried over from the previous cycle
      keeps the destination from being marked. */
  lemma BothOfTwoFreeHeld(s: Cpu, inst: Instruction)
    requires |s.regs| == REG_COUNT && RegisterFieldsOk(inst)
    requires inst.opcode in {ADDL, SUBL, MULL, DIVL} && s.readRegisters.destValue == inst.rd
    requires !s.regs[inst.rs1].isWriting && !s.regs[inst.rs2].isWriting && s.haltFlag.endHalt
    ensures ReadsOperands(s, inst, ReadRegistersOf(s, inst))
  {
    var rs := Sources(inst);
    var f1 := ReadInto(s, inst.rs1, Src1);
    assert Channels(f1.cpu) == Channels(s);
    var f2 := ReadInto(f1.cpu, inst.rs2, Src2);
    assert ReadRegistersOf(s, inst) == f2.cpu;
    assert FreeUpTo(s, rs, 2);
  }

  /** Both sources free and no hazard carried over: the destination is
      marked busy. */
  lemma BothOfTwoFreeMarked(s: Cpu, inst: Instruction)
    requires |s.regs| == REG_COUNT && RegisterFieldsOk(inst)
    requires inst.opcode in {ADDL, SUBL, MULL, DIVL} && s.readRegisters.destValue == inst.rd
    requires !s.regs[inst.rs1].isWriting && !s.regs[inst.rs2].isWriting && !s.haltFlag.endHalt
    ensures ReadsOperands(s, inst, ReadRegistersOf(s, inst))
  {
    var rs := Sources(inst);
    var f1 := ReadInto(s, inst.rs1, Src1);
    assert Channels(f1.cpu) == Channels(s);
    var f2 := ReadInto(f1.cpu, inst.rs2, Src2);
    assert ReadRegistersOf(s, inst) == MarkBusy(f2.cpu, inst.rd);
    assert FreeUpTo(s, rs, 2);
  }

  lemma ReadRegisterAndImmediate(s: Cpu, inst: Instruction)
    requires |s.regs| == REG_COUNT && RegisterFieldsOk(inst)
    requires inst.opcode in {ADD, SUB, MUL, DIV} && s.readRegisters.destValue == inst.rd
    ensures ReadsOperands(s, inst, ReadRegistersOf(s, inst))
    ensures KeepsOtherSlots(inst, s.readRegisters, ReadRegistersOf(s, inst).readRegisters)
  {
    ReadRegistersKeepsOtherSlots(s, inst);
    if s.regs[inst.rs1].isWriting {
      ImmediateFormBusy(s, inst);
    } else {
      ImmediateFormFree(s, inst);
    }
  }

  lemma ImmediateFormBusy(s: Cpu, inst: Instruction)
    requires |s.regs| == REG_COUNT && RegisterFieldsOk(inst)
    requires inst.opcode in {ADD, SUB, MUL, DIV} && s.readRegisters.destValue == inst.rd
    requires s.regs[inst.rs1].isWriting
    ensures ReadsOperands(s, inst, ReadRegistersOf(s, inst))
  {
    var rs := Sources(inst);
    var s0 := s.(readRegisters := s.readRegisters.(src2Value := inst.op1));
    assert ReadRegistersOf(s, inst) == ReadInto(s0, inst.rs1, Src1).cpu;
    assert FreeUpTo(s, rs, 0);
    assert s.regs[rs[0]].isWriting;
  }

  lemma ImmediateFormFree(s: Cpu, inst: Instruction)
    requires |s.regs| == REG_COUNT && RegisterFieldsOk(inst)
    requires inst.opcode in {ADD, SUB, MUL, DIV} && s.readRegisters.destValue == inst.rd
    requires !s.regs[inst.rs1].isWriting
    ensures ReadsOperands(s, inst, ReadRegistersOf(s, inst))
  {
    var rs := Sources(inst);
    var s0 := s.(readRegisters := s.readRegisters.(src2Value := inst.op1));
    assert Channels(s0) == Channels(s);
    var f1 := ReadInto(s0, inst.rs1, Src1);
    assert ReadRegistersOf(s, inst) ==
      if f1.cpu.haltFlag.endHalt then f1.cpu else MarkBusy(f1.cpu, inst.rd);
    assert FreeUpTo(s, rs, 1);
  }

  /** The opcodes that look up exactly one register. */
  lemma ReadOneRegister(s: Cpu, inst: Instruction)
    requires |s.regs| == REG_COUNT && RegisterFieldsOk(inst)
    requires inst.opcode in {LDL, ST, BEZ, BGEZ, BLEZ, BGTZ, BLTZ}
    requires inst.opcode == LDL ==> s.readRegisters.destValue == inst.rd
    ensures ReadsOperands(s, inst, ReadRegistersOf(s, inst))
    ensures KeepsOtherSlots(inst, s.readRegisters, ReadRegistersOf(s, inst).readRegisters)
  {
    ReadRegistersKeepsOtherSlots(s, inst);
    var rs := Sources(inst);
    if s.regs[rs[0]].isWriting {
      OneRegisterBusy(s, inst);
    } else if inst.opcode == LDL {
      LoadRegisterFree(s, inst);
    } else {
      TestedRegisterFree(s, inst);
    }
  }

  lemma OneRegisterBusy(s: Cpu, inst: Instruction)
    requires |s.regs| == REG_COUNT && RegisterFieldsOk(inst)
    requires inst.opcode in {LDL, ST, BEZ, BGEZ, BLEZ, BGTZ, BLTZ}
    requires inst.opcode == LDL ==> s.readRegisters.destValue == inst.rd
    requires s.regs[Sources(inst)[0]].isWriting
    ensures ReadsOperands(s, inst, ReadRegistersOf(s, inst))
  {
    var rs := Sources(inst);
    assert ReadRegistersOf(s, inst) == ReadInto(s, rs[0], SourceSlots(inst.opcode)[0]).cpu;
    assert FreeUpTo(s, rs, 0);
  }

  lemma LoadRegisterFree(s: Cpu, inst: Instruction)
    requires |s.regs| == REG_COUNT && RegisterFieldsOk(inst)
    requires inst.opcode == LDL && s.readRegisters.destValue == inst.rd
    requires !s.regs[inst.rs1].isWriting
    ensures ReadsOperands(s, inst, ReadRegistersOf(s, inst))
  {
    var rs := Sources(inst);
    var f := ReadInto(s, inst.rs1, Src1);
    assert ReadRegistersOf(s, inst) == if f.cpu.haltFlag.endHalt then f.cpu else MarkBusy(f.cpu, inst.rd);
    assert FreeUpTo(s, rs, 1);
  }

  /** ST and the conditional branches: one register, no destination. */
  lemma TestedRegisterFree(s: Cpu, inst: Instruction)
    requires |s.regs| == REG_COUNT && RegisterFieldsOk(inst)
    requires inst.opcode in {ST, BEZ, BGEZ, BLEZ, BGTZ, BLTZ}
    requires !s.regs[inst.rd].isWriting
    ensures ReadsOperands(s, inst, ReadRegistersOf(s, inst))
  {
    var rs := Sources(inst);
    assert ReadRegistersOf(s, inst) == ReadInto(s, inst.rd, SourceSlots(inst.opcode)[0]).cpu;
    assert FreeUpTo(s, rs, 1);
  }

  lemma ReadStoreRegisters(s: Cpu, inst: Instruction)
    requires |s.regs| == REG_COUNT && RegisterFieldsOk(inst) && inst.opcode == STL
    ensures ReadsOperands(s, inst, ReadRegistersOf(s, inst))
    ensures KeepsOtherSlots(inst, s.readRegisters, ReadRegistersOf(s, inst).readRegisters)
  {
    ReadRegistersKeepsOtherSlots(s, inst);
    if s.regs[inst.rd].isWriting {
      var rs := Sources(inst);
      assert ReadRegistersOf(s, inst) == ReadInto(s, inst.rd, Src1).cpu;
      assert FreeUpTo(s, rs, 0);
      assert s.regs[rs[0]].isWriting;
    } else {
      StoreDataFree(s, inst);
    }
  }

  /** STL whose data register is free goes on to look up its address
      register. */
  lemma StoreDataFree(s: Cpu, inst: Instruction)
    requires |s.regs| == REG_COUNT && RegisterFieldsOk(inst) && inst.opcode == STL
    requires !s.regs[inst.rd].isWriting
    ensures ReadsOperands(s, inst, ReadRegistersOf(s, inst))
  {
    var rs := Sources(inst);
    var f1 := ReadInto(s, inst.rd, Src1);
    assert Channels(f1.cpu) == Channels(s);
    assert ReadRegistersOf(s, inst) == ReadInto(f1.cpu, inst.rs1, Dest).cpu;
    assert FreeUpTo(s, rs, 1);
    if s.regs[inst.rs1].isWriting {
      assert rs[1] == inst.rs1;
    } else {
      assert FreeUpTo(s, rs, 2);
    }
  }

  // ---------------------------------------------------------------- Decode

  /** The operand mapping of `decode_stage`: which instruction field goes to
      which slot of the latch. Slots an opcode does not mention keep their
      contents. */
  function DecodeLatch(l: Latch, inst: Instruction): Latch
  {
    match inst.opcode
    case ADDL | SUBL | MULL | DIVL => l.(destValue := inst.rd, src1Value := inst.rs1, src2Value := inst.rs2)
    case ADD | SUB | MUL | DIV => l.(destValue := inst.rd, src1Value := inst.rs1, src2Value := inst.op1)
    case LD => l.(destValue := inst.rd, src1Value := inst.op1)
    case LDL => l.(destValue := inst.rd, src1Value := inst.rs1)
    case ST => l.(destValue := inst.op1, src1Value := inst.rd)
    case STL => l.(destValue := inst.rs1, src1Value := inst.rd)
    case SET => l.(destValue := inst.rd, src1Value := inst.op1)
    case BEZ | BGEZ | BLEZ | BGTZ | BLTZ => l.(destValue := inst.rd, src1Value := inst.op1)
    case RET => l
  }

  /** `decode_stage`. */
  function DecodeStage(code: seq<Instruction>, s: Cpu): (s': Cpu)
    requires Valid(code, s)
    ensures SameCounters(s, s')
    ensures Valid(code, s') && Decoded(code, s'.decode)
    ensures !s.decode.occupied ==> s' == s
    ensures s.decode.occupied ==> s' == s.(decode := DecodeLatch(s.decode, InstAt(code, s, Decode)))
  {
    if s.decode.occupied then s.(decode := DecodeLatch(s.decode, code[s.decode.inst])) else s
  }

  /** The slot decode gives each operand, in the order the operands are
      written in the program line. */
  function DecodeSlots(op: Opcode): seq<Slot>
  {
    match op
    case MUL | ADD | SUB | DIV | MULL | ADDL | SUBL | DIVL => [Dest, Src1, Src2]
    case LD | LDL | SET | BEZ | BGEZ | BLEZ | BGTZ | BLTZ => [Dest, Src1]
    case ST | STL => [Src1, Dest]
    case RET => []
  }

  /** Decode and the parser agree: decoding a parsed line puts the `k`-th
      written operand into slot `DecodeSlots(op)[k]`, whatever register or
      immediate field the parser filed it under, and leaves every other slot
      alone. For a store the written data register lands in `src1Value` and
      the address operand in `destValue`. */
  lemma DecodeAgreesWithParser(no: int, op: Opcode, operands: seq<int>, l: Latch)
    requires |operands| == 3
    ensures var l' := DecodeLatch(l, Parser.AssignOperands(no, op, operands));
      && |DecodeSlots(op)| == |Parser.OperandFields(op)|
      && (forall k :: 0 <= k < |DecodeSlots(op)| ==> SlotValue(l', DecodeSlots(op)[k]) == operands[k])
      && (forall sl :: sl !in DecodeSlots(op) ==> SlotValue(l', sl) == SlotValue(l, sl))
      && l'.(src1Value := 0, src2Value := 0, destValue := 0) == l.(src1Value := 0, src2Value := 0, destValue := 0)
  {
  }

  // ---------------------------------------------------------------- Fetch

  /** Where fetch goes after instruction `n`: to the immediate's word when
      the counter predicts taken and the instruction is a conditional branch
      (opcode 13..17), to the next instruction otherwise. */
  function FetchSuccessor(t: Predictor.Tables, n: int, inst: Instruction): int
    requires Predictor.Valid(t)
  {
    if Predictor.PredictTaken(t, n) && 13 <= Code(inst.opcode) <= 17 then TDiv(inst.op1, WORD_SIZE)
    else n + 1
  }

  /** Fetch fills its latch this cycle. */
  predicate Fetches(code: seq<Instruction>, s: Cpu)
  {
    !s.fetch.occupied && s.pc < |code| && !s.flush
  }

  /** `fetch_stage`: with its latch free, instructions left and no flush
      pending, it takes the instruction at `pc` and moves `pc` on to the
      predicted successor; otherwise it does nothing. */
  function FetchStage(code: seq<Instruction>, s: Cpu): (r: Result<Cpu, Fault>)
    requires Valid(code, s)
    ensures r.Success? ==> SameCounters(s, r.value)
    ensures r.Failure? <==> Fetches(code, s) && s.pc < 0
    ensures r.Failure? ==> r.error == FetchOutOfRange
    ensures r.Success? ==> Valid(code, r.value)
    ensures r.Success? && !Fetches(code, s) ==> r.value == s
    ensures r.Success? && Fetches(code, s) ==>
      && r.value.fetch == s.fetch.(pc := s.pc, inst := s.pc, occupied := true)
      && r.value.pc == FetchSuccessor(s.predictor, s.pc, code[s.pc])
      && r.value == s.(fetch := r.value.fetch, pc := r.value.pc)
  {
    if s.fetch.occupied || s.pc >= |code| || s.flush then Success(s)
    else if s.pc < 0 then Failure(FetchOutOfRange)
    else
      var inst := code[s.pc];
      Success(s.(fetch := s.fetch.(pc := s.pc, inst := s.pc, occupied := true),
                 pc := FetchSuccessor(s.predictor, s.pc, inst)))
  }

  /** Prediction and resolution fit together: when the resolution of branch
      `n` finds no misprediction against the tables fetch consulted, the
      instruction fetch chose after it is the correct one, the target's word
      if the branch is taken and `n + 1` if not. */
  lemma PredictedSuccessorIsCorrect(t: Predictor.Tables, n: int, inst: Instruction, taken: bool)
    requires Predictor.Valid(t) && Predictor.TagsBehindTaken(t)
    requires IsBranch(inst.opcode) && inst.instructionNo == n
    requires !Predictor.Mispredicted(t, inst.instructionNo * 4, taken)
    ensures FetchSuccessor(t, n, inst) == if taken then TDiv(inst.op1, WORD_SIZE) else n + 1
  {
  }

  /** When it does find a misprediction, resolution redirects fetch to that
      same correct successor: the latch still holds the target decode put
      in `src1Value`. */
  lemma MispredictionRedirectsToCorrect(code: seq<Instruction>, s: Cpu)
    requires Valid(code, s) && s.branch.occupied
    requires IsBranch(InstAt(code, s, BranchUnit).opcode)
    requires var inst := InstAt(code, s, BranchUnit);
      Predictor.Mispredicted(s.predictor, inst.instructionNo * 4, Taken(inst.opcode, s.branch.src2Value))
    ensures var inst := InstAt(code, s, BranchUnit);
      var s' := BranchStage(code, s);
      s'.flush && s'.pc == if Taken(inst.opcode, s.branch.src2Value) then TDiv(inst.op1, WORD_SIZE) else inst.instructionNo + 1
  {
  }
}
