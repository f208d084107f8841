/** The processor record: eleven single-slot stage latches, the register
    file, the data memory, the four forwarding channels, the hazard flags and
    the predictor tables, and the invariant every cycle keeps. */
module Machine {
  import opened Isa
  import Predictor

  /** The contents of one stage. `inst` is the position of the instruction in
      the instruction table; the other fields are whatever the stages wrote,
      and they travel with the latch when it moves on. */
  datatype Latch = Latch(
    pc: int,
    inst: nat,
    destValue: int,
    src1Value: int,
    src2Value: int,
    result: int,
    addr: int,
    occupied: bool)

  const EmptyLatch: Latch := Latch(0, 0, 0, 0, 0, 0, 0, false)

  /** `isWriting` marks a register an in-flight instruction will write. */
  datatype Register = Register(value: int, isWriting: bool)

  /** `halt` is raised by Register-Read on a busy source register (`reg`);
      `endHalt` carries it over to the following cycle. */
  datatype Halt = Halt(halt: bool, reg: int, endHalt: bool)

  /** A one-cycle forwarding channel holding a produced register value. */
  datatype Bubble = Bubble(valid: bool, reg: int, val: int)

  const NoBubble: Bubble := Bubble(false, 0, 0)

  datatype Cpu = Cpu(
    pc: int,
    clockCycle: nat,
    stalledCycles: nat,
    /** Instructions that left writeback. */
    simulationCount: nat,
    dataMem: seq<int>,
    regs: seq<Register>,
    flush: bool,
    haltFlag: Halt,
    addBubble: Bubble,
    mulBubble: Bubble,
    divBubble: Bubble,
    memoryBubble: Bubble,
    fetch: Latch,
    decode: Latch,
    analyze: Latch,
    readRegisters: Latch,
    add: Latch,
    mul: Latch,
    div: Latch,
    branch: Latch,
    mem1: Latch,
    mem2: Latch,
    writeback: Latch,
    predictor: Predictor.Tables)

  /** The stages in pipeline order. */
  datatype StageName =
    | Fetch | Decode | Analyze | ReadRegisters | AddUnit | MulUnit | DivUnit
    | BranchUnit | Mem1 | Mem2 | Writeback

  function Position(st: StageName): (p: nat)
    ensures p < 11
  {
    match st
    case Fetch => 0  case Decode => 1  case Analyze => 2  case ReadRegisters => 3
    case AddUnit => 4  case MulUnit => 5  case DivUnit => 6  case BranchUnit => 7
    case Mem1 => 8  case Mem2 => 9  case Writeback => 10
  }

  /** The stage an instruction comes from. */
  function Upstream(st: StageName): (u: StageName)
    requires st != Fetch
    ensures Position(u) + 1 == Position(st)
  {
    match st
    case Decode => Fetch  case Analyze => Decode  case ReadRegisters => Analyze
    case AddUnit => ReadRegisters  case MulUnit => AddUnit  case DivUnit => MulUnit
    case BranchUnit => DivUnit  case Mem1 => BranchUnit  case Mem2 => Mem1
    case Writeback => Mem2
  }

  function LatchAt(s: Cpu, st: StageName): Latch
  {
    match st
    case Fetch => s.fetch  case Decode => s.decode  case Analyze => s.analyze
    case ReadRegisters => s.readRegisters  case AddUnit => s.add  case MulUnit => s.mul
    case DivUnit => s.div  case BranchUnit => s.branch  case Mem1 => s.mem1
    case Mem2 => s.mem2  case Writeback => s.writeback
  }

  /** The stages a misprediction squashes: everything younger than Branch. */
  predicate IsFront(st: StageName)
  {
    Position(st) < Position(BranchUnit)
  }

  /** An occupied latch refers to an instruction of the table. */
  predicate LatchRefersToCode(code: seq<Instruction>, l: Latch)
  {
    l.occupied ==> l.inst < |code|
  }

  /** A decoded latch of a register-writing instruction carries the
      instruction's destination register in `destValue`; Register-Read marks
      that register busy. */
  predicate DestDecoded(code: seq<Instruction>, l: Latch)
    requires LatchRefersToCode(code, l)
  {
    l.occupied && WritesRegister(code[l.inst].opcode) ==> l.destValue == code[l.inst].rd
  }

  /** A decoded latch of a conditional branch carries the branch's target,
      its immediate, in `src1Value`; the Branch stage resolves with it. */
  predicate TargetDecoded(code: seq<Instruction>, l: Latch)
    requires LatchRefersToCode(code, l)
  {
    l.occupied && IsBranch(code[l.inst].opcode) ==> l.src1Value == code[l.inst].op1
  }

  /** What decode establishes and the stages up to Branch keep. */
  predicate Decoded(code: seq<Instruction>, l: Latch)
    requires LatchRefersToCode(code, l)
  {
    DestDecoded(code, l) && TargetDecoded(code, l)
  }

  /** The invariant kept at every cycle boundary. */
  predicate Valid(code: seq<Instruction>, s: Cpu)
  {
    && WellFormedCode(code)
    && |s.regs| == REG_COUNT
    && |s.dataMem| == MEMORY_SIZE
    && Predictor.Valid(s.predictor)
    && Predictor.TagsBehindTaken(s.predictor)
    && LatchesReferToCode(code, s)
  }

  /** Every occupied latch holds an instruction of the table, and the
      latches from Analyze to Branch carry what decode put there: the
      destination of a register-writing instruction and the target of a
      branch. */
  predicate LatchesReferToCode(code: seq<Instruction>, s: Cpu)
  {
    && LatchRefersToCode(code, s.fetch)
    && LatchRefersToCode(code, s.decode)
    && LatchRefersToCode(code, s.analyze)
    && LatchRefersToCode(code, s.readRegisters)
    && LatchRefersToCode(code, s.add)
    && LatchRefersToCode(code, s.mul)
    && LatchRefersToCode(code, s.div)
    && LatchRefersToCode(code, s.branch)
    && LatchRefersToCode(code, s.mem1)
    && LatchRefersToCode(code, s.mem2)
    && LatchRefersToCode(code, s.writeback)
    && Decoded(code, s.analyze)
    && Decoded(code, s.readRegisters)
    && Decoded(code, s.add)
    && Decoded(code, s.mul)
    && Decoded(code, s.div)
    && Decoded(code, s.branch)
  }

  /** The clock, stall and retirement counters agree. */
  predicate SameCounters(s: Cpu, t: Cpu)
  {
    && t.clockCycle == s.clockCycle
    && t.stalledCycles == s.stalledCycles
    && t.simulationCount == s.simulationCount
  }

  lemma ValidLatch(code: seq<Instruction>, s: Cpu, st: StageName)
    requires Valid(code, s)
    ensures LatchRefersToCode(code, LatchAt(s, st))
  {
  }

  /** The instruction an occupied latch holds. */
  function InstAt(code: seq<Instruction>, s: Cpu, st: StageName): Instruction
    requires Valid(code, s) && LatchAt(s, st).occupied
  {
    ValidLatch(code, s, st);
    code[LatchAt(s, st).inst]
  }

  /** The processor before the first cycle: every latch empty, every register
      0 and free, no channel valid, the predictor initialised, `dataMem` the
      loaded memory image. */
  function Initial(code: seq<Instruction>, dataMem: seq<int>): (s: Cpu)
    requires WellFormedCode(code) && |dataMem| == MEMORY_SIZE
    ensures Valid(code, s)
    ensures forall st :: !LatchAt(s, st).occupied
    ensures forall r :: 0 <= r < REG_COUNT ==> s.regs[r] == Register(0, false)
    ensures s.pc == 0 && s.clockCycle == 0 && s.stalledCycles == 0 && s.simulationCount == 0
    ensures s.dataMem == dataMem && s.predictor == Predictor.Init()
    ensures !s.flush && !s.haltFlag.halt && !s.haltFlag.endHalt
    ensures !s.addBubble.valid && !s.mulBubble.valid && !s.divBubble.valid && !s.memoryBubble.valid
  {
    Cpu(0, 0, 0, 0, dataMem, seq(REG_COUNT, _ => Register(0, false)), false, Halt(false, 0, false),
        NoBubble, NoBubble, NoBubble, NoBubble,
        EmptyLatch, EmptyLatch, EmptyLatch, EmptyLatch, EmptyLatch, EmptyLatch,
        EmptyLatch, EmptyLatch, EmptyLatch, EmptyLatch, EmptyLatch,
        Predictor.Init())
  }
}
