/** The clock: one cycle runs the stage handlers from the back of the pipeline
    to the front, each on the state the previous one left, then the
    end-of-cycle latch movement; the simulation repeats cycles until RET
    retires. */
module Simulator {
  import opened Wrappers
  import opened Isa
  import opened Machine
  import opened Control
  import opened Stages

  /** The latch movement keeps the invariant, provided the Decode latch has
      been decoded (it moves on into Analyze). */
  lemma EndOfCycleKeepsValid(code: seq<Instruction>, s: Cpu)
    requires Valid(code, s) && Decoded(code, s.decode)
    ensures Valid(code, EndOfCycle(s))
  {
    var s' := EndOfCycle(s);
    if !s.flush && !Stalling(s) {
      assert AllAdvanced(s, s');
    }
  }

  /** The handlers `CPU_run` calls after writeback, in its order: from the
      back of the pipeline to the front. */
  const HandlerOrder: seq<StageName> :=
    [Mem2, Mem1, BranchUnit, DivUnit, MulUnit, AddUnit, ReadRegisters, Analyze, Decode, Fetch]

  /** The handler of stage `st`; `analyze_stage` has an empty body. */
  function Handle(code: seq<Instruction>, s: Cpu, st: StageName): (r: Result<Cpu, Fault>)
    requires Valid(code, s) && st != Writeback
    ensures r.Success? ==> Valid(code, r.value) && SameCounters(s, r.value)
    ensures r.Success? && (st == Decode || Decoded(code, s.decode)) ==> Decoded(code, r.value.decode)
  {
    match st
    case Mem2 => Memory2Stage(code, s)
    case Mem1 => Success(Memory1Stage(code, s))
    case BranchUnit => Success(BranchStage(code, s))
    case DivUnit => DivStage(code, s)
    case MulUnit => Success(MulStage(code, s))
    case AddUnit => Success(AddStage(code, s))
    case ReadRegisters => Success(ReadRegistersStage(code, s))
    case Analyze => Success(s)
    case Decode => Success(DecodeStage(code, s))
    case Fetch => FetchStage(code, s)
  }

  /** Runs the handlers of `order` one after the other, each on the state
      the previous one left, stopping at the first fault. */
  function HandleAll(code: seq<Instruction>, s: Cpu, order: seq<StageName>): (r: Result<Cpu, Fault>)
    requires Valid(code, s) && Writeback !in order
    ensures r.Success? ==> Valid(code, r.value) && SameCounters(s, r.value)
    ensures r.Success? && (Decode in order || Decoded(code, s.decode)) ==> Decoded(code, r.value.decode)
    decreases |order|
  {
    if |order| == 0 then Success(s)
    else
      var s1 :- Handle(code, s, order[0]);
      HandleAll(code, s1, order[1..])
  }

  /** The result of one cycle: the new state and whether RET retired. */
  datatype Step = Step(cpu: Cpu, done: bool)

  /** One iteration of the loop in `CPU_run`. The cycle completes even when
      writeback reports the end of the program, as the loop body does. */
  function Cycle(code: seq<Instruction>, s: Cpu): (r: Result<Step, Fault>)
    requires Valid(code, s)
    ensures r.Success? ==> Valid(code, r.value.cpu)
    ensures r.Success? ==> r.value.cpu.clockCycle == s.clockCycle + 1
    ensures r.Success? ==> (r.value.done <==> s.writeback.occupied && InstAt(code, s, Writeback).opcode == RET)
    ensures r.Success? ==>
      r.value.cpu.simulationCount == s.simulationCount + (if s.writeback.occupied then 1 else 0)
    ensures r.Success? ==> s.stalledCycles <= r.value.cpu.stalledCycles <= s.stalledCycles + 1
  {
    var (s1, done) := WritebackStage(code, s);
    var s10 :- HandleAll(code, s1, HandlerOrder);
    EndOfCycleKeepsValid(code, s10);
    var s11 := EndOfCycle(s10);
    Success(Step(s11.(clockCycle := s11.clockCycle + 1), done))
  }

  /** Where a run stopped: `finished` when RET retired, otherwise the fuel
      ran out first. */
  datatype Outcome = Outcome(cpu: Cpu, finished: bool)

  /** The `while (!PAUSE)` loop of `CPU_run`, for at most `fuel` cycles. */
  function Run(code: seq<Instruction>, s: Cpu, fuel: nat): (r: Result<Outcome, Fault>)
    requires Valid(code, s)
    ensures r.Success? ==> Valid(code, r.value.cpu)
    ensures r.Success? ==> s.clockCycle <= r.value.cpu.clockCycle <= s.clockCycle + fuel
    ensures r.Success? && !r.value.finished ==> r.value.cpu.clockCycle == s.clockCycle + fuel
    ensures r.Success? ==>
      s.simulationCount <= r.value.cpu.simulationCount
      && r.value.cpu.simulationCount - s.simulationCount <= r.value.cpu.clockCycle - s.clockCycle
    ensures r.Success? ==>
      s.stalledCycles <= r.value.cpu.stalledCycles
      && r.value.cpu.stalledCycles - s.stalledCycles <= r.value.cpu.clockCycle - s.clockCycle
    ensures r.Success? && r.value.finished ==> r.value.cpu.simulationCount > s.simulationCount
    decreases fuel
  {
    if fuel == 0 then Success(Outcome(s, false))
    else
      match Cycle(code, s)
      case Failure(e) => Failure(e)
      case Success(step) =>
        if step.done then Success(Outcome(step.cpu, true))
        else Run(code, step.cpu, fuel - 1)
  }

  /** A faulting cycle ends the run with that fault, whatever the fuel. */
  lemma RunStopsOnFault(code: seq<Instruction>, s: Cpu, a: nat, b: nat)
    requires Valid(code, s) && a > 0 && Cycle(code, s).Failure?
    ensures Run(code, s, a + b) == Failure(Cycle(code, s).error) == Run(code, s, a)
  {
  }

  /** A cycle that retires RET ends the run, whatever fuel is left. */
  lemma RunStopsOnRet(code: seq<Instruction>, s: Cpu, a: nat, b: nat)
    requires Valid(code, s) && a > 0 && Cycle(code, s).Success? && Cycle(code, s).value.done
    ensures Run(code, s, a + b) == Success(Outcome(Cycle(code, s).value.cpu, true)) == Run(code, s, a)
  {
  }

  /** Any other cycle hands the rest of the run to the next state. */
  lemma RunContinues(code: seq<Instruction>, s: Cpu, a: nat, b: nat)
    requires Valid(code, s) && a > 0 && Cycle(code, s).Success? && !Cycle(code, s).value.done
    ensures Run(code, s, a + b) == Run(code, Cycle(code, s).value.cpu, (a - 1) + b)
    ensures Run(code, s, a) == Run(code, Cycle(code, s).value.cpu, a - 1)
  {
  }
}
