/** Pipeline control: squashing the front of the pipeline after a
    misprediction, the hazard check and forwarding lookup of Register-Read,
    and the end-of-cycle advance of the latches. */
module Control {
  import opened Isa
  import opened Machine

  /** The registers with every busy mark cleared and every value kept. */
  function ClearBusy(regs: seq<Register>): (r: seq<Register>)
    ensures |r| == |regs|
    ensures forall i :: 0 <= i < |regs| ==> r[i].value == regs[i].value && !r[i].isWriting
  {
    seq(|regs|, i requires 0 <= i < |regs| => regs[i].(isWriting := false))
  }

  /** `flushStages`: empties Fetch through Div, drops both hazard flags and
      every busy mark; Branch and the stages after it, the register values
      and everything else are left as they are. */
  function FlushStages(s: Cpu): (s': Cpu)
    requires |s.regs| == REG_COUNT
    ensures forall st :: IsFront(st) ==> LatchAt(s', st) == LatchAt(s, st).(occupied := false)
    ensures forall st :: !IsFront(st) ==> LatchAt(s', st) == LatchAt(s, st)
    ensures !s'.haltFlag.halt && !s'.haltFlag.endHalt && s'.haltFlag.reg == s.haltFlag.reg
    ensures |s'.regs| == REG_COUNT
    ensures forall r :: 0 <= r < REG_COUNT ==> s'.regs[r].value == s.regs[r].value && !s'.regs[r].isWriting
    ensures s' == s.(fetch := s'.fetch, decode := s'.decode, analyze := s'.analyze,
                     readRegisters := s'.readRegisters, add := s'.add, mul := s'.mul,
                     div := s'.div, haltFlag := s'.haltFlag, regs := s'.regs)
  {
    s.(div := s.div.(occupied := false),
       mul := s.mul.(occupied := false),
       add := s.add.(occupied := false),
       readRegisters := s.readRegisters.(occupied := false),
       analyze := s.analyze.(occupied := false),
       decode := s.decode.(occupied := false),
       fetch := s.fetch.(occupied := false),
       haltFlag := s.haltFlag.(halt := false, endHalt := false),
       regs := ClearBusy(s.regs))
  }

  /** Squashing twice is squashing once. */
  lemma FlushIdempotent(s: Cpu)
    requires |s.regs| == REG_COUNT
    ensures FlushStages(FlushStages(s)) == FlushStages(s)
  {
  }

  /** The forwarding channels in lookup order. */
  function Channels(s: Cpu): seq<Bubble>
  {
    [s.addBubble, s.mulBubble, s.divBubble, s.memoryBubble]
  }

  predicate Supplies(b: Bubble, reg: int)
  {
    b.valid && b.reg == reg
  }

  /** Reference lookup: the value of the first channel in `chs` that carries
      `reg`, or `fallback` when none does. */
  function Forwarded(chs: seq<Bubble>, reg: int, fallback: int): (v: int)
    ensures (forall k :: 0 <= k < |chs| ==> !Supplies(chs[k], reg)) ==> v == fallback
    ensures forall k :: (0 <= k < |chs| && Supplies(chs[k], reg)
                         && forall j :: 0 <= j < k ==> !Supplies(chs[j], reg)) ==> v == chs[k].val
    decreases |chs|
  {
    if |chs| == 0 then fallback
    else if Supplies(chs[0], reg) then chs[0].val
    else Forwarded(chs[1..], reg, fallback)
  }

  /** The reference lookup over the four channels, written out. */
  lemma ForwardedChannels(s: Cpu, reg: int, fallback: int)
    ensures Forwarded(Channels(s), reg, fallback) ==
      if Supplies(s.addBubble, reg) then s.addBubble.val
      else if Supplies(s.mulBubble, reg) then s.mulBubble.val
      else if Supplies(s.divBubble, reg) then s.divBubble.val
      else if Supplies(s.memoryBubble, reg) then s.memoryBubble.val
      else fallback
  {
    var c0 := Channels(s);
    var c1 := [s.mulBubble, s.divBubble, s.memoryBubble];
    var c2 := [s.divBubble, s.memoryBubble];
    var c3 := [s.memoryBubble];
    assert c0[1..] == c1 && c1[1..] == c2 && c2[1..] == c3 && c3[1..] == [];
    assert Forwarded(c3, reg, fallback) == if Supplies(s.memoryBubble, reg) then s.memoryBubble.val else fallback;
    assert Forwarded(c2, reg, fallback) == if Supplies(s.divBubble, reg) then s.divBubble.val else Forwarded(c3, reg, fallback);
    assert Forwarded(c1, reg, fallback) == if Supplies(s.mulBubble, reg) then s.mulBubble.val else Forwarded(c2, reg, fallback);
  }

  /** What `bubble_fetch` hands back: the processor (whose hazard flag it
      sets or clears), whether the register could be read, and the operand
      slot's new value. */
  datatype Fetched = Fetched(cpu: Cpu, ok: bool, value: int)

  /** `bubble_fetch`: a busy register stalls (raising `halt` and recording the
      register, leaving the operand slot's `current` value alone); otherwise
      `halt` is dropped and the value comes from the first channel carrying
      the register, in the order add, mul, div, memory, or else from the
      register file. */
  function BubbleFetch(s: Cpu, reg: int, current: int): (f: Fetched)
    requires IsRegister(reg) && |s.regs| == REG_COUNT
    ensures f.ok <==> !s.regs[reg].isWriting
    ensures !f.ok ==> f.cpu == s.(haltFlag := s.haltFlag.(halt := true, reg := reg)) && f.value == current
    ensures f.ok ==> f.cpu == s.(haltFlag := s.haltFlag.(halt := false))
    ensures f.ok ==> f.value == Forwarded(Channels(s), reg, s.regs[reg].value)
  {
    ForwardedChannels(s, reg, s.regs[reg].value);
    if s.regs[reg].isWriting then
      Fetched(s.(haltFlag := s.haltFlag.(halt := true, reg := reg)), false, current)
    else
      var t := s.(haltFlag := s.haltFlag.(halt := false));
      if s.addBubble.valid && s.addBubble.reg == reg then Fetched(t, true, s.addBubble.val)
      else if s.mulBubble.valid && s.mulBubble.reg == reg then Fetched(t, true, s.mulBubble.val)
      else if s.divBubble.valid && s.divBubble.reg == reg then Fetched(t, true, s.divBubble.val)
      else if s.memoryBubble.valid && s.memoryBubble.reg == reg then Fetched(t, true, s.memoryBubble.val)
      else Fetched(t, true, s.regs[reg].value)
  }

  /** `if (src.occupied && !dst.occupied) { dst = src; src.occupied = FALSE; }`,
      returning the new `dst` and `src`. */
  function Pass(dst: Latch, src: Latch): (Latch, Latch)
  {
    if src.occupied && !dst.occupied then (src, src.(occupied := false)) else (dst, src)
  }

  /** `if (!dst.occupied) { dst = src; src.occupied = FALSE; }`: the whole
      latch is copied even when `src` is empty. */
  function Shift(dst: Latch, src: Latch): (Latch, Latch)
  {
    if !dst.occupied then (src, src.(occupied := false)) else (dst, src)
  }

  /** Stage `st` received what its upstream stage held in `s`: it is
      occupied exactly when that stage was, and then with its contents. */
  predicate Advanced(s: Cpu, s': Cpu, st: StageName)
    requires st != Fetch
  {
    && LatchAt(s', st).occupied == LatchAt(s, Upstream(st)).occupied
    && (LatchAt(s, Upstream(st)).occupied ==> LatchAt(s', st) == LatchAt(s, Upstream(st)))
  }

  /** The front end is frozen this cycle. */
  predicate Stalling(s: Cpu)
  {
    s.haltFlag.halt || s.haltFlag.endHalt
  }

  /** The first part of `end_of_clock_cycle`: Writeback is emptied, then
      Mem2, Mem1 and Branch each move on into the slot just vacated. */
  function AdvanceBack(s: Cpu): (t: Cpu)
    ensures Advanced(s, t, Mem1) && Advanced(s, t, Mem2) && Advanced(s, t, Writeback)
    ensures t.branch == s.branch.(occupied := false)
    ensures t == s.(writeback := t.writeback, mem2 := t.mem2, mem1 := t.mem1, branch := t.branch)
  {
    var wb0 := s.writeback.(occupied := false);
    var (wb, m2a) := Pass(wb0, s.mem2);
    var (m2, m1a) := Pass(m2a, s.mem1);
    var (m1, bra) := Pass(m1a, s.branch);
    s.(writeback := wb, mem2 := m2, mem1 := m1, branch := bra)
  }

  /** The middle part, run when no flush is pending: Div, Mul and Add move
      on into the slots vacated before them. */
  function AdvanceMiddle(t: Cpu): (v: Cpu)
    requires !t.branch.occupied
    ensures Advanced(t, v, BranchUnit) && Advanced(t, v, DivUnit) && Advanced(t, v, MulUnit)
    ensures v.add == t.add.(occupied := false)
    ensures v == t.(branch := v.branch, div := v.div, mul := v.mul, add := v.add)
  {
    var (br, dv1) := Shift(t.branch, t.div);
    var (dv, ml1) := Shift(dv1, t.mul);
    var (ml, ad1) := Shift(ml1, t.add);
    t.(branch := br, div := dv, mul := ml, add := ad1)
  }

  /** The front part, run when neither a flush nor a hazard is pending:
      Read-Register, Analyze and Decode move on, and Fetch moves into Decode
      when it holds an instruction. */
  function AdvanceFront(v: Cpu): (w: Cpu)
    requires !v.add.occupied
    ensures Advanced(v, w, AddUnit) && Advanced(v, w, ReadRegisters) && Advanced(v, w, Analyze)
    ensures Advanced(v, w, Decode) && !w.fetch.occupied
    ensures w == v.(add := w.add, readRegisters := w.readRegisters, analyze := w.analyze,
                    decode := w.decode, fetch := w.fetch)
  {
    var (ad, rr1) := Shift(v.add, v.readRegisters);
    var (rr, an1) := Shift(rr1, v.analyze);
    var (an, de1) := Shift(an1, v.decode);
    var (de, fe) := Pass(de1, v.fetch);
    v.(add := ad, readRegisters := rr, analyze := an, decode := de, fetch := fe)
  }

  /** Every stage but Fetch received its upstream stage's latch. */
  predicate AllAdvanced(s: Cpu, s': Cpu)
  {
    && Advanced(s, s', Decode) && Advanced(s, s', Analyze) && Advanced(s, s', ReadRegisters)
    && Advanced(s, s', AddUnit) && Advanced(s, s', MulUnit) && Advanced(s, s', DivUnit)
    && Advanced(s, s', BranchUnit) && Advanced(s, s', Mem1) && Advanced(s, s', Mem2)
    && Advanced(s, s', Writeback)
  }

  /** The latch movement of `end_of_clock_cycle`, with the stall count and
      the flush request it updates on the way. */
  function AdvanceLatches(s: Cpu): (u: Cpu)
    ensures Advanced(s, u, Mem1) && Advanced(s, u, Mem2) && Advanced(s, u, Writeback)
    ensures !s.flush && !Stalling(s) ==>
      && AllAdvanced(s, u)
      && !u.fetch.occupied
      && u.stalledCycles == s.stalledCycles
    ensures !s.flush && Stalling(s) ==>
      && Advanced(s, u, BranchUnit) && Advanced(s, u, DivUnit) && Advanced(s, u, MulUnit)
      && !u.add.occupied
      && u.readRegisters == s.readRegisters && u.analyze == s.analyze
      && u.decode == s.decode && u.fetch == s.fetch
      && u.stalledCycles == s.stalledCycles + 1
    ensures s.flush ==>
      && !u.branch.occupied
      && u.div == s.div && u.mul == s.mul && u.add == s.add
      && u.readRegisters == s.readRegisters && u.analyze == s.analyze
      && u.decode == s.decode && u.fetch == s.fetch
      && u.stalledCycles == s.stalledCycles
    ensures u == s.(writeback := u.writeback, mem2 := u.mem2, mem1 := u.mem1, branch := u.branch,
                    div := u.div, mul := u.mul, add := u.add, readRegisters := u.readRegisters,
                    analyze := u.analyze, decode := u.decode, fetch := u.fetch,
                    stalledCycles := u.stalledCycles, flush := u.flush)
  {
    var t := AdvanceBack(s);
    if !t.flush then
      var v := AdvanceMiddle(t);
      if !v.haltFlag.halt && !v.haltFlag.endHalt then
        FreeAdvance(s);
        AdvanceFront(v)
      else
        StalledAdvance(s);
        v.(stalledCycles := v.stalledCycles + 1)
    else
      t.(flush := false)
  }

  lemma FreeAdvance(s: Cpu)
    requires !s.flush && !Stalling(s)
    ensures var w := AdvanceFront(AdvanceMiddle(AdvanceBack(s)));
      AllAdvanced(s, w) && !w.fetch.occupied && w.stalledCycles == s.stalledCycles
  {
    var t := AdvanceBack(s);
    var v := AdvanceMiddle(t);
    var w := AdvanceFront(v);
    assert Advanced(s, w, Mem1) && Advanced(s, w, Mem2) && Advanced(s, w, Writeback);
    assert Advanced(s, w, BranchUnit) && Advanced(s, w, DivUnit) && Advanced(s, w, MulUnit);
  }

  lemma StalledAdvance(s: Cpu)
    requires !s.flush && Stalling(s)
    ensures var v := AdvanceMiddle(AdvanceBack(s));
      && Advanced(s, v, BranchUnit) && Advanced(s, v, DivUnit) && Advanced(s, v, MulUnit)
      && Advanced(s, v, Mem1) && Advanced(s, v, Mem2) && Advanced(s, v, Writeback)
      && !v.add.occupied
  {
  }

  /** The flag updates that close `end_of_clock_cycle`. The
      two-level test of `cpu.c` on `halt` and `endHalt` sets `endHalt` to the value of
      `halt`. */
  function ResetFlags(u: Cpu): (s': Cpu)
    ensures forall k :: 0 <= k < |Channels(s')| ==> !Channels(s')[k].valid
    ensures s' == u.(haltFlag := s'.haltFlag, addBubble := s'.addBubble, mulBubble := s'.mulBubble,
                     divBubble := s'.divBubble, memoryBubble := s'.memoryBubble, flush := false)
    ensures s'.haltFlag == u.haltFlag.(endHalt := u.haltFlag.halt)
  {
    u.(haltFlag := u.haltFlag.(endHalt := u.haltFlag.halt),
       addBubble := u.addBubble.(valid := false),
       mulBubble := u.mulBubble.(valid := false),
       divBubble := u.divBubble.(valid := false),
       memoryBubble := u.memoryBubble.(valid := false),
       flush := false)
  }

  /** `end_of_clock_cycle`. Latches move from Writeback toward Fetch, each
      into a slot its downstream neighbour has just vacated. The back end
      (Branch to Writeback) always moves. Without a flush the middle (Div,
      Mul and Add) moves too, and the front (Fetch to Read-Register) moves
      unless a hazard freezes it, which counts one stalled cycle. With a
      flush only the back end moves. The `endHalt` flag then copies `halt`,
      the channels expire and the flush request is dropped. */
  function EndOfCycle(s: Cpu): (s': Cpu)
    ensures Advanced(s, s', Mem1) && Advanced(s, s', Mem2) && Advanced(s, s', Writeback)
    ensures !s.flush && !Stalling(s) ==>
      && AllAdvanced(s, s')
      && !s'.fetch.occupied
      && s'.stalledCycles == s.stalledCycles
    ensures !s.flush && Stalling(s) ==>
      && Advanced(s, s', BranchUnit) && Advanced(s, s', DivUnit) && Advanced(s, s', MulUnit)
      && !s'.add.occupied
      && s'.readRegisters == s.readRegisters && s'.analyze == s.analyze
      && s'.decode == s.decode && s'.fetch == s.fetch
      && s'.stalledCycles == s.stalledCycles + 1
    ensures s.flush ==>
      && !s'.branch.occupied
      && s'.div == s.div && s'.mul == s.mul && s'.add == s.add
      && s'.readRegisters == s.readRegisters && s'.analyze == s.analyze
      && s'.decode == s.decode && s'.fetch == s.fetch
      && s'.stalledCycles == s.stalledCycles
    ensures s'.haltFlag == s.haltFlag.(endHalt := s.haltFlag.halt)
    ensures !s'.flush
    ensures forall k :: 0 <= k < |Channels(s')| ==> !Channels(s')[k].valid
    ensures s'.pc == s.pc && s'.regs == s.regs && s'.dataMem == s.dataMem
    ensures s'.predictor == s.predictor && s'.clockCycle == s.clockCycle
    ensures s'.simulationCount == s.simulationCount
  {
    var u := AdvanceLatches(s);
    var s' := ResetFlags(u);
    ResetKeepsLatches(u, s');
    s'
  }

  lemma ResetKeepsLatches(u: Cpu, s': Cpu)
    requires s' == ResetFlags(u)
    ensures forall st :: LatchAt(s', st) == LatchAt(u, st)
  {
  }
}
