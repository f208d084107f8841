/** The dynamic branch predictor: a 16-entry branch target buffer (BTB) and
    a 16-entry pattern table (PT) of 3-bit saturating counters, both indexed
    by the same bits of the branch's byte address. The tables are fields of
    the processor state here rather than globals. */
module Predictor {

  const BTB_SIZE: nat := 16
  const PT_SIZE: nat := 16
  const PC_TAG: bv32 := 0xFFFF_FFC0
  /** Largest value of a 3-bit counter. */
  const COUNTER_MAX: int := 7
  /** A counter at or above this value predicts taken. */
  const TAKEN_THRESHOLD: int := 4
  const INITIAL_COUNTER: int := 3

  datatype BtbEntry = BtbEntry(tag: int, targetAddress: int)
  datatype PtEntry = PtEntry(counter: int)
  datatype Tables = Tables(btb: seq<BtbEntry>, pt: seq<PtEntry>)

  predicate Valid(t: Tables) {
    && |t.btb| == BTB_SIZE
    && |t.pt| == PT_SIZE
    && forall i :: 0 <= i < PT_SIZE ==> 0 <= t.pt[i].counter <= COUNTER_MAX
  }

  /** Every counter that predicts taken sits at an index whose BTB tag was
      written by a resolved branch (tags start at -1 and are never negative
      once written). */
  predicate TagsBehindTaken(t: Tables)
    requires Valid(t)
  {
    forall i :: 0 <= i < PT_SIZE ==> t.pt[i].counter >= TAKEN_THRESHOLD ==> t.btb[i].tag >= 0
  }

  /** `initBranchPredictor`. */
  function Init(): (t: Tables)
    ensures Valid(t) && TagsBehindTaken(t)
    ensures forall i :: 0 <= i < BTB_SIZE ==> t.btb[i].tag == -1 && t.btb[i].targetAddress == -1
    ensures forall i :: 0 <= i < PT_SIZE ==> t.pt[i].counter == INITIAL_COUNTER
  {
    Tables(seq(BTB_SIZE, _ => BtbEntry(-1, -1)), seq(PT_SIZE, _ => PtEntry(INITIAL_COUNTER)))
  }

  /** `(pc >> 2) & 0xF` for a byte address `pc`. On a signed int `>>` is an
      arithmetic shift, which is floor division by 4 as Dafny's `/` by a
      positive divisor is, and `& 0xF` keeps the low four bits of the two's
      complement value, which is Dafny's non-negative `% 16`. */
  function Index(pc: int): (i: int)
    ensures 0 <= i < BTB_SIZE && i < PT_SIZE
  {
    (pc / 4) % 16
  }

  /** `(pc & PC_TAG) >> 6`: the mask is an unsigned constant, so `pc` is
      converted to unsigned 32 bits first and the shift is logical. */
  function Tag(pc: int): (tag: int)
    ensures tag >= 0
  {
    var u := (pc % 0x1_0000_0000) as bv32;
    ((u & PC_TAG) >> 6) as int
  }

  /** Branch instructions are addressed by `instruction_no * 4`; the index is
      then the instruction number modulo 16, so prediction at fetch (which
      computes the index from the instruction number) and resolution (which
      computes it from the byte address) use the same entry. */
  lemma IndexOfInstruction(n: int)
    ensures Index(n * 4) == n % 16
  {
    assert (n * 4) / 4 == n;
  }

  /** `predictBranchOutcome(n)` for instruction number `n`: the counter of
      entry `n mod 16` predicts taken. The BTB is not consulted. */
  function PredictTaken(t: Tables, n: int): (b: bool)
    requires Valid(t)
    ensures b <==> t.pt[n % PT_SIZE].counter >= TAKEN_THRESHOLD
  {
    IndexOfInstruction(n);
    t.pt[Index(n * 4)].counter >= TAKEN_THRESHOLD
  }

  /** The flush test of `updateBranchPredictor`, made against the tables as
      they were before this resolution updates them: it flushes exactly when
      the outcome differs from "taken", read as a BTB hit (a written tag)
      whose counter predicts taken. */
  function Mispredicted(t: Tables, pc: int, taken: bool): (r: bool)
    requires Valid(t)
    ensures r <==> taken != (t.btb[Index(pc)].tag >= 0 && t.pt[Index(pc)].counter >= TAKEN_THRESHOLD)
  {
    var i := Index(pc);
    if taken then t.btb[i].tag < 0 || t.pt[i].counter < TAKEN_THRESHOLD
    else t.btb[i].tag >= 0 && t.pt[i].counter >= TAKEN_THRESHOLD
  }

  /** One step of a saturating counter. */
  function Saturate(c: int, taken: bool): int
  {
    if taken then (if c < COUNTER_MAX then c + 1 else c)
    else (if c > 0 then c - 1 else c)
  }

  function Min(a: int, b: int): int { if a < b then a else b }
  function Max(a: int, b: int): int { if a < b then b else a }

  /** The table update of `updateBranchPredictor`: the BTB entry is always
      overwritten, the counter moves one step toward the outcome, and no
      other entry changes. */
  function Train(t: Tables, pc: int, addr: int, taken: bool): (t': Tables)
    requires Valid(t)
    ensures Valid(t')
    ensures TagsBehindTaken(t) ==> TagsBehindTaken(t')
    ensures t'.btb[Index(pc)] == BtbEntry(Tag(pc), addr)
    ensures taken ==> t'.pt[Index(pc)].counter == Min(t.pt[Index(pc)].counter + 1, COUNTER_MAX)
    ensures !taken ==> t'.pt[Index(pc)].counter == Max(t.pt[Index(pc)].counter - 1, 0)
    ensures forall j :: 0 <= j < PT_SIZE && j != Index(pc) ==> t'.btb[j] == t.btb[j] && t'.pt[j] == t.pt[j]
  {
    var i := Index(pc);
    Tables(t.btb[i := BtbEntry(Tag(pc), addr)], t.pt[i := PtEntry(Saturate(t.pt[i].counter, taken))])
  }

  /** Once every taken prediction is backed by a written tag (true from
      `Init` on), the flush test is exactly "the outcome differs from what
      the counter predicts". */
  lemma MispredictedIffDirectionDiffers(t: Tables, pc: int, taken: bool)
    requires Valid(t) && TagsBehindTaken(t)
    ensures Mispredicted(t, pc, taken) <==> taken != (t.pt[Index(pc)].counter >= TAKEN_THRESHOLD)
  {
  }

  /** A resolution that confirms the prediction changes no prediction: the
      counter it moves stays on the same side of the threshold, and no
      other entry changes. So a younger branch fetched while an older one
      was being confirmed sees the same prediction at resolution as at
      fetch. */
  lemma ConfirmedResolutionKeepsPredictions(t: Tables, pc: int, addr: int, taken: bool)
    requires Valid(t) && TagsBehindTaken(t) && !Mispredicted(t, pc, taken)
    ensures forall n :: PredictTaken(Train(t, pc, addr, taken), n) == PredictTaken(t, n)
  {
  }

  /** Freshly initialised tables predict not taken everywhere, so the first
      resolution of any branch flushes exactly when the branch is taken. */
  lemma InitialPrediction(n: int, pc: int, taken: bool)
    ensures !PredictTaken(Init(), n)
    ensures Mispredicted(Init(), pc, taken) <==> taken
  {
  }

  /** One resolved branch: its byte address, its target and its outcome. */
  datatype Resolution = Resolution(pc: int, addr: int, taken: bool)

  /** The tables after a sequence of resolutions, oldest first. */
  function TrainAll(t: Tables, rs: seq<Resolution>): (t': Tables)
    requires Valid(t)
    ensures Valid(t')
    ensures TagsBehindTaken(t) ==> TagsBehindTaken(t')
    decreases |rs|
  {
    if |rs| == 0 then t
    else TrainAll(Train(t, rs[0].pc, rs[0].addr, rs[0].taken), rs[1..])
  }

  /** `n` resolutions of one branch, all alike. */
  function Repeat(r: Resolution, n: nat): (rs: seq<Resolution>)
    ensures |rs| == n && forall i :: 0 <= i < n ==> rs[i] == r
  {
    seq(n, _ => r)
  }

  /** `n` consecutive resolutions of one branch with the same outcome move
      its counter `n` steps, saturating at 7 and flooring at 0. */
  lemma {:induction false} RepeatedOutcome(t: Tables, pc: int, addr: int, taken: bool, n: nat)
    requires Valid(t)
    ensures var c := t.pt[Index(pc)].counter;
      TrainAll(t, Repeat(Resolution(pc, addr, taken), n)).pt[Index(pc)].counter
        == if taken then Min(c + n, COUNTER_MAX) else Max(c - n, 0)
    decreases n
  {
    var r := Resolution(pc, addr, taken);
    if n > 0 {
      var t1 := Train(t, pc, addr, taken);
      assert Repeat(r, n)[1..] == Repeat(r, n - 1);
      RepeatedOutcome(t1, pc, addr, taken, n - 1);
    }
  }

  /** Seven equal outcomes in a row saturate the counter whatever it held. */
  lemma SaturatesAfterSeven(t: Tables, pc: int, addr: int, taken: bool, n: nat)
    requires Valid(t) && n >= 7
    ensures TrainAll(t, Repeat(Resolution(pc, addr, taken), n)).pt[Index(pc)].counter
      == if taken then COUNTER_MAX else 0
  {
    RepeatedOutcome(t, pc, addr, taken, n);
  }
}
