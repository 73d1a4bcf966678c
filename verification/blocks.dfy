/** Integer superblocks: the FilIR prefix of a cached block, executed under staged cycle
    credit, after buildMicroBlock in src/cpu/micro_jit_ir.cpp and the micro branch of
    executeTrustedReversibleJitBlockImpl in src/cpu/cortex_m4.cpp. */
module Blocks {
  import opened Words
  import opened Cpu
  import opened Micro
  import opened Lowering
  import opened Timing
  import opened Sums

  const MAX_OPS: nat := 16

  // ---------------------------------------------------------------- building a block

  datatype MicroBlock = MicroBlock(ops: seq<MicroInst>, endsWithBranch: bool, entryPc: Word)

  predicate IsTerminal(op: MicroOp) {
    op == OpB || op == OpBl
  }

  /** buildMicroBlock: lower a run of sources; B and BL only at the end. */
  method BuildMicroBlock(sources: seq<MicroSource>) returns (r: Lowered<MicroBlock>)
    ensures r.Accepted? <==>
            && 0 < |sources| <= MAX_OPS
            && (forall i | 0 <= i < |sources| :: Lower(sources[i]).Accepted?)
            && (forall i | 0 <= i < |sources| - 1 :: !IsTerminal(Lower(sources[i]).inst.op))
    ensures r.Accepted? ==>
            && |r.inst.ops| == |sources| && r.inst.entryPc == sources[0].pc
            && (forall i | 0 <= i < |sources| :: Lower(sources[i]) == Accepted(r.inst.ops[i]))
            && (r.inst.endsWithBranch <==> IsTerminal(r.inst.ops[|sources| - 1].op))
  {
    hide Lower;
    if |sources| == 0 || |sources| > MAX_OPS { return Declined(BadShape); }
    var ops: seq<MicroInst> := [];
    var ends := false;
    var i := 0;
    while i < |sources|
      invariant 0 <= i == |ops| <= |sources|
      invariant forall k | 0 <= k < i :: Lower(sources[k]) == Accepted(ops[k])
      invariant forall k | 0 <= k < i && k < |sources| - 1 :: !IsTerminal(ops[k].op)
      invariant ends <==> i > 0 && IsTerminal(ops[i - 1].op)
    {
      var lowered := Lower(sources[i]);
      if lowered.Declined? { return Declined(lowered.reason); }
      var terminal := IsTerminal(lowered.inst.op);
      if terminal && i + 1 != |sources| { return Declined(BranchNotTerminal); }
      if terminal { ends := true; }
      ops := ops + [lowered.inst];
      i := i + 1;
    }
    return Accepted(MicroBlock(ops, ends, sources[0].pc));
  }

  // ---------------------------------------------------------------- checked meaning of a block

  /** The fields of a cached block slot the micro path reads, one op at a time. */
  datatype BlockOp = BlockOp(
    decoded: Decoded, pc: Word, size: int, base: nat, penalty: nat, terminator: bool)

  predicate IsControlFlow(kind: InstrKind) {
    kind == B || kind == Bl || kind == Cbz || kind == Cbnz
  }

  function EndOf(op: BlockOp): Word {
    Words.Add(op.pc, op.size)
  }

  function SourceOf(op: BlockOp): MicroSource {
    MicroSource(op.decoded, op.pc, op.size)
  }

  /** One slot entry as prepareJitBlock fills it from `code`, with its lowering. */
  predicate PreparedOp(code: Code, op: BlockOp, inst: MicroInst) {
    && op.pc in code && code[op.pc] == Fetched(op.decoded, op.size)
    && DecoderShaped(op.decoded)
    && op.base == BasePipelineCycles(op.decoded)
    && op.penalty == (if IsControlFlow(op.decoded.kind) then TakenBranchPenalty(op.decoded.kind) else 0)
    && op.terminator == (IsControlFlow(op.decoded.kind) && !(op.decoded.kind == B && op.decoded.condition != AL))
    && Lower(SourceOf(op)) == Accepted(inst)
  }

  /** A contiguous prepared block and its FilIR. */
  predicate Prepared(code: Code, block: seq<BlockOp>, micro: seq<MicroInst>) {
    && |block| == |micro|
    && (forall i | 0 <= i < |block| :: PreparedOp(code, block[i], micro[i]))
    && (forall i | 0 < i < |block| :: block[i].pc == EndOf(block[i - 1]))
  }

  predicate Ready(c: CpuState) {
    !c.halted && c.thumb && c.psr.t && !InItBlock(c.itState)
  }

  lemma StepAt(code: Code, d: Decoded, size: int, c: CpuState, m: Memory)
    requires Ready(c) && c.r[15] % 2 == 0 && c.r[15] in code && code[c.r[15]] == Fetched(d, size)
    ensures Step(code, c, m) == Retire(d, size, c, m)
    ensures FetchedSize(code, c.r[15]) == size
  {
    hide Retire;
  }

  lemma StepKeepsThumb(inst: MicroInst, g: MicroCpu)
    ensures MicroStep(inst, g).psr.t == g.psr.t
  {
    hide Effect, Taken, OpTarget, OpSequential, SetBit0;
    EffectKeepsRest(inst, g);
  }

  lemma PublishKeeps(g: MicroCpu, h: MicroCpu, c: CpuState, p: Word, q: Word)
    ensures View(Publish(g, c, p)) == g
    ensures Publish(h, Publish(g, c, p), q) == Publish(h, c, q)
    ensures Ready(c) && g.psr.t ==> Ready(Publish(g, c, p))
  {
  }

  /** Whether op `inst` is a conditional branch that fails in `g`. */
  predicate Fails(inst: MicroInst, g: MicroCpu) {
    inst.op == BCond && !Taken(inst, g)
  }

  /** What the scalar loop charges for `op` in state `g`. */
  function OwnCharge(op: BlockOp, inst: MicroInst, stall: StallFn, g: MicroCpu, f: Fetch): nat {
    (if Fails(inst, g) then 1 else op.base)
    + (if MicroStep(inst, g).pc != EndOf(op) then op.penalty else 0)
    + stall(op.pc, Sequential(f, op.pc))
  }

  /** The charges of the ops a run of the block retires. */
  function Charges(
    block: seq<BlockOp>, micro: seq<MicroInst>, stall: StallFn, g: MicroCpu, f: Fetch, limit: nat): (r: seq<nat>)
    requires |block| == |micro|
    ensures |r| == MicroRun(micro, g, limit).retired
    decreases |block|
  {
    if block == [] || limit == 0 then []
    else
      var own := OwnCharge(block[0], micro[0], stall, g, f);
      if Taken(micro[0], g) then [own]
      else [own] + Charges(block[1..], micro[1..], stall, MicroStep(micro[0], g), Fetch(true, EndOf(block[0])),
        limit - 1)
  }

  /** One op of a prepared block: the checked step and its exact charge. */
  lemma OpIsStep(code: Code, op: BlockOp, inst: MicroInst, stall: StallFn, c: CpuState, m: Memory, f: Fetch)
    requires PreparedOp(code, op, inst) && Ready(c) && c.r[15] == op.pc
    ensures
      var g := MicroStep(inst, View(c));
      var r := Step(code, c, m);
      && r.cpu == Publish(g, c, op.pc) && r.mem == m && r.stop == StepComplete
      && r.cycles + stall(op.pc, Sequential(f, op.pc)) == OwnCharge(op, inst, stall, View(c), f)
      && Ready(r.cpu) && FetchedSize(code, op.pc) == op.size
  {
    hide MicroStep, Lower, Retire, Step, Publish, View, DecoderShaped, Ready, FetchedSize;
    var s := SourceOf(op);
    LowerGate(s, inst);
    StepAt(code, op.decoded, op.size, c, m);
    assert !InItBlock(c.itState) && View(c).psr == c.psr && c.psr.t by { ReadyParts(c); }
    LoweringSound(s, inst, c, m);
    StepKeepsThumb(inst, View(c));
    PublishKeeps(MicroStep(inst, View(c)), View(c), c, op.pc, op.pc);
    CycleParts(op, inst, c);
  }

  lemma ReadyParts(c: CpuState)
    requires Ready(c)
    ensures !InItBlock(c.itState) && View(c).psr == c.psr && c.psr.t && c.r[15] == View(c).pc
  {
  }

  lemma CycleParts(op: BlockOp, inst: MicroInst, c: CpuState)
    requires Lower(SourceOf(op)) == Accepted(inst) && DecoderShaped(op.decoded) && c.r[15] == op.pc
    requires op.base == BasePipelineCycles(op.decoded)
    requires op.penalty == (if IsControlFlow(op.decoded.kind) then TakenBranchPenalty(op.decoded.kind) else 0)
    ensures
      LoweredCycles(op.decoded, op.size, c, MicroStep(inst, View(c)).pc)
      == (if Fails(inst, View(c)) then 1 else op.base)
         + (if MicroStep(inst, View(c)).pc != EndOf(op) then op.penalty else 0)
  {
    hide Lower, BasePipelineCycles, TakenBranchPenalty, MicroStep, Taken, ConditionPasses, OpTarget, View, BlankInst,
      LowerBranch, IsDataKind, IsIdleKind, LowerCompareBranch, Words.Add;
    var d := op.decoded;
    var s := SourceOf(op);
    var g := View(c);
    assert g.psr == c.psr by { ReadCore(c, op.size, 0); }
    LowerGate(s, inst);
    LowerControl(s, inst);
    AlwaysPasses(c.psr);
    if d.kind == B || d.kind == Bl {
      LoweredBranch(s, inst);
      BranchTakes(inst, g);
      BranchStep(inst, g);
    } else {
      NotConditional(s, inst, c);
    }
  }

  lemma NotConditional(s: MicroSource, inst: MicroInst, c: CpuState)
    requires Lower(s) == Accepted(inst) && DecoderShaped(s.decoded) && c.r[15] == s.pc
    requires s.decoded.kind != B && s.decoded.kind != Bl
    ensures inst.op != BCond
    ensures !IsControlFlow(s.decoded.kind) ==> MicroStep(inst, View(c)).pc == Words.Add(s.pc, s.size)
  {
    hide Lower, MicroStep, View, BlankInst, LowerBranch, IsDataKind, IsIdleKind, Words.Add, DecoderShaped, AluOf,
      Entered, Effect, CoreDest;
    LowerGate(s, inst);
    LowerControl(s, inst);
    if IsDataKind(s.decoded.kind) {
      DataEffect(s, inst, c);
      PlainStep(inst, View(c));
      KindsDisjoint(s.decoded.kind);
    } else if IsIdleKind(s.decoded.kind) {
      assert inst == BlankInst(s) by { IdleInst(s, inst); }
      assert inst.op == OpNop && inst.pc == s.pc && inst.size == s.size by { BlankParts(s); }
      PlainStep(inst, View(c));
    }
  }

  lemma KindsDisjoint(kind: InstrKind)
    requires IsDataKind(kind)
    ensures !IsControlFlow(kind)
  {
  }

  lemma BlankParts(s: MicroSource)
    ensures BlankInst(s).op == OpNop && BlankInst(s).pc == s.pc && BlankInst(s).size == s.size
  {
  }

  lemma IdleInst(s: MicroSource, inst: MicroInst)
    requires Lower(s) == Accepted(inst) && IsIdleKind(s.decoded.kind)
    ensures inst == BlankInst(s)
  {
    hide BlankInst, NoList;
  }

  predicate SameAddress(r: Lowered<MicroInst>, inst: MicroInst) {
    r.Accepted? ==> r.inst.pc == inst.pc && r.inst.size == inst.size
  }

  lemma LoweredAt(s: MicroSource, inst: MicroInst)
    requires Lower(s) == Accepted(inst)
    ensures inst.pc == s.pc && inst.size == s.size
  {
    hide LowerNop, LowerBarrier, LowerMov, LowerMovHalf, LowerAddSub, LowerCompare, LowerTst, LowerLogic, LowerShift,
      LowerExtend, LowerUbfx, LowerBranch, LowerCompareBranch, BlankInst;
    var d, blank := s.decoded, BlankInst(s);
    BlankParts(s);
    MovesKeepAddress(d, blank);
    ArithKeepsAddress(d, blank);
    OthersKeepAddress(d, blank);
  }

  lemma MovesKeepAddress(d: Decoded, inst: MicroInst)
    ensures SameAddress(LowerMov(d, inst), inst) && SameAddress(LowerMovHalf(d, inst), inst)
    ensures SameAddress(LowerNop(d, inst), inst) && SameAddress(LowerBarrier(d, inst), inst)
    ensures SameAddress(LowerBranch(d, inst), inst) && SameAddress(LowerCompareBranch(d, inst), inst)
  {
    hide NoList, ImmediateShape, RegisterShape, CoreReg, UnshiftedLsl;
  }

  lemma ArithKeepsAddress(d: Decoded, inst: MicroInst)
    ensures SameAddress(LowerAddSub(d, inst), inst) && SameAddress(LowerCompare(d, inst), inst)
    ensures SameAddress(LowerTst(d, inst), inst) && SameAddress(LowerLogic(d, inst), inst)
  {
    hide NoList, ImmediateShape, RegisterShape, CoreReg, UnshiftedLsl, LogicOp;
  }

  lemma OthersKeepAddress(d: Decoded, inst: MicroInst)
    ensures SameAddress(LowerShift(d, inst), inst) && SameAddress(LowerExtend(d, inst), inst)
            && SameAddress(LowerUbfx(d, inst), inst)
  {
    hide NoList, CoreReg, ShiftOp, ExtendOf;
  }

  lemma FallsThrough(code: Code, op: BlockOp, inst: MicroInst, g: MicroCpu)
    requires PreparedOp(code, op, inst) && !Taken(inst, g)
    ensures MicroStep(inst, g).pc == EndOf(op)
  {
    hide Lower, DecoderShaped, Taken, Effect, BasePipelineCycles;
    LoweredAt(SourceOf(op), inst);
  }

  lemma PreparedTail(code: Code, block: seq<BlockOp>, micro: seq<MicroInst>)
    requires Prepared(code, block, micro) && block != []
    ensures Prepared(code, block[1..], micro[1..])
    ensures |block| > 1 ==> block[1..][0].pc == EndOf(block[0])
  {
    hide PreparedOp;
    forall i | 0 <= i < |block[1..]|
      ensures PreparedOp(code, block[1..][i], micro[1..][i])
    {
      assert PreparedOp(code, block[i + 1], micro[i + 1]);
    }
    forall i | 0 < i < |block[1..]|
      ensures block[1..][i].pc == EndOf(block[1..][i - 1])
    {
      assert block[i + 1].pc == EndOf(block[i]);
    }
  }

  /** The core and fetch state a run of the block publishes. */
  function BlockOutcome(
    block: seq<BlockOp>, micro: seq<MicroInst>, stall: StallFn, c: CpuState, m: Memory, f: Fetch, limit: nat): Charged
    requires |block| == |micro|
  {
    var run := MicroRun(micro, View(c), limit);
    var total := Sum(Charges(block, micro, stall, View(c), f, limit));
    if run.retired == 0 then Charged(c, m, f, total)
    else
      var last := block[run.retired - 1];
      Charged(Publish(run.cpu, c, last.pc), m, Fetch(true, EndOf(last)), total)
  }

  /** A prepared block retires an exact prefix: for every instruction limit the FilIR run, its
      fetch state and its charges are those of as many checked steps. */
  lemma {:induction false} BlockIsSteps(
    code: Code, block: seq<BlockOp>, micro: seq<MicroInst>, stall: StallFn, c: CpuState, m: Memory, f: Fetch,
    limit: nat)
    requires Prepared(code, block, micro) && Ready(c)
    requires block != [] ==> c.r[15] == block[0].pc
    ensures ChargedSteps(code, stall, c, m, f, MicroRun(micro, View(c), limit).retired)
            == Some(BlockOutcome(block, micro, stall, c, m, f, limit))
    decreases |block|
  {
    hide MicroStep, Taken, Step, Publish, View, Ready, PreparedOp, OwnCharge, FetchedSize, EndOf, ChargedSteps,
      MicroRun, Charges, Sum;
    if block == [] || limit == 0 {
      RunNone(block, micro, stall, View(c), f, limit);
      ChargedNone(code, stall, c, m, f);
      SumNone();
    } else {
      var op, inst, g := block[0], micro[0], View(c);
      var c1, f1 := Publish(MicroStep(inst, g), c, op.pc), Fetch(true, EndOf(op));
      assert PreparedOp(code, op, inst);
      OpIsStep(code, op, inst, stall, c, m, f);
      EndIsFetch(code, op, c);
      RunHead(block, micro, stall, g, f, limit);
      var run := MicroRun(micro, g, limit);
      ChargedCons(code, stall, c, m, f, run.retired - 1);
      if Taken(inst, g) {
        SumOne(OwnCharge(op, inst, stall, g, f));
        ChargedNone(code, stall, c1, m, f1);
      } else {
        FallsThrough(code, op, inst, g);
        PreparedTail(code, block, micro);
        PublishedPc(MicroStep(inst, g), c, op.pc);
        PublishKeeps(MicroStep(inst, g), g, c, op.pc, op.pc);
        BlockIsSteps(code, block[1..], micro[1..], stall, c1, m, f1, limit - 1);
        var rest := MicroRun(micro[1..], MicroStep(inst, g), limit - 1);
        SumHead(OwnCharge(op, inst, stall, g, f),
          Charges(block[1..], micro[1..], stall, MicroStep(inst, g), f1, limit - 1));
        if rest.retired > 0 {
          PublishKeeps(MicroStep(inst, g), rest.cpu, c, op.pc, block[rest.retired].pc);
        } else {
          NoneRetired(micro[1..], MicroStep(inst, g), limit - 1);
        }
      }
    }
  }

  lemma RunNone(block: seq<BlockOp>, micro: seq<MicroInst>, stall: StallFn, g: MicroCpu, f: Fetch, limit: nat)
    requires |block| == |micro| && (block == [] || limit == 0)
    ensures MicroRun(micro, g, limit) == MicroRunResult(g, 0) && Charges(block, micro, stall, g, f, limit) == []
  {
  }

  lemma RunHead(block: seq<BlockOp>, micro: seq<MicroInst>, stall: StallFn, g: MicroCpu, f: Fetch, limit: nat)
    requires |block| == |micro| && block != [] && limit > 0
    ensures
      var g1, f1 := MicroStep(micro[0], g), Fetch(true, EndOf(block[0]));
      var own := OwnCharge(block[0], micro[0], stall, g, f);
      if Taken(micro[0], g) then
        MicroRun(micro, g, limit) == MicroRunResult(g1, 1) && Charges(block, micro, stall, g, f, limit) == [own]
      else
        var rest := MicroRun(micro[1..], g1, limit - 1);
        && MicroRun(micro, g, limit) == MicroRunResult(rest.cpu, rest.retired + 1)
        && Charges(block, micro, stall, g, f, limit)
           == [own] + Charges(block[1..], micro[1..], stall, g1, f1, limit - 1)
  {
    hide MicroStep, Taken, OwnCharge, EndOf;
  }

  lemma NoneRetired(micro: seq<MicroInst>, g: MicroCpu, limit: nat)
    requires MicroRun(micro, g, limit).retired == 0
    ensures MicroRun(micro, g, limit).cpu == g
  {
    hide MicroStep, Taken;
  }

  lemma SumNone()
    ensures Sum([]) == 0
  {
  }

  lemma SumOne(x: nat)
    ensures Sum([x]) == x
  {
    SumHead(x, []);
  }

  lemma EndIsFetch(code: Code, op: BlockOp, c: CpuState)
    requires FetchedSize(code, op.pc) == op.size
    ensures Words.Add(op.pc, FetchedSize(code, op.pc)) == EndOf(op)
  {
  }

  lemma TakenGoesToTarget(inst: MicroInst, g: MicroCpu)
    requires Taken(inst, g)
    ensures IsBranchOp(inst.op) && MicroStep(inst, g).pc == OpTarget(inst)
  {
    hide OpTarget, ConditionPasses, ReadOp, Effect;
  }

  /** A run stops short of the limit and of the block only at the target of a branch. */
  lemma {:induction false} StopsOnlyWhenTaken(micro: seq<MicroInst>, g: MicroCpu, limit: nat)
    ensures
      var run := MicroRun(micro, g, limit);
      run.retired < limit && run.retired < |micro| ==>
        && run.retired > 0 && IsBranchOp(micro[run.retired - 1].op)
        && run.cpu.pc == OpTarget(micro[run.retired - 1])
    decreases |micro|
  {
    hide MicroStep, Taken, OpTarget, IsBranchOp;
    if micro != [] && limit > 0 {
      if Taken(micro[0], g) {
        TakenGoesToTarget(micro[0], g);
      } else {
        StopsOnlyWhenTaken(micro[1..], MicroStep(micro[0], g), limit - 1);
      }
    }
  }

  // ---------------------------------------------------------------- staged credit

  /** Caller-owned cycle credit and fetch state. */
  datatype Budget = Budget(remaining: nat, fetch: Fetch)

  /** The failed-conditional-branch mask the kernel returns beside the retired count. */
  function FailedMask(micro: seq<MicroInst>, g: MicroCpu, limit: nat): (r: seq<bool>)
    ensures |r| == MicroRun(micro, g, limit).retired
    decreases |micro|
  {
    if micro == [] || limit == 0 then []
    else if Taken(micro[0], g) then [false]
    else [Fails(micro[0], g)] + FailedMask(micro[1..], MicroStep(micro[0], g), limit - 1)
  }

  /** Planned charge of op `i`: base cost and stall, no refill. */
  function PlannedCharge(block: seq<BlockOp>, stall: StallFn, f: Fetch, i: nat): nat
    requires i < |block|
  {
    block[i].base
    + stall(block[i].pc, Sequential(if i == 0 then f else Fetch(true, EndOf(block[i - 1])), block[i].pc))
  }

  /** Settled charge of op `i` of `n` retired ones: a failed branch costs one cycle, the last op
      pays the refill when the PC is discontinuous, everything else is as planned. */
  function SettledCharge(
    block: seq<BlockOp>, stall: StallFn, f: Fetch, failed: bool, next: Word, n: nat, i: nat): int
    requires i < |block|
  {
    PlannedCharge(block, stall, f, i) - (if failed then block[i].base - 1 else 0)
    + (if i == n - 1 && next != EndOf(block[i]) then block[i].penalty else 0)
  }

  predicate Settled(block: seq<BlockOp>, stall: StallFn, f: Fetch, failed: seq<bool>, next: Word, actual: seq<nat>)
    requires |failed| == |actual| <= |block|
  {
    forall i | 0 <= i < |actual| :: actual[i] == SettledCharge(block, stall, f, failed[i], next, |actual|, i)
  }

  lemma PlannedTail(block: seq<BlockOp>, stall: StallFn, f: Fetch, i: nat)
    requires i + 1 < |block|
    ensures PlannedCharge(block[1..], stall, Fetch(true, EndOf(block[0])), i) == PlannedCharge(block, stall, f, i + 1)
  {
    hide EndOf;
  }

  lemma SettledCons(
    block: seq<BlockOp>, stall: StallFn, f: Fetch, fail: bool, failed: seq<bool>, next: Word, own: nat, rest: seq<nat>)
    requires |failed| == |rest| < |block|
    requires Settled(block[1..], stall, Fetch(true, EndOf(block[0])), failed, next, rest)
    requires own == SettledCharge(block, stall, f, fail, next, |rest| + 1, 0)
    ensures Settled(block, stall, f, [fail] + failed, next, [own] + rest)
  {
    hide PlannedCharge, EndOf;
    var actual := [own] + rest;
    forall i | 0 <= i < |actual|
      ensures actual[i] == SettledCharge(block, stall, f, ([fail] + failed)[i], next, |actual|, i)
    {
      if i > 0 {
        PlannedTail(block, stall, f, i - 1);
        assert rest[i - 1] == SettledCharge(block[1..], stall, Fetch(true, EndOf(block[0])), failed[i - 1], next,
               |rest|, i - 1);
      }
    }
  }

  lemma OwnSettles(
    op: BlockOp, block: seq<BlockOp>, inst: MicroInst, stall: StallFn, g: MicroCpu, f: Fetch, next: Word, n: nat)
    requires block != [] && block[0] == op && n >= 1
    requires n == 1 ==> next == MicroStep(inst, g).pc
    requires n > 1 ==> MicroStep(inst, g).pc == EndOf(op)
    ensures OwnCharge(op, inst, stall, g, f) == SettledCharge(block, stall, f, Fails(inst, g), next, n, 0)
  {
    hide MicroStep, EndOf, Fails;
  }

  /** The charges of a run are the planned ones after refunds and one refill. */
  lemma {:induction false} ChargesSettle(
    code: Code, block: seq<BlockOp>, micro: seq<MicroInst>, stall: StallFn, g: MicroCpu, f: Fetch, limit: nat)
    requires Prepared(code, block, micro)
    ensures
      Settled(block, stall, f, FailedMask(micro, g, limit), MicroRun(micro, g, limit).cpu.pc,
              Charges(block, micro, stall, g, f, limit))
    decreases |block|
  {
    hide MicroStep, Taken, PreparedOp, EndOf, Fails, Settled, SettledCharge, OwnCharge, PlannedCharge;
    if block == [] || limit == 0 {
      assert Settled(block, stall, f, [], g.pc, []) by { SettledEmpty(block, stall, f, g.pc); }
    } else {
      var op, inst := block[0], micro[0];
      var g1, f1 := MicroStep(inst, g), Fetch(true, EndOf(op));
      var own := OwnCharge(op, inst, stall, g, f);
      PreparedTail(code, block, micro);
      if Taken(inst, g) {
        assert !Fails(inst, g) by { TakenIsNoFailure(inst, g); }
        OwnSettles(op, block, inst, stall, g, f, g1.pc, 1);
        SettledEmpty(block[1..], stall, f1, g1.pc);
        SettledCons(block, stall, f, false, [], g1.pc, own, []);
        assert [false] + [] == [false] && [own] + [] == [own];
      } else {
        assert PreparedOp(code, op, inst);
        FallsThrough(code, op, inst, g);
        ChargesSettle(code, block[1..], micro[1..], stall, g1, f1, limit - 1);
        var rest := Charges(block[1..], micro[1..], stall, g1, f1, limit - 1);
        var run := MicroRun(micro[1..], g1, limit - 1);
        assert rest == [] ==> run.cpu == g1;
        OwnSettles(op, block, inst, stall, g, f, run.cpu.pc, |rest| + 1);
        SettledCons(block, stall, f, Fails(inst, g), FailedMask(micro[1..], g1, limit - 1), run.cpu.pc, own, rest);
      }
    }
  }

  lemma SettledEmpty(block: seq<BlockOp>, stall: StallFn, f: Fetch, next: Word)
    ensures Settled(block, stall, f, [], next, [])
  {
  }

  lemma TakenIsNoFailure(inst: MicroInst, g: MicroCpu)
    requires Taken(inst, g)
    ensures !Fails(inst, g)
  {
  }

  lemma BaseIsPositive(d: Decoded)
    ensures BasePipelineCycles(d) >= 1
  {
  }

  /** Planned charges with the failed branches refunded. */
  function Refunded(block: seq<BlockOp>, stall: StallFn, f: Fetch, failed: bool, i: nat): int
    requires i < |block|
  {
    PlannedCharge(block, stall, f, i) - (if failed then block[i].base - 1 else 0)
  }

  /** With op `i` and everything before it paid, the credit still covers its refill. */
  predicate AffordedAt(block: seq<BlockOp>, total: seq<nat>, credit: nat, i: nat)
    requires i < |total| <= |block|
  {
    Sum(total[..i + 1]) + block[i].penalty <= credit
  }

  predicate Afforded(block: seq<BlockOp>, total: seq<nat>, credit: nat) {
    |total| <= |block| && forall i | 0 <= i < |total| :: AffordedAt(block, total, credit, i)
  }

  lemma AffordedAppend(block: seq<BlockOp>, total: seq<nat>, credit: nat, x: nat)
    requires Afforded(block, total, credit) && |total| < |block|
    requires Sum(total) + x + block[|total|].penalty <= credit
    ensures Afforded(block, total + [x], credit)
    ensures Sum(total + [x]) == Sum(total) + x
  {
    SumAppend(total, x);
    forall i | 0 <= i < |total + [x]|
      ensures AffordedAt(block, total + [x], credit, i)
    {
      if i < |total| {
        assert AffordedAt(block, total, credit, i);
        assert (total + [x])[..i + 1] == total[..i + 1];
      } else {
        assert (total + [x])[..i + 1] == total + [x];
      }
    }
  }

  predicate IsPlan(block: seq<BlockOp>, stall: StallFn, f: Fetch, total: seq<nat>) {
    |total| <= |block| && forall i | 0 <= i < |total| :: total[i] == PlannedCharge(block, stall, f, i)
  }

  function FetchAfter(block: seq<BlockOp>, f: Fetch, n: nat): Fetch
    requires n <= |block|
  {
    if n == 0 then f else Fetch(true, EndOf(block[n - 1]))
  }

  /** The address planning expects after `n` ops: unconditional branches are followed. */
  function PlannedPc(block: seq<BlockOp>, entry: Word, n: nat): Word
    requires n <= |block|
  {
    if n == 0 then entry
    else
      var op := block[n - 1];
      if (op.decoded.kind == B && op.decoded.condition == AL) || op.decoded.kind == Bl
      then ClearBit0(Wrap(op.pc + 4 + op.decoded.branchOffset)) else EndOf(op)
  }

  /** Planning may not go on to op `n`: the block is left, or the op might not be paid for. */
  predicate PlanStops(block: seq<BlockOp>, stall: StallFn, entry: Word, f: Fetch, remaining: nat, n: nat)
    requires n < |block|
  {
    var worst := PlannedCharge(block, stall, f, n) + block[n].penalty;
    || PlannedPc(block, entry, n) != block[n].pc || worst > remaining || worst > 0xffff
    || (n > 0 && block[n - 1].terminator)
  }

  lemma PlanGrows(block: seq<BlockOp>, stall: StallFn, f: Fetch, total: seq<nat>, charged: nat)
    requires IsPlan(block, stall, f, total) && |total| < |block| && charged == PlannedCharge(block, stall, f, |total|)
    ensures IsPlan(block, stall, f, total + [charged])
  {
    hide PlannedCharge;
  }

  lemma PlannedIs(block: seq<BlockOp>, stall: StallFn, f: Fetch, n: nat)
    requires n < |block|
    ensures PlannedCharge(block, stall, f, n)
            == block[n].base + stall(block[n].pc, Sequential(FetchAfter(block, f, n), block[n].pc))
  {
    hide EndOf;
  }

  /** The core and the credit its caller owns. */
  class Core {
    var cpu: CpuState
    var budget: Budget

    /** Plan with worst-case admission: how many ops fit the credit, what each is charged, and the
        credit and fetch state after all of them. Nothing is committed. */
    method Plan(block: seq<BlockOp>, limit: nat, stall: StallFn)
      returns (total: seq<nat>, remaining: nat, fetch: Fetch)
      requires limit <= |block|
      ensures |total| <= limit && IsPlan(block, stall, budget.fetch, total)
      ensures remaining + Sum(total) == budget.remaining
      ensures Afforded(block, total, budget.remaining)
      ensures fetch == FetchAfter(block, budget.fetch, |total|)
      ensures |total| == limit || PlanStops(block, stall, cpu.r[15], budget.fetch, remaining, |total|)
    {
      hide EndOf, Afforded, ClearBit0, Wrap, IsPlan, PlannedCharge, Sum;
      SumNone();
      NoCharges(block, stall, budget.fetch, budget.remaining);
      total, remaining, fetch := [], budget.remaining, budget.fetch;
      var plannedPc := cpu.r[15];
      while |total| < limit
        invariant |total| <= limit && IsPlan(block, stall, budget.fetch, total)
        invariant remaining + Sum(total) == budget.remaining
        invariant Afforded(block, total, budget.remaining)
        invariant fetch == FetchAfter(block, budget.fetch, |total|)
        invariant plannedPc == PlannedPc(block, cpu.r[15], |total|)
        decreases limit - |total|
      {
        var op := block[|total|];
        if plannedPc != op.pc { break; }
        PlannedIs(block, stall, budget.fetch, |total|);
        var stalled := stall(op.pc, Sequential(fetch, op.pc));
        // The taken refill is admitted here and charged only if it happens.
        var worst := op.base + op.penalty + stalled;
        if worst > remaining || worst > 0xffff { break; }
        var charged := op.base + stalled;
        AffordedAppend(block, total, budget.remaining, charged);
        PlanGrows(block, stall, budget.fetch, total, charged);
        total := total + [charged];
        remaining := remaining - charged;
        fetch := Fetch(true, EndOf(op));
        plannedPc := if (op.decoded.kind == B && op.decoded.condition == AL) || op.decoded.kind == Bl
                     then ClearBit0(Wrap(op.pc + 4 + op.decoded.branchOffset)) else EndOf(op);
        if op.terminator { break; }
      }
    }

    /** Give back the over-charge of failed conditional branches. */
    method Refund(block: seq<BlockOp>, stall: StallFn, failed: seq<bool>, planned: seq<nat>, credit: nat)
      returns (total: seq<nat>, remaining: nat)
      requires |failed| <= |planned| && IsPlan(block, stall, budget.fetch, planned)
      requires forall i | 0 <= i < |block| :: block[i].base >= 1
      ensures |total| == |planned| && remaining + Sum(total) == credit + Sum(planned)
      ensures forall i | 0 <= i < |failed| :: total[i] == Refunded(block, stall, budget.fetch, failed[i], i)
      ensures forall i | 0 <= i < |planned| :: total[i] <= planned[i]
    {
      hide PlannedCharge, Sum;
      total, remaining := planned, credit;
      var j := 0;
      while j < |failed|
        invariant j <= |failed| && |total| == |planned|
        invariant remaining + Sum(total) == credit + Sum(planned)
        invariant forall i | 0 <= i < j :: total[i] == Refunded(block, stall, budget.fetch, failed[i], i)
        invariant forall i | j <= i < |planned| :: total[i] == planned[i]
        invariant forall i | 0 <= i < |planned| :: total[i] <= planned[i]
      {
        if failed[j] {
          var over := block[j].base - 1;
          PlannedCoversBase(block, stall, budget.fetch, j);
          SumUpdate(total, j, total[j] - over);
          total := total[j := total[j] - over];
          remaining := remaining + over;
        }
        j := j + 1;
      }
    }

    /** Give back the charges of planned ops that did not retire. */
    method ReturnTail(total: seq<nat>, retired: nat, credit: nat) returns (remaining: nat)
      requires retired <= |total|
      ensures remaining + Sum(total[..retired]) == credit + Sum(total)
    {
      remaining := credit;
      var j := retired;
      while j < |total|
        invariant retired <= j <= |total|
        invariant remaining == credit + Sum(total[retired..j])
      {
        assert total[retired..j + 1] == total[retired..j] + [total[j]];
        SumAppend(total[retired..j], total[j]);
        remaining := remaining + total[j];
        j := j + 1;
      }
      assert total[retired..j] == total[retired..] && total == total[..retired] + total[retired..];
      SumConcat(total[..retired], total[retired..]);
    }

    /** Settle a plan after `|failed|` ops retired and left the PC at `next`: refunds, the returned
        tail and at most one refill. */
    method Settle(
      block: seq<BlockOp>, stall: StallFn, failed: seq<bool>, next: Word, planned: seq<nat>, credit: nat)
      returns (total: seq<nat>, remaining: nat)
      requires 0 < |failed| <= |planned| && IsPlan(block, stall, budget.fetch, planned)
      requires forall i | 0 <= i < |block| :: block[i].base >= 1
      requires credit + Sum(planned) == budget.remaining && Afforded(block, planned, budget.remaining)
      ensures |total| == |failed| && remaining + Sum(total) == budget.remaining
      ensures Settled(block, stall, budget.fetch, failed, next, total)
    {
      hide PlannedCharge, Sum, Afforded, EndOf;
      var count := |failed|;
      var refunded, left := Refund(block, stall, failed, planned, credit);
      if count < |planned| {
        left := ReturnTail(refunded, count, left);
      } else {
        assert refunded[..count] == refunded;
      }
      total, remaining := refunded[..count], left;
      var last := count - 1;
      if next != EndOf(block[last]) {
        Headroom(block, planned, total, last, budget.remaining);
        SumUpdate(total, last, total[last] + block[last].penalty);
        total := total[last := total[last] + block[last].penalty];
        remaining := remaining - block[last].penalty;
      }
    }

    /** The micro branch of the reversible block executor. It retires what FilIR retires of the
        planned prefix, and falls back, leaving core and credit alone, exactly when not even the
        first op may be planned. Otherwise the core is where `retired` checked steps leave it and
        the credit has paid exactly what those steps charge. */
    method StepMicroBlock(
      ghost code: Code, ghost m: Memory, block: seq<BlockOp>, micro: seq<MicroInst>, limit: nat, stall: StallFn)
      returns (retired: nat, ghost planned: nat)
      requires Prepared(code, block, micro) && Ready(cpu)
      requires block != [] && cpu.r[15] == block[0].pc
      modifies this
      ensures retired <= planned <= limit && planned <= |block|
      ensures retired == MicroRun(micro, View(old(cpu)), planned).retired && (retired == 0 <==> planned == 0)
      ensures planned < limit && planned < |block| ==>
                exists left :: 0 <= left <= old(budget.remaining)
                  && PlanStops(block, stall, old(cpu).r[15], old(budget.fetch), left, planned)
                  && (planned == 0 ==> left == old(budget.remaining))
      ensures retired == 0 ==> cpu == old(cpu) && budget == old(budget)
      ensures retired > 0 ==>
                var ch := ChargedSteps(code, stall, old(cpu), m, old(budget.fetch), retired);
                && ch.Some? && ch.value.mem == m && cpu == ch.value.cpu && budget.fetch == ch.value.fetch
                && budget.remaining + ch.value.total == old(budget.remaining)
    {
      hide PreparedOp, EndOf, Ready, View, Publish, PlannedCharge, MicroStep, Taken, Sum, Settled, ChargedSteps,
        Charges, FailedMask, MicroRun, Afforded, IsPlan, PlanStops;
      var bound := if limit < |block| then limit else |block|;
      var charges, credit, fetch := Plan(block, bound, stall);
      planned := |charges|;
      var g := View(cpu);
      SomeRetire(micro, g, planned);
      if charges == [] {
        SumNone();
        return 0, 0;
      }
      var after, count := InterpretMicroOps(micro, g, |charges|);
      var failed := FailedMask(micro, g, |charges|);
      PositiveBases(code, block, micro);
      var total, remaining := Settle(block, stall, failed, after.pc, charges, credit);
      SettledIsCharges(code, block, micro, stall, g, budget.fetch, planned, total);
      BlockIsSteps(code, block, micro, stall, cpu, m, budget.fetch, planned);
      var last := block[count - 1];
      cpu := Publish(after, cpu, last.pc);
      budget := Budget(remaining, if count < |charges| then Fetch(true, EndOf(last)) else fetch);
      retired := count;
    }
  }

  lemma NoCharges(block: seq<BlockOp>, stall: StallFn, f: Fetch, credit: nat)
    ensures IsPlan(block, stall, f, []) && Afforded(block, [], credit)
  {
  }

  lemma SomeRetire(micro: seq<MicroInst>, g: MicroCpu, limit: nat)
    ensures MicroRun(micro, g, limit).retired <= limit
    ensures micro != [] ==> (MicroRun(micro, g, limit).retired == 0 <==> limit == 0)
  {
    hide MicroStep, Taken;
  }

  lemma PlannedCoversBase(block: seq<BlockOp>, stall: StallFn, f: Fetch, i: nat)
    requires i < |block|
    ensures PlannedCharge(block, stall, f, i) >= block[i].base
  {
  }

  lemma PositiveBases(code: Code, block: seq<BlockOp>, micro: seq<MicroInst>)
    requires Prepared(code, block, micro)
    ensures forall i | 0 <= i < |block| :: block[i].base >= 1
  {
    hide Lower, DecoderShaped, BasePipelineCycles;
    forall i | 0 <= i < |block|
      ensures block[i].base >= 1
    {
      assert PreparedOp(code, block[i], micro[i]);
      BaseIsPositive(block[i].decoded);
    }
  }

  /** The admission headroom of the last retired op covers its refill. */
  lemma Headroom(block: seq<BlockOp>, planned: seq<nat>, total: seq<nat>, last: nat, credit: nat)
    requires last < |planned| <= |block| && |total| == last + 1
    requires Afforded(block, planned, credit)
    requires forall i | 0 <= i < |total| :: total[i] <= planned[i]
    ensures Sum(total) + block[last].penalty <= credit
  {
    assert AffordedAt(block, planned, credit, last);
    SumLe(total, planned[..last + 1]);
  }

  lemma SettledIsCharges(
    code: Code, block: seq<BlockOp>, micro: seq<MicroInst>, stall: StallFn, g: MicroCpu, f: Fetch, limit: nat,
    total: seq<nat>)
    requires Prepared(code, block, micro)
    requires |total| == MicroRun(micro, g, limit).retired
    requires Settled(block, stall, f, FailedMask(micro, g, limit), MicroRun(micro, g, limit).cpu.pc, total)
    ensures total == Charges(block, micro, stall, g, f, limit)
  {
    hide PreparedOp, SettledCharge, MicroStep, Taken;
    ChargesSettle(code, block, micro, stall, g, f, limit);
  }
}
