/** Native regions refine checked execution: whatever a region retires before its exit is what as
    many checked steps retire, with the same cycles and fetch state. */
module RegionSteps {
  import opened Words
  import opened Cpu
  import opened Micro
  import opened Lowering
  import opened Native
  import opened Stack
  import opened Timing
  import opened Blocks
  import opened Trace
  import opened Refinement
  import opened Region
  import opened Fusion
  import opened ItPairs
  import opened RegionGraph

  /** A core positioned at `pc` after the instruction at `at`. */
  function Place(c: CpuState, at: Word, pc: Word): CpuState {
    WithPc(c, pc).(instructionAddress := at)
  }

  /** What the region entry requires of the core. */
  predicate Enterable(c: CpuState) {
    SafeCore(c) && c.itState == 0
  }

  lemma PlaceFacts(c: CpuState, at: Word, pc: Word, size: int)
    ensures Entered(Place(c, at, pc), size) == Place(c, pc, Words.Add(pc, size))
    ensures Place(c, at, pc).r[15] == pc && Place(c, at, pc).psr == c.psr
    ensures Ready(Place(c, at, pc)) == Ready(c)
    ensures Place(c, at, pc).pendingExcReturn == c.pendingExcReturn
    ensures View(Place(c, at, pc)) == View(c).(pc := pc)
  {
    hide Words.Add, InItBlock;
  }

  /** What the node's instruction does from the published core, for an act that goes to `next`. */
  predicate NodeAgrees(code: Code, op: RegionOp, c: CpuState, at: Word, m: Memory, act: Act, next: Word)
    requires act.Act?
  {
    Step(code, Place(c, at, op.pc), m)
    == StepResult(Place(act.cpu, op.pc, next), act.mem, StepComplete,
                  if act.taken then op.takenCycles else op.fallthroughCycles)
  }

  // ---------------------------------------------------------------- integer ops

  lemma EffectIgnoresPc(inst: MicroInst, g: MicroCpu, pc: Word)
    ensures Effect(inst, g.(pc := pc)) == Effect(inst, g)
  {
    hide SetNz, SetNzcv, LogicOpValue, ExtractField, RotateRight, ExtendStepValue, ShiftC, AddWithCarry, ShiftTypeOf,
      Words.Not, Words.And;
    assert ArithOperand(inst, g.(pc := pc)) == ArithOperand(inst, g);
  }

  lemma ApplyPlaced(e: Alu, c: CpuState, at: Word, pc: Word)
    requires CoreDest(e)
    ensures ApplyAlu(e, Place(c, at, pc)) == Place(ApplyAlu(e, c), at, pc)
  {
  }

  /** The effect of a lowered instruction that is no branch. */
  lemma DataCore(s: MicroSource, inst: MicroInst, c: CpuState)
    requires Lower(s) == Accepted(inst) && !IsControlFlow(s.decoded.kind) && DecoderShaped(s.decoded)
    ensures CoreDest(Effect(inst, View(c))) && !IsBranchOp(inst.op) && s.decoded.condition == AL
    ensures inst.pc == s.pc && inst.size == s.size
  {
    hide Lower, BlankInst, IsDataKind, IsIdleKind, DecoderShaped, AluOf, Entered, Effect, View;
    LowerGate(s, inst);
    LoweredAt(s, inst);
    if IsDataKind(s.decoded.kind) {
      DataEffect(s, inst, c);
    } else {
      IdleInst(s, inst);
      BlankParts(s);
      NopEffect(inst, View(c));
    }
  }

  lemma NopEffect(inst: MicroInst, g: MicroCpu)
    requires inst.op == OpNop
    ensures Effect(inst, g).dest == None
  {
  }

  lemma IntegerNode(code: Code, s: MicroSource, inst: MicroInst, c: CpuState, at: Word, m: Memory)
    requires Lower(s) == Accepted(inst) && !IsControlFlow(s.decoded.kind) && DecoderShaped(s.decoded)
    requires s.pc in code && code[s.pc] == Fetched(s.decoded, s.size) && Ready(c)
    ensures
      Step(code, Place(c, at, s.pc), m)
      == StepResult(Place(IntegerEffect(inst, c), s.pc, Words.Add(s.pc, s.size)), m, StepComplete,
        BasePipelineCycles(s.decoded))
  {
    hide Lower, DecoderShaped, Ready, Place, Effect, ApplyAlu, Publish, View, MicroStep, Retire, Step, Words.Add,
      BasePipelineCycles, ConditionPasses, CoreDest, ApplyEffect, TakenBranchPenalty, Entered;
    var c1 := Place(c, at, s.pc);
    PlaceFacts(c, at, s.pc, s.size);
    LowerGate(s, inst);
    StepAt(code, s.decoded, s.size, c1, m);
    assert !InItBlock(c1.itState) && View(c1).psr == c1.psr by { ReadyParts(c1); }
    LoweringSound(s, inst, c1, m);
    DataCore(s, inst, c);
    DataCore(s, inst, c1);
    PlainStep(inst, View(c1));
    EffectIgnoresPc(inst, View(c), s.pc);
    var e := Effect(inst, View(c));
    PublishEffect(e, c1, s.size);
    ApplyPlaced(e, c, s.pc, Words.Add(s.pc, s.size));
    AlwaysPasses(c1.psr);
  }

  // ---------------------------------------------------------------- direct branches

  lemma PublishPlaced(c: CpuState, at: Word, pc: Word, next: Word, lr: Word)
    ensures
      var c1 := Place(c, at, pc);
      && Publish(View(c1).(pc := next), c1, pc) == Place(c, pc, next)
      && Publish(View(c1).(lr := lr, pc := next), c1, pc) == Place(WithLr(c, lr), pc, next)
  {
  }

  /** What a lowered branch is: its target, its link and when it is taken. */
  predicate BranchIs(s: MicroSource, inst: MicroInst, c: CpuState) {
    var d, g := s.decoded, View(c).(pc := s.pc);
    var taken := d.kind == Bl || (d.kind == B && d.condition == AL) || BranchPasses(inst, c);
    && IsBranchOp(inst.op) && (inst.op == OpBl <==> d.kind == Bl) && Taken(inst, g) == taken
    && OpTarget(inst) == BranchNodeTarget(d, s.pc) && OpSequential(inst) == Words.Add(s.pc, s.size)
    && (if d.kind == B || d.kind == Bl then ConditionPasses(d.condition, c.psr) == taken
        else d.condition == AL && BasePipelineCycles(d) == 1)
  }

  lemma DirectBranchShape(s: MicroSource, inst: MicroInst, c: CpuState)
    requires Lower(s) == Accepted(inst) && (s.decoded.kind == B || s.decoded.kind == Bl) && DecoderShaped(s.decoded)
    ensures BranchIs(s, inst, c)
  {
    hide Lower, LowerBranch, LowerCompareBranch, BlankInst, ConditionPasses, Words.Add, DecoderShaped, OpTarget,
      BranchNodeTarget, BasePipelineCycles, OpSequential;
    LowerControl(s, inst);
    LoweredBranch(s, inst);
    AlwaysPasses(c.psr);
    AlwaysLinks(s.decoded);
    SameTarget(s, inst);
  }

  lemma CompareBranchShape(s: MicroSource, inst: MicroInst, c: CpuState)
    requires Lower(s) == Accepted(inst) && (s.decoded.kind == Cbz || s.decoded.kind == Cbnz)
    ensures BranchIs(s, inst, c)
  {
    hide Lower, LowerBranch, LowerCompareBranch, BlankInst, ConditionPasses, Words.Add, OpTarget, BranchNodeTarget,
      BasePipelineCycles, OpSequential;
    LowerControl(s, inst);
    LoweredAt(s, inst);
    CompareBranchReg(s, inst);
    CompareBranchBase(s.decoded);
    CompareBranchOp(s, inst);
    SameTarget(s, inst);
  }

  lemma BranchShape(s: MicroSource, inst: MicroInst, c: CpuState)
    requires Lower(s) == Accepted(inst) && IsControlFlow(s.decoded.kind) && DecoderShaped(s.decoded)
    ensures BranchIs(s, inst, c)
  {
    hide Lower, DecoderShaped, BranchIs;
    if s.decoded.kind == B || s.decoded.kind == Bl { DirectBranchShape(s, inst, c); }
    else { CompareBranchShape(s, inst, c); }
  }

  lemma SameTarget(s: MicroSource, inst: MicroInst)
    requires inst.pc == s.pc && inst.size == s.size
    requires (inst.op == OpCbz || inst.op == OpCbnz) == IsCompareBranch(s.decoded.kind)
    requires if IsCompareBranch(s.decoded.kind) then inst.imm == s.decoded.imm
             else inst.branchOffset == s.decoded.branchOffset
    ensures OpTarget(inst) == BranchNodeTarget(s.decoded, s.pc) && OpSequential(inst) == Words.Add(s.pc, s.size)
  {
    hide ClearBit0, Wrap;
  }

  lemma CompareBranchOp(s: MicroSource, inst: MicroInst)
    requires (s.decoded.kind == Cbz || s.decoded.kind == Cbnz)
             && LowerCompareBranch(s.decoded, BlankInst(s)) == Accepted(inst)
    ensures inst.op == (if s.decoded.kind == Cbz then OpCbz else OpCbnz) && inst.imm == s.decoded.imm
  {
  }

  lemma BranchNode(code: Code, s: MicroSource, inst: MicroInst, c: CpuState, at: Word, m: Memory)
    requires Lower(s) == Accepted(inst) && IsControlFlow(s.decoded.kind) && DecoderShaped(s.decoded)
    requires s.pc in code && code[s.pc] == Fetched(s.decoded, s.size) && Ready(c)
    ensures
      var taken := s.decoded.kind == Bl || (s.decoded.kind == B && s.decoded.condition == AL) || BranchPasses(inst, c);
      var seq1 := Words.Add(s.pc, s.size);
      var next := if taken then BranchNodeTarget(s.decoded, s.pc) else seq1;
      var linked := if s.decoded.kind == Bl then WithLr(c, SetBit0(seq1)) else c;
      Step(code, Place(c, at, s.pc), m)
      == StepResult(Place(linked, s.pc, next), m, StepComplete,
                    if !taken then 1
                    else BasePipelineCycles(s.decoded) + if next == seq1 then 0 else TakenBranchPenalty(s.decoded.kind))
  {
    hide Lower, DecoderShaped, Ready, Place, Publish, View, MicroStep, Retire, Step, Words.Add, BranchNodeTarget,
      BranchPasses, BasePipelineCycles, ConditionPasses, TakenBranchPenalty, SetBit0, OpTarget, OpSequential, WithLr,
      Taken;
    var c1, d := Place(c, at, s.pc), s.decoded;
    PlaceFacts(c, at, s.pc, s.size);
    LowerGate(s, inst);
    StepAt(code, d, s.size, c1, m);
    assert !InItBlock(c1.itState) && View(c1).psr == c1.psr by { ReadyParts(c1); }
    LoweringSound(s, inst, c1, m);
    BranchShape(s, inst, c);
    BranchStep(inst, View(c1));
    PublishPlaced(c, at, s.pc, OpTarget(inst), SetBit0(Words.Add(s.pc, s.size)));
    PublishPlaced(c, at, s.pc, OpSequential(inst), 0);
    AlwaysPasses(c1.psr);
  }

  // ---------------------------------------------------------------- loads and stores

  lemma PlacedRegisters(c: CpuState, at: Word, pc: Word, reg: nat, v: Word)
    requires reg < 15
    ensures ReadRegister(Place(c, at, pc), reg) == ReadRegister(c, reg)
    ensures WriteRegister(Place(c, at, pc), reg, v) == Place(WriteRegister(c, reg, v), at, pc)
  {
  }

  /** What a memory node shares with its instruction. */
  predicate MemoryNodeOf(op: RegionOp, d: Decoded) {
    && IsTransfer(d.kind) && d.condition == AL && op.inst.kind == MemoryOp(d.kind)
    && op.inst.rd == d.rd && d.rd < 15 && d.rd != 13
    && d.writeback == (!op.inst.absolute && op.address.writeback)
    && (d.writeback ==> op.inst.rn == d.rn && d.rn < 15)
  }

  lemma LoadsPlaced(op: RegionOp, d: Decoded, c: CpuState, at: Word, pc: Word, m: Memory)
    requires MemoryNodeOf(op, d) && !IsStore(d.kind)
    requires d.writeback ==> OffsetAddress(d, Place(c, at, pc)) == IndexedAddress(op, c)
    ensures
      Execute(d, Place(c, at, pc), m) ==
      match Load(m, TransferAddress(d, Place(c, at, pc)), AccessWidth(d.kind))
      case None => Exec(Place(c, at, pc), m, BusFault)
      case Some(v) =>
        Done(Place(BaseWriteback(op, WriteRegister(c, d.rd, LoadedValue(d.kind, v)), IndexedAddress(op, c)), at, pc), m)
  {
    hide Load, TransferAddress, OffsetAddress, IndexedAddress, LoadedValue, WriteRegister, AccessWidth, Place,
      IsExceptionReturn, BranchWritePc;
    var a := TransferAddress(d, Place(c, at, pc));
    if Load(m, a, AccessWidth(d.kind)).Some? {
      var v := LoadedValue(d.kind, Load(m, a, AccessWidth(d.kind)).value);
      PlacedRegisters(c, at, pc, d.rd, v);
      if d.writeback { PlacedRegisters(WriteRegister(c, d.rd, v), at, pc, d.rn, IndexedAddress(op, c)); }
    }
  }

  lemma StoresPlaced(op: RegionOp, d: Decoded, c: CpuState, at: Word, pc: Word, m: Memory)
    requires MemoryNodeOf(op, d) && IsStore(d.kind)
    requires d.writeback ==> OffsetAddress(d, Place(c, at, pc)) == IndexedAddress(op, c)
    ensures
      Execute(d, Place(c, at, pc), m) ==
      match Store(m, TransferAddress(d, Place(c, at, pc)), AccessWidth(d.kind), ReadRegister(c, d.rd))
      case None => Exec(Place(c, at, pc), m, BusFault)
      case Some(m1) => Done(Place(BaseWriteback(op, c, IndexedAddress(op, c)), at, pc), m1)
  {
    hide Store, TransferAddress, OffsetAddress, IndexedAddress, WriteRegister, AccessWidth, Place, ReadRegister;
    PlacedRegisters(c, at, pc, d.rd, 0);
    if d.writeback { PlacedRegisters(c, at, pc, d.rn, IndexedAddress(op, c)); }
  }

  lemma LoadedIs(kind: InstrKind, v: Word)
    requires IsTransfer(kind)
    ensures SignedLoad(MemoryOp(kind), v) == LoadedValue(kind, v)
  {
    hide SignExtend;
  }

  /** A guarded region access is the checked load or store, writeback included. */
  lemma MemoryNodeExecutes(env: Env, op: RegionOp, d: Decoded, c: CpuState, at: Word, pc: Word, m: Memory)
    requires MemoryNodeOf(op, d)
    requires TransferAddress(d, Place(c, at, pc)) == AccessAddress(op, c)
    requires d.writeback ==> OffsetAddress(d, Place(c, at, pc)) == IndexedAddress(op, c)
    requires MemoryAct(env, op, c, m).Act?
    ensures
      var act := MemoryAct(env, op, c, m);
      !act.taken && Execute(d, Place(c, at, pc), m) == Done(Place(act.cpu, at, pc), act.mem)
  {
    hide Load, Store, TransferAddress, OffsetAddress, IndexedAddress, AccessAddress, LoadedValue, SignedLoad,
      WriteRegister, AccessWidth, WidthOf, Place, Execute, ReadGuard, WriteGuard, BaseWriteback, ReadRegister, IsLoad,
      IsStore, MemoryOp, IsTransfer;
    MemoryOpFacts(d.kind, 0);
    if IsStore(d.kind) {
      StoresPlaced(op, d, c, at, pc, m);
    } else {
      LoadsPlaced(op, d, c, at, pc, m);
      var v := Load(m, AccessAddress(op, c), WidthOf(op.inst.kind));
      if v.Some? { LoadedIs(d.kind, v.value); }
    }
  }

  lemma ShiftedOffset(value: Word, amount: nat, carry: bool)
    requires amount <= 3
    ensures ShiftC(value, ShiftType.Lsl, amount, carry).value == if amount == 0 then value else ShiftLeft(value, amount)
  {
    hide ShiftLeft, ShiftRight;
  }

  /** Region addressing computes the executor's addresses. */
  lemma RegionAddresses(op: RegionOp, d: Decoded, c: CpuState, at: Word, pc: Word)
    requires RegionMemoryShape(d) && op == WithRegionMemory(op, d)
    ensures MemoryNodeOf(op, d)
    ensures TransferAddress(d, Place(c, at, pc)) == AccessAddress(op, c)
    ensures OffsetAddress(d, Place(c, at, pc)) == IndexedAddress(op, c)
  {
    hide Words.Add, Words.Sub, ShiftC, ShiftLeft, Place, ReadRegister, MemoryOp, IsTransfer;
    PlacedRegisters(c, at, pc, d.rn, 0);
    if d.form == RegisterValue {
      PlacedRegisters(c, at, pc, d.rm, 0);
      ShiftedOffset(ReadRegister(c, d.rm), d.shiftAmount, Place(c, at, pc).psr.c);
    }
  }

  lemma PlainAddresses(op: RegionOp, s: MicroSource, c: CpuState, at: Word)
    requires IsTransfer(s.decoded.kind) && LowerMemory(s) == Accepted(op.inst)
             && op.address == Addressing(0, 0, false, true, true, false)
    ensures MemoryNodeOf(op, s.decoded)
    ensures TransferAddress(s.decoded, Place(c, s.pc, Words.Add(s.pc, s.size))) == AccessAddress(op, c)
  {
    hide LowerMemory, Words.Add, Place, ReadRegister, MemoryOp, IsTransfer, TransferAddress;
    PlaceFacts(c, at, s.pc, s.size);
    LoweredMemory(s, op.inst, Place(c, at, s.pc));
    PlainBase(s, op.inst);
    if !op.inst.absolute { PlacedRegisters(c, at, s.pc, op.inst.rn, 0); }
  }

  lemma PlainBase(s: MicroSource, n: NativeInst)
    requires LowerMemory(s) == Accepted(n)
    ensures !n.absolute ==> n.rn <= 13
  {
    hide NoList, PlainAddressing, Words.Add, Words.Sub, AlignWord, MemoryOp;
  }

  // ---------------------------------------------------------------- stack ops

  /** Bulk helpers that never decline. */
  function OpenBus(): Bus {
    Bus((cycles: nat, pc: Word, a: Word, w: Width, m: Memory) => ReadDeclined,
        (cycles: nat, pc: Word, a: Word, w: Width, v: Word, m: Memory) => WriteDeclined,
        (pc: Word, a: Word, values: seq<Word>, m: Memory) => true,
        (pc: Word, a: Word, n: nat, m: Memory) => true)
  }

  lemma {:induction false} ValuesPlaced(c: CpuState, at: Word, pc: Word, regs: seq<nat>)
    requires RegNumbers(regs) && forall k | 0 <= k < |regs| :: regs[k] != 15
    ensures Values(Place(c, at, pc), regs) == Values(c, regs)
    decreases |regs|
  {
    if regs != [] { ValuesPlaced(c, at, pc, regs[1..]); }
  }

  lemma {:induction false} CommitPlaced(c: CpuState, at: Word, pc: Word, regs: seq<nat>, words: seq<Word>)
    requires RegNumbers(regs) && |words| == |regs| && forall k | 0 <= k < |regs| :: regs[k] < 15
    ensures CommitWords(Place(c, at, pc), regs, words) == Place(CommitWords(c, regs, words), at, pc)
    decreases |regs|
  {
    if regs != [] {
      var c1 := c.(r := c.r[regs[0] := words[0]]);
      assert Place(c, at, pc).(r := Place(c, at, pc).r[regs[0] := words[0]]) == Place(c1, at, pc);
      CommitPlaced(c1, at, pc, regs[1..], words[1..]);
    }
  }

  /** A popped frame from the published core, placed. */
  lemma PopPlaced(list: RegList, c: CpuState, at: Word, pc: Word, words: seq<Word>, at1: Word, pc1: Word)
    requires |words| == |RegsFrom(list, 0)|
    ensures
      Place(PopCommit(RegsFrom(list, 0), Place(c, at, pc), words), at1, pc1)
      == Place(WithPc(PopCommit(RegsFrom(list, 0), c, words), c.r[15]), at1, pc1)
  {
    hide RegsFrom, CommitWords, ActiveSp, WriteRegister, Words.Add, ClearBit0;
    var regs := RegsFrom(list, 0);
    var o := Ordinary(regs);
    OrdinaryIs(list);
    CommitPlaced(c, at, pc, o, words[..|o|]);
    var sp := Words.Add(ActiveSp(c), 4 * |regs|);
    assert ActiveSp(Place(c, at, pc)) == ActiveSp(c) by { PlacedSp(c, at, pc); }
    var c1 := CommitWords(c, o, words[..|o|]);
    PlacedRegisters(c1, at, pc, 13, sp);
    PlaceTwice(WriteRegister(c1, 13, sp), at, pc, at1, pc1);
  }

  lemma PlacedSp(c: CpuState, at: Word, pc: Word)
    ensures ActiveSp(Place(c, at, pc)) == ActiveSp(c)
  {
  }

  lemma PlaceTwice(c: CpuState, at: Word, pc: Word, at1: Word, pc1: Word)
    ensures Place(Place(c, at, pc), at1, pc1) == Place(c, at1, pc1)
    ensures forall x: Word :: Place(WithPc(Place(c, at, pc), x), at1, pc1) == Place(c, at1, pc1)
    ensures forall x: Word :: Place(WithPc(c, x), at1, pc1) == Place(c, at1, pc1)
    ensures forall x: Word, y: Word :: Place(WithPc(WithPc(c, x), y), at1, pc1) == Place(c, at1, pc1)
  {
  }

  /** Bound windows lie inside the 32-bit address space. */
  predicate EnvOk(env: Env) {
    && env.ram.begin + env.ram.size <= 0x1_0000_0000 && env.code.begin + env.code.size <= 0x1_0000_0000
    && env.write.begin + env.write.size <= 0x1_0000_0000
  }

  lemma GuardedFits(env: Env, a: Word, width: nat)
    requires EnvOk(env) && width > 0 && ReadGuard(env, a, width)
    ensures a + width <= 0x1_0000_0000
  {
    hide InWindow;
    WindowExact(env.ram, a, width);
    WindowExact(env.code, a, width);
  }

  lemma NoTokens(target: Word)
    requires ReturnGuard(target)
    ensures target % 2 == 1 && !IsExceptionReturn(target)
  {
  }

  /** A guarded region PUSH is the checked PUSH. */
  lemma PushNodeExecutes(env: Env, op: RegionOp, d: Decoded, size: int, c: CpuState, at: Word, m: Memory)
    requires d.kind == Push && StackDecoded(d) && StackListValid(d.registerList, true)
    requires op.regs == StackRegs(d.registerList, true) && op.push && StackAct(env, op, c, m).Act?
    ensures
      var act := StackAct(env, op, c, m);
      && !act.taken
      && Execute(d, Entered(Place(c, at, op.pc), size), m)
         == Done(Place(act.cpu, op.pc, Words.Add(op.pc, size)), act.mem)
  {
    hide StackDecoded, StackListValid, StackRegs, Words.Add, Entered, Execute, ExecMultiple, WriteGuard, StoreWords,
      Values, WriteRegister, ActiveSp, Place;
    var c1 := Place(c, at, op.pc);
    PlacedSp(c, at, op.pc);
    assert forall k | 0 <= k < |op.regs| :: op.regs[k] != 15 by { PushSkipsPc(d.registerList); }
    ValuesPlaced(c, at, op.pc, op.regs);
    assert c1.r[15] == op.pc by { PlaceFacts(c, at, op.pc, size); }
    ValidHasRegs(d.registerList, true);
    PushGoes(op.regs, c1, m, op.pc);
    PushIsExecute(d, size, c1, m, OpenBus(), op.pc);
    MultipleExecutes(d, Entered(c1, size), m);
    var sp := ActiveSp(c) - 4 * |op.regs|;
    PlacedRegisters(c, at, op.pc, 13, sp);
    assert WithPc(Place(WriteRegister(c, 13, sp), at, op.pc), Words.Add(op.pc, size)).(instructionAddress := op.pc)
      == Place(WriteRegister(c, 13, sp), op.pc, Words.Add(op.pc, size)) by {
      PlaceAgain(WriteRegister(c, 13, sp), at, op.pc, op.pc, Words.Add(op.pc, size));
    }
  }

  lemma PlaceAgain(c: CpuState, at: Word, pc: Word, at1: Word, pc1: Word)
    ensures WithPc(Place(c, at, pc), pc1).(instructionAddress := at1) == Place(c, at1, pc1)
  {
  }

  lemma PushSkipsPc(list: RegList)
    requires StackListValid(list, true)
    ensures forall k | 0 <= k < |StackRegs(list, true)| :: StackRegs(list, true)[k] != 15
  {
    hide RegsFrom;
  }

  /** With open helpers a push goes through exactly when its stores do. */
  lemma PushGoes(regs: seq<nat>, c: CpuState, m: Memory, pc: Word)
    requires RegNumbers(regs) && regs != [] && ActiveSp(c) >= 4 * |regs|
    requires StoreWords(m, ActiveSp(c) - 4 * |regs|, Values(c, regs)).Some?
    ensures PushTransfer(regs, c, m, OpenBus(), pc)
            == Transferred(WriteRegister(c, 13, ActiveSp(c) - 4 * |regs|),
                           StoreWords(m, ActiveSp(c) - 4 * |regs|, Values(c, regs)).value)
  {
    hide StoreWords, Values, WriteRegister, ActiveSp;
  }

  /** A guarded region POP is the checked POP; its return guard leaves no token to pend. */
  lemma PopNodeExecutes(env: Env, op: RegionOp, d: Decoded, size: int, c: CpuState, at: Word, m: Memory)
    requires d.kind == Pop && StackDecoded(d) && StackListValid(d.registerList, false) && Ready(c) && EnvOk(env)
    requires op.regs == StackRegs(d.registerList, false) && !op.push && StackAct(env, op, c, m).Act?
    ensures
      var act := StackAct(env, op, c, m);
      var next := if PopsPc(d) then act.dest else Words.Add(op.pc, size);
      && act.taken == (PopsPc(d) && next != op.fallthrough)
      && Execute(d, Entered(Place(c, at, op.pc), size), m) == Done(Place(act.cpu, op.pc, next), act.mem)
  {
    hide StackDecoded, StackListValid, Words.Add, Entered, Execute, ExecMultiple, ReadGuard, LoadWords, PopCommit,
      RegsFrom, Count, ActiveSp, Place, InItBlock, ReturnGuard, ClearBit0, IsExceptionReturn;
    var c1, list := Place(c, at, op.pc), d.registerList;
    PlacedSp(c, at, op.pc);
    PlaceFacts(c, at, op.pc, size);
    SameCount(list);
    assert LoadsPc(op.regs) <==> list[15] by { OrdinaryIs(list); }
    assert op.regs != [] by { ValidHasRegs(list, false); }
    GuardedFits(env, ActiveSp(c), 4 * |op.regs|);
    var words := LoadWords(m, ActiveSp(c), |op.regs|).value;
    PopExecutes(d, size, c1, m, words);
    MultipleExecutes(d, Entered(c1, size), m);
    if list[15] { NoTokens(words[|words| - 1]); }
    var act := StackAct(env, op, c, m);
    var next := if PopsPc(d) then act.dest else Words.Add(op.pc, size);
    PopPlaced(list, c, at, op.pc, words, op.pc, next);
    if list[15] { PoppedPc(op.regs, c1, words); }
    PlaceIs(PopCommit(op.regs, c1, words), op.pc, next);
  }

  lemma ValidHasRegs(list: RegList, push: bool)
    requires StackListValid(list, push)
    ensures StackRegs(list, push) != []
  {
    hide RegsFrom;
    SameCount(list);
  }

  lemma PoppedPc(regs: seq<nat>, c: CpuState, words: seq<Word>)
    requires RegNumbers(regs) && |words| == |regs| && LoadsPc(regs)
    ensures PopCommit(regs, c, words).r[15] == ClearBit0(words[|words| - 1])
  {
    hide ClearBit0, CommitWords, WriteRegister;
  }

  lemma PlaceIs(c: CpuState, at: Word, pc: Word)
    ensures WithPc(c.(instructionAddress := at), pc) == Place(c, at, pc)
    ensures c.r[15] == pc ==> c.(instructionAddress := at) == Place(c, at, pc)
  {
  }

  // ---------------------------------------------------------------- indirect branches

  lemma ExchangePlaced(d: Decoded, c: CpuState, at: Word, pc: Word, m: Memory)
    requires (d.kind == Bx || d.kind == Blx) && (d.rm < 13 || d.rm == 14) && c.thumb && c.psr.t
             && ReturnGuard(c.r[d.rm])
    ensures
      var linked := if d.kind == Blx then WithLr(c, SetBit0(pc)) else c;
      Execute(d, Place(c, at, pc), m) == Done(Place(linked, at, ClearBit0(c.r[d.rm])), m)
  {
    hide SetBit0, ClearBit0, IsExceptionReturn, ReturnGuard, Execute;
    ExchangeExecutes(d, Place(c, at, pc), m);
    NoTokens(c.r[d.rm]);
  }

  // ---------------------------------------------------------------- one node

  /** Where a node that acted goes. */
  function NextPc(op: RegionOp, act: Act): Word
    requires act.Act?
  {
    match op.flow
    case FlowNext | CheckedFlow => op.fallthrough
    case Conditional => if act.taken then op.target else op.fallthrough
    case Jump | Call => op.target
    case Indirect => act.dest
  }

  /** What the decoder guarantees about an instruction. */
  predicate Shaped(d: Decoded) {
    DecoderShaped(d) && (IsStack(d) ==> StackDecoded(d)) && (d.kind == It ==> d.imm < 0x100)
  }

  /** `code` holds the decoded image. */
  ghost predicate ImageCode(img: Image, code: Code) {
    && (forall pc: Word | pc % 2 == 0 && Contains(img, pc, 2) && DecodeAt(img, pc).1.Some? ::
          pc in code && code[pc] == Fetched(DecodeAt(img, pc).1.value, DecodeAt(img, pc).0))
    && (forall pc: Word | Contains(img, pc, 2) && DecodeAt(img, pc).1.Some? :: Shaped(DecodeAt(img, pc).1.value))
    && (forall pc: Word | Contains(img, pc, 2) && DecodeAt(img, pc).1.Some? ::
          DecodeAt(img, pc).1.value.kind == It ==> DecodeAt(img, pc).0 == 2)
    && (forall h: nat | IsMovImmediate(h) :: img.decode16(h).Some? && MovDecoded(h, img.decode16(h).value))
  }

  /** The lowered node of instruction `d`, before its flow is filled in. */
  predicate LoweredFrom(op: RegionOp, d: Decoded, size: int, canonical: Option<Decoded>) {
    LoweredNode(BlankNode(op.pc).(size := size), d, size, canonical) == Some(op)
  }

  /** The fields of a stack node. */
  predicate StackNode(op: RegionOp, d: Decoded, size: int) {
    && IsStack(d) && op.regs == StackRegs(d.registerList, d.kind == Push) && op.regs != []
       && op.push == (d.kind == Push)
    && op.fallthrough == Words.Add(op.pc, size) && op.fallthroughCycles == BasePipelineCycles(d)
    && op.flow == (if PopsPc(d) then Indirect else FlowNext)
    && (PopsPc(d) ==> op.takenCycles == BasePipelineCycles(d) + TakenBranchPenalty(d.kind))
  }

  /** A stack node agrees with its instruction. */
  lemma StackNodeSteps(code: Code, env: Env, op: RegionOp, d: Decoded, size: int, c: CpuState, at: Word, m: Memory)
    requires op.pc % 2 == 0 && op.pc in code && code[op.pc] == Fetched(d, size) && StackDecoded(d)
    requires StackNode(op, d, size) && Ready(c) && EnvOk(env) && StackAct(env, op, c, m).Act?
    ensures var act := StackAct(env, op, c, m); NodeAgrees(code, op, c, at, m, act, NextPc(op, act))
  {
    hide StackDecoded, StackListValid, StackRegs, Words.Add, Entered, Execute, Step, BasePipelineCycles,
      TakenBranchPenalty, StackAct, Place, Ready, EnvOk;
    var act := StackAct(env, op, c, m);
    var c1 := Place(c, at, op.pc);
    ValidStack(d.registerList, d.kind == Push);
    StackAlways(d);
    PlaceFacts(c, at, op.pc, size);
    PlaceFacts(act.cpu, op.pc, NextPc(op, act), 0);
    StepsAt(code, op.pc, d, size, c1, m);
    if d.kind == Push {
      PushNodeExecutes(env, op, d, size, c, at, m);
    } else {
      PopNodeExecutes(env, op, d, size, c, at, m);
    }
  }

  lemma ValidStack(list: RegList, push: bool)
    ensures StackRegs(list, push) != [] ==> StackListValid(list, push)
  {
  }

  /** StepExecutes for any instruction with condition AL. */
  lemma StepsAt(code: Code, pc: Word, d: Decoded, size: int, c: CpuState, m: Memory)
    requires pc in code && code[pc] == Fetched(d, size) && pc % 2 == 0
    requires Ready(c) && c.r[15] == pc && d.condition == AL && d.kind != It && !IsDivide(d.kind)
    ensures
      var e := Execute(d, Entered(c, size), m);
      var refill := if e.stop == StepComplete && e.cpu.r[15] != Words.Add(pc, size) then TakenBranchPenalty(d.kind)
        else 0;
      Step(code, c, m) == StepResult(e.cpu, e.mem, e.stop, BasePipelineCycles(d) + refill)
  {
    hide Retire, Execute, Entered, Step, BasePipelineCycles, TakenBranchPenalty, Words.Add, ConditionPasses, InItBlock;
    StepAt(code, d, size, c, m);
    AlwaysPasses(c.psr);
    RetirePassed(d, size, c, m);
  }

  lemma MemoryNodeSteps(code: Code, env: Env, op: RegionOp, d: Decoded, size: int, c: CpuState, at: Word, m: Memory)
    requires op.pc % 2 == 0 && op.pc in code && code[op.pc] == Fetched(d, size) && Ready(c)
    requires MemoryNodeOf(op, d) && op.fallthrough == Words.Add(op.pc, size)
             && op.fallthroughCycles == BasePipelineCycles(d)
    requires TransferAddress(d, Place(c, op.pc, op.fallthrough)) == AccessAddress(op, c)
    requires d.writeback ==> OffsetAddress(d, Place(c, op.pc, op.fallthrough)) == IndexedAddress(op, c)
    requires MemoryAct(env, op, c, m).Act?
    ensures NodeAgrees(code, op, c, at, m, MemoryAct(env, op, c, m), op.fallthrough)
  {
    hide Words.Add, Entered, Execute, Step, BasePipelineCycles, TakenBranchPenalty, MemoryAct, Place, Ready,
      TransferAddress, OffsetAddress, IndexedAddress, AccessAddress, IsTransfer, MemoryOp;
    var act := MemoryAct(env, op, c, m);
    TransferKind(d.kind);
    PlaceFacts(c, at, op.pc, size);
    PlaceFacts(act.cpu, op.pc, op.fallthrough, 0);
    StepsAt(code, op.pc, d, size, Place(c, at, op.pc), m);
    MemoryNodeExecutes(env, op, d, c, op.pc, op.fallthrough, m);
  }

  lemma ExchangeNodeSteps(code: Code, op: RegionOp, d: Decoded, size: int, c: CpuState, at: Word, m: Memory)
    requires op.pc % 2 == 0 && op.pc in code && code[op.pc] == Fetched(d, size) && Ready(c)
    requires (d.kind == Bx && d.rm == 14 && op.inst.kind == BxLr)
             || (d.kind == Blx && (d.rm < 13 || d.rm == 14) && op.inst.kind == BlxReg && op.inst.rn == d.rm)
    requires d.condition == AL && op.flow == Indirect && op.fallthrough == Words.Add(op.pc, size)
    requires op.fallthroughCycles == BasePipelineCycles(d)
    requires op.takenCycles == BasePipelineCycles(d) + TakenBranchPenalty(d.kind)
    requires IndirectAct(op, c, m).Act?
    ensures var act := IndirectAct(op, c, m); NodeAgrees(code, op, c, at, m, act, act.dest)
  {
    hide Words.Add, Entered, Execute, Step, BasePipelineCycles, TakenBranchPenalty, Place, ReturnGuard, SetBit0,
      ClearBit0, InItBlock;
    var act := IndirectAct(op, c, m);
    PlaceFacts(c, at, op.pc, size);
    PlaceFacts(act.cpu, op.pc, act.dest, 0);
    StepsAt(code, op.pc, d, size, Place(c, at, op.pc), m);
    ExchangePlaced(d, c, op.pc, op.fallthrough, m);
  }

  /** Flow fields of a node that is not a stack op. */
  lemma PlainFlow(low: RegionOp, d: Decoded)
    requires low.regs == []
    ensures
      var op := FlowNode(low, d);
      && op.inst == low.inst && op.address == low.address && op.regs == [] && op.pc == low.pc && op.pair == low.pair
      && op.fallthrough == Words.Add(low.pc, low.size)
      && if IsControlFlow(d.kind) then
           && op.target == BranchNodeTarget(d, low.pc)
           && op.takenCycles == BasePipelineCycles(d)
              + (if op.target == op.fallthrough then 0 else TakenBranchPenalty(d.kind))
           && op.flow == (if IsCompareBranch(d.kind) || (d.kind == B && d.condition != AL) then Conditional
                          else if d.kind == Bl then Call else Jump)
           && (op.flow == Conditional ==> op.fallthroughCycles == 1)
         else
           && op.fallthroughCycles == BasePipelineCycles(d)
           && (if low.inst.kind == BxLr || low.inst.kind == BlxReg
               then op.flow == Indirect && op.takenCycles == BasePipelineCycles(d) + TakenBranchPenalty(d.kind)
               else op.flow == FlowNext)
  {
    hide Words.Add, BranchNodeTarget, BasePipelineCycles, TakenBranchPenalty;
  }

  lemma StackFlow(low: RegionOp, d: Decoded, size: int, canonical: Option<Decoded>)
    requires IsStack(d) && LoweredFrom(low, d, size, canonical)
    ensures StackNode(FlowNode(low, d), d, size) && FlowNode(low, d).pc == low.pc
  {
    hide Words.Add, BranchNodeTarget, BasePipelineCycles, TakenBranchPenalty, StackRegs;
  }

  /** A node for a lowered integer instruction or direct branch agrees with it. */
  lemma IntegerNodeSteps(
    code: Code, env: Env, low: RegionOp, d: Decoded, size: int, c: CpuState, at: Word, m: Memory)
    requires low.pc in code && code[low.pc] == Fetched(d, size) && DecoderShaped(d) && Ready(c)
    requires low.regs == [] && low.size == size && low.inst.kind == Integer
    requires Lower(MicroSource(d, low.pc, size)) == Accepted(low.inst.integer)
    ensures
      var op := FlowNode(low, d);
      var act := ActOf(env, op, c, m);
      && act.Act? && NodeAgrees(code, op, c, at, m, act, NextPc(op, act)) && op.flow != Indirect
  {
    hide Words.Add, BranchNodeTarget, BasePipelineCycles, TakenBranchPenalty, Step, Place, Ready, Lower, DecoderShaped,
      FlowNode, BranchPasses, IntegerEffect, SetBit0, WithLr;
    var s := MicroSource(d, low.pc, size);
    PlainFlow(low, d);
    if IsControlFlow(d.kind) {
      BranchNode(code, s, low.inst.integer, c, at, m);
    } else {
      IntegerNode(code, s, low.inst.integer, c, at, m);
    }
  }

  /** Any lowered node that is not a stack op agrees with its instruction. */
  lemma PlainNodeSteps(
    code: Code, env: Env, low: RegionOp, d: Decoded, size: int, canonical: Option<Decoded>, c: CpuState, at: Word,
    m: Memory)
    requires low.pc % 2 == 0 && low.pc in code && code[low.pc] == Fetched(d, size) && DecoderShaped(d) && Ready(c)
    requires !IsStack(d) && LoweredFrom(low, d, size, canonical)
    requires RegNumbers(low.regs) && RegNumbers(FlowNode(low, d).regs) && ActOf(env, FlowNode(low, d), c, m).Act?
    ensures
      var op := FlowNode(low, d);
      var act := ActOf(env, op, c, m);
      NodeAgrees(code, op, c, at, m, act, NextPc(op, act))
  {
    hide Words.Add, BranchNodeTarget, BasePipelineCycles, TakenBranchPenalty, Step, Place, Ready, Lower, DecoderShaped,
      FlowNode, BranchPasses, IntegerEffect, SetBit0, WithLr, LowerMemory, LowerBx, LowerBlx, RegionMemoryShape,
      MemoryAct, IndirectAct, NodeAgrees, IsTransfer, MemoryNodeOf, TransferAddress, AccessAddress, OffsetAddress,
      IndexedAddress, IsMemory, MemoryOp, WithRegionMemory;
    var op, s := FlowNode(low, d), MicroSource(d, low.pc, size);
    LoweredParts(low, d, size, canonical);
    PlainFlow(low, d);
    if LowerNative(s, canonical).Declined? {
      RegionKept(low, op, d);
      RegionAddresses(op, d, c, op.pc, op.fallthrough);
      MemoryFlow(op, d);
      MemoryNodeSteps(code, env, op, d, size, c, at, m);
    } else if (d.kind == Bx || d.kind == Blx) && size == 2 {
      ExchangeParts(low.inst, d, canonical);
      ExchangeNodeSteps(code, op, d, size, c, at, m);
    } else if IsTransfer(d.kind) {
      PlainAddresses(op, s, c, at);
      MemoryFlow(op, d);
      PlainWriteback(op, d);
      MemoryNodeSteps(code, env, op, d, size, c, at, m);
    } else {
      IntegerNodeSteps(code, env, low, d, size, c, at, m);
    }
  }

  lemma RegionKept(low: RegionOp, op: RegionOp, d: Decoded)
    requires low == WithRegionMemory(low, d) && op.inst == low.inst && op.address == low.address
    ensures op == WithRegionMemory(op, d)
  {
  }

  /** How a node that is not a stack op was lowered. */
  lemma LoweredParts(low: RegionOp, d: Decoded, size: int, canonical: Option<Decoded>)
    requires !IsStack(d) && LoweredFrom(low, d, size, canonical) && low.pc % 2 == 0
    ensures low.size == size && low.regs == [] && low.pair == NoPair
    ensures
      var s := MicroSource(d, low.pc, size);
      if LowerNative(s, canonical).Declined? then RegionMemoryShape(d) && low == WithRegionMemory(low, d)
      else
        && low.address == Addressing(0, 0, false, true, true, false)
        && if d.kind == Blx && size == 2 then LowerBlx(d, canonical) == Accepted(low.inst)
           else if d.kind == Bx && size == 2 then LowerBx(d, canonical) == Accepted(low.inst)
           else if IsTransfer(d.kind) then LowerMemory(s) == Accepted(low.inst)
           else low.inst.kind == Integer && Lower(s) == Accepted(low.inst.integer)
  {
    hide LowerMemory, LowerBx, LowerBlx, RegionMemoryShape, IsTransfer, Lower;
  }

  lemma ExchangeParts(n: NativeInst, d: Decoded, canonical: Option<Decoded>)
    requires (d.kind == Blx && LowerBlx(d, canonical) == Accepted(n))
             || (d.kind == Bx && LowerBx(d, canonical) == Accepted(n))
    ensures d.condition == AL && !IsMemory(n.kind) && !IsControlFlow(d.kind)
    ensures (d.kind == Bx && d.rm == 14 && n.kind == BxLr)
            || (d.kind == Blx && (d.rm < 13 || d.rm == 14) && n.kind == BlxReg && n.rn == d.rm)
  {
  }

  lemma MemoryFlow(op: RegionOp, d: Decoded)
    requires MemoryNodeOf(op, d)
    ensures IsMemory(op.inst.kind) && op.inst.kind != BxLr && op.inst.kind != BlxReg && !IsControlFlow(d.kind)
  {
    hide IsMemory, MemoryOp, IsTransfer;
    TransferKind(d.kind);
  }

  lemma PlainWriteback(op: RegionOp, d: Decoded)
    requires MemoryNodeOf(op, d) && op.address == Addressing(0, 0, false, true, true, false)
    ensures !d.writeback
  {
  }

  /** The instruction behind a node the builder finished. */
  lemma NodeSource(cfg: Config, op: RegionOp, code: Code)
    requires Contains(cfg.img, op.pc, 2) && op.pc % 2 == 0 && ImageCode(cfg.img, code)
    requires DecodeAt(cfg.img, op.pc).1.Some?
    ensures
      var (size, decoded) := DecodeAt(cfg.img, op.pc);
      && op.pc in code && code[op.pc] == Fetched(decoded.value, size) && Shaped(decoded.value)
      && (decoded.value.kind == It ==> size == 2)
  {
    hide DecodeAt, Contains, Shaped;
  }

  lemma EdgesIgnored(env: Env, op: RegionOp, bare: RegionOp, c: CpuState, m: Memory)
    requires bare == op.(edge0 := None, edge1 := None) && RegNumbers(op.regs)
    ensures ActOf(env, op, c, m) == ActOf(env, bare, c, m)
    ensures ActOf(env, op, c, m).Act? ==> NextPc(op, ActOf(env, op, c, m)) == NextPc(bare, ActOf(env, bare, c, m))
  {
    hide ReadGuard, WriteGuard, Load, Store, WriteRegister, Values, StoreWords, LoadWords, PopCommit, IntegerEffect,
      BranchPasses, ReturnGuard, ActiveSp, ReadRegister, Words.Add, Words.Sub, ShiftLeft, SetBit0, ClearBit0, WithLr,
      SignedLoad;
  }

  /** Every native node agrees with the checked step of its instruction. */
  lemma NodeRefines(code: Code, env: Env, cfg: Config, op: RegionOp, c: CpuState, at: Word, m: Memory)
    requires Contains(cfg.img, op.pc, 2) && op.pc % 2 == 0 && ImageCode(cfg.img, code) && EnvOk(env)
    requires op.(edge0 := None, edge1 := None) == NodeAt(cfg.img, op.pc) && RegNumbers(op.regs)
    requires op.flow != CheckedFlow && Ready(c) && ActOf(env, op, c, m).Act?
    ensures var act := ActOf(env, op, c, m); NodeAgrees(code, op, c, at, m, act, NextPc(op, act))
  {
    hide DecodeAt, PairAt, LoweredNode, FlowNode, ActOf, NextPc, Step, Place, Ready, ImageCode, Contains, BlankNative;
    var bare := op.(edge0 := None, edge1 := None);
    EdgesIgnored(env, op, bare, c, m);
    var (size, decoded) := DecodeAt(cfg.img, op.pc);
    assert decoded.Some?;
    NodeSource(cfg, op, code);
    var d := decoded.value;
    var canonical := if size == 2 then cfg.img.decode16(Halfword(cfg.img, op.pc)) else None;
    var lowered := LoweredNode(BlankNode(op.pc).(size := size), d, size, canonical);
    assert lowered.Some? && bare == FlowNode(lowered.value, d);
    var low := lowered.value;
    assert low.pc == op.pc && LoweredFrom(low, d, size, canonical) by { LoweredPc(op.pc, low, d, size, canonical); }
    if IsStack(d) {
      StackFlow(low, d, size, canonical);
      StackActs(env, bare, c, m);
      StackNodeSteps(code, env, bare, d, size, c, at, m);
    } else {
      LoweredParts(low, d, size, canonical);
      PlainNodeSteps(code, env, low, d, size, canonical, c, at, m);
    }
  }

  lemma StackActs(env: Env, op: RegionOp, c: CpuState, m: Memory)
    requires RegNumbers(op.regs) && op.regs != []
    ensures ActOf(env, op, c, m) == StackAct(env, op, c, m)
  {
    hide StackAct;
  }

  lemma LoweredPc(pc: Word, low: RegionOp, d: Decoded, size: int, canonical: Option<Decoded>)
    requires LoweredNode(BlankNode(pc).(size := size), d, size, canonical) == Some(low)
    ensures low.pc == pc && LoweredFrom(low, d, size, canonical)
  {
    hide LowerNative, StackRegs, RegionMemoryShape, BlankNative;
  }

  // ---------------------------------------------------------------- whole runs

  /** From `l` at `pc`, checked steps lead to `l1` at `pc1`, with the counts and cycles it records. */
  predicate Leads(code: Code, env: Env, l: Live, pc: Word, l1: Live, pc1: Word) {
    && l.count <= l1.count && l.cycles <= l1.cycles
    && ChargedSteps(code, RegionStall(env), Place(l.cpu, l.last, pc), l.mem, l.fetch, l1.count - l.count)
       == Some(Charged(Place(l1.cpu, l1.last, pc1), l1.mem, l1.fetch, l1.cycles - l.cycles))
  }

  lemma LeadsNowhere(code: Code, env: Env, l: Live, pc: Word)
    ensures Leads(code, env, l, pc, l, pc)
  {
  }

  lemma LeadsOn(code: Code, env: Env, l: Live, pc: Word, l1: Live, pc1: Word, l2: Live, pc2: Word)
    requires Leads(code, env, l, pc, l1, pc1) && Leads(code, env, l1, pc1, l2, pc2)
    ensures Leads(code, env, l, pc, l2, pc2)
  {
    hide ChargedSteps, Place;
    ChargedCompose(code, RegionStall(env), Place(l.cpu, l.last, pc), l.mem, l.fetch, l1.count - l.count,
      l2.count - l1.count);
  }

  /** One agreeing node is one charged step. */
  lemma LeadsStep(code: Code, env: Env, l: Live, op: RegionOp, act: Act, next: Word)
    requires act.Act? && NodeAgrees(code, op, l.cpu, l.last, l.mem, act, next)
    requires op.pc in code && op.fallthrough == Words.Add(op.pc, code[op.pc].size)
    ensures
      Leads(code, env, l, op.pc,
            Live(act.cpu, act.mem, l.count + 1, l.cycles + ChargeOf(env, op, act.taken, l.fetch),
              Fetch(true, op.fallthrough), op.pc),
            next)
  {
    hide Step, Words.Add;
    var c := Place(l.cpu, l.last, op.pc);
    var st := Step(code, c, l.mem);
    assert c.r[15] == op.pc;
    assert ChargedSteps(code, RegionStall(env), st.cpu, st.mem, Fetch(true, op.fallthrough), 0)
      == Some(Charged(st.cpu, st.mem, Fetch(true, op.fallthrough), 0));
  }

  lemma IntegerKeepsCore(inst: MicroInst, c: CpuState)
    requires Enterable(c)
    ensures Enterable(IntegerEffect(inst, c))
  {
    hide Effect, View, InItBlock;
    EffectKeepsRest(inst, View(c));
    assert View(c).psr == c.psr by { ReadCore(c, 0, 0); }
  }

  lemma PopKeepsCore(regs: seq<nat>, c: CpuState, words: seq<Word>)
    requires RegNumbers(regs) && |words| == |regs| && Enterable(c)
    ensures Enterable(WithPc(PopCommit(regs, c, words), c.r[15]))
  {
    hide CommitWords, ActiveSp, Words.Add, ClearBit0, InItBlock;
    CommitKeeps(c, Ordinary(regs), words[..|Ordinary(regs)|]);
  }

  lemma ActKeeps(env: Env, op: RegionOp, c: CpuState, m: Memory)
    requires RegNumbers(op.regs) && Enterable(c) && ActOf(env, op, c, m).Act?
    ensures Enterable(ActOf(env, op, c, m).cpu)
  {
    hide ReadGuard, WriteGuard, Load, Store, Values, StoreWords, LoadWords, PopCommit, IntegerEffect, BranchPasses,
      InItBlock, ReturnGuard, ReadRegister, Words.Add, Words.Sub, SetBit0, ClearBit0, SignedLoad, IndexedAddress,
      AccessAddress, ActiveSp;
    if IsStackOp(op) {
      if !op.push { PopKeepsCore(op.regs, c, LoadWords(m, ActiveSp(c), |op.regs|).value); }
    } else if !IsMemory(op.inst.kind) && op.flow == FlowNext {
      IntegerKeepsCore(op.inst.integer, c);
    }
  }

  /** Whether an op's act is taken follows its flow. */
  lemma TakenFlow(env: Env, cfg: Config, op: RegionOp, c: CpuState, m: Memory)
    requires Contains(cfg.img, op.pc, 2) && op.(edge0 := None, edge1 := None) == NodeAt(cfg.img, op.pc)
             && RegNumbers(op.regs)
    requires ActOf(env, op, c, m).Act?
    ensures
      var act := ActOf(env, op, c, m);
      && (op.flow == FlowNext ==> !act.taken) && (op.flow == Jump || op.flow == Call ==> act.taken)
      && (op.flow != CheckedFlow ==>
            op.fallthrough == Words.Add(op.pc, DecodeAt(cfg.img, op.pc).0) && DecodeAt(cfg.img, op.pc).1.Some?)
  {
    hide DecodeAt, PairAt, ActOf, Contains, BlankNative, FlowNode, LoweredNode, Words.Add;
    var (size, decoded) := DecodeAt(cfg.img, op.pc);
    if op.flow != CheckedFlow {
      var d := decoded.value;
      var canonical := if size == 2 then cfg.img.decode16(Halfword(cfg.img, op.pc)) else None;
      var low := LoweredNode(BlankNode(op.pc).(size := size), d, size, canonical).value;
      FlowFits(low, d, op.pc, size, canonical);
      FlowTaken(env, op, c, m, d);
    }
  }

  lemma FlowFits(low: RegionOp, d: Decoded, pc: Word, size: int, canonical: Option<Decoded>)
    requires LoweredNode(BlankNode(pc).(size := size), d, size, canonical) == Some(low)
    ensures
      var op := FlowNode(low, d);
      && op.fallthrough == Words.Add(pc, size)
      && (op.regs != [] ==>
            op.regs == StackRegs(d.registerList, d.kind == Push) && op.push == (d.kind == Push) && IsStack(d))
      && (op.flow == FlowNext && op.regs != [] ==> !PopsPc(d))
      && (op.regs != [] ==> op.flow == FlowNext || op.flow == Indirect)
      && (op.regs == [] && IsMemory(op.inst.kind) ==> op.flow == FlowNext || op.flow == Indirect)
  {
    hide LowerNative, StackRegs, RegionMemoryShape, BlankNative, Words.Add, BranchNodeTarget, BasePipelineCycles,
      TakenBranchPenalty, MemoryOp;
    if !IsStack(d) { MemoryIsNoBranch(MicroSource(d, pc, size), canonical, d); }
  }

  /** Loads and stores lower only from load and store instructions. */
  lemma MemoryIsNoBranch(s: MicroSource, canonical: Option<Decoded>, d: Decoded)
    requires s.decoded == d
    ensures
      var n := LowerNative(s, canonical);
      n.Accepted? && IsMemory(n.inst.kind) ==> !IsControlFlow(d.kind)
    ensures RegionMemoryShape(d) ==> !IsControlFlow(d.kind)
  {
    hide LowerMemory, Lower;
    ExchangeKinds(d, canonical);
  }

  lemma ExchangeKinds(d: Decoded, canonical: Option<Decoded>)
    ensures LowerBx(d, canonical).Accepted? ==> !IsMemory(LowerBx(d, canonical).inst.kind)
    ensures LowerBlx(d, canonical).Accepted? ==> !IsMemory(LowerBlx(d, canonical).inst.kind)
  {
  }

  lemma FlowTaken(env: Env, op: RegionOp, c: CpuState, m: Memory, d: Decoded)
    requires RegNumbers(op.regs) && ActOf(env, op, c, m).Act?
    requires op.regs != [] ==>
               && op.regs == StackRegs(d.registerList, d.kind == Push) && op.push == (d.kind == Push) && IsStack(d)
               && (op.flow == FlowNext ==> !PopsPc(d)) && (op.flow == FlowNext || op.flow == Indirect)
    requires op.regs == [] && IsMemory(op.inst.kind) ==> op.flow == FlowNext || op.flow == Indirect
    ensures
      var act := ActOf(env, op, c, m);
      (op.flow == FlowNext ==> !act.taken) && (op.flow == Jump || op.flow == Call ==> act.taken)
  {
    hide StackAct, MemoryAct, IndirectAct, IntegerEffect, BranchPasses, SetBit0, WithLr, PopsPc, StackRegs;
    if op.regs != [] {
      if op.flow == FlowNext { StackTaken(env, op, c, m, d); }
    } else if IsMemory(op.inst.kind) {
      MemoryTaken(env, op, c, m);
    }
  }

  lemma MemoryTaken(env: Env, op: RegionOp, c: CpuState, m: Memory)
    ensures MemoryAct(env, op, c, m).Act? ==> !MemoryAct(env, op, c, m).taken
  {
    hide ReadGuard, WriteGuard, Load, Store, WriteRegister, ReadRegister, SignedLoad, IndexedAddress, AccessAddress,
      BaseWriteback;
  }

  lemma StackTaken(env: Env, op: RegionOp, c: CpuState, m: Memory, d: Decoded)
    requires op.regs == StackRegs(d.registerList, d.kind == Push) && op.push == (d.kind == Push) && IsStack(d)
             && !PopsPc(d)
    requires RegNumbers(op.regs) && op.regs != [] && StackAct(env, op, c, m).Act?
    ensures !StackAct(env, op, c, m).taken
  {
    hide ReadGuard, WriteGuard, Values, StoreWords, LoadWords, PopCommit, LoadsPc, ReturnGuard, ClearBit0, ActiveSp,
      RegsFrom, StackListValid, WriteRegister;
    OrdinaryIs(d.registerList);
  }

  /** The decoded pair behind a fused node. */
  lemma PairNode(code: Code, cfg: Config, op: RegionOp)
    requires Contains(cfg.img, op.pc, 2) && op.pc % 2 == 0 && ImageCode(cfg.img, code) && Buildable(cfg)
    requires op.(edge0 := None, edge1 := None) == NodeAt(cfg.img, op.pc) && op.pair.Pair?
    ensures DecodeAt(cfg.img, op.pc).1.Some? && Contains(cfg.img, op.pc, 6)
            && DecodeAt(cfg.img, op.pc).1.value.imm < 0x100
    ensures PairCoded(code, op, DecodeAt(cfg.img, op.pc).1.value.imm, Halfword(cfg.img, op.pc + 2),
            Halfword(cfg.img, op.pc + 4))
  {
    hide FlowNode, LoweredNode, BlankNative, DecodeAt, RecognisePair, MovDecoded, ImageCode, Halfword;
    var img, pc := cfg.img, op.pc;
    var (size, decoded) := DecodeAt(img, pc);
    assert decoded.Some? && op.pair == PairAt(img, pc, decoded.value) by { PairOnlyFromIt(img, pc); }
    var d := decoded.value;
    NodeSource(cfg, op, code);
    var first, second := Halfword(img, pc + 2), Halfword(img, pc + 4);
    assert d.imm % 0x100 == d.imm;
    PairMoveCode(code, img, pc + 2);
    PairMoveCode(code, img, pc + 4);
    assert IsMovImmediate(first) && IsMovImmediate(second) by { PairHalfwords(d.imm, first, second); }
  }

  lemma PairOnlyFromIt(img: Image, pc: Word)
    requires Contains(img, pc, 2) && NodeAt(img, pc).pair.Pair?
    ensures DecodeAt(img, pc).1.Some? && NodeAt(img, pc).pair == PairAt(img, pc, DecodeAt(img, pc).1.value)
  {
    hide DecodeAt, PairAt, LowerNative, StackRegs, RegionMemoryShape, BlankNative, Words.Add, BranchNodeTarget,
      BasePipelineCycles, TakenBranchPenalty;
  }

  lemma PairHalfwords(it: Byte, first: nat, second: nat)
    requires RecognisePair(it, first, second).Pair?
    ensures IsMovImmediate(first) && IsMovImmediate(second)
  {
    hide AdvanceItState;
  }

  lemma PairMoveCode(code: Code, img: Image, pc: Word)
    requires Contains(img, pc, 2) && pc % 2 == 0 && ImageCode(img, code)
    ensures
      var h := Halfword(img, pc);
      IsMovImmediate(h) ==> pc in code && code[pc].size == 2 && MovDecoded(h, code[pc].decoded)
  {
    hide MovDecoded, Halfword, Shaped;
    if IsMovImmediate(Halfword(img, pc)) {
      assert DecodeAt(img, pc) == (2, img.decode16(Halfword(img, pc)));
    }
  }

  /** What the builder established, node by node. */
  predicate Built(cfg: Config, plan: Plan, limited: bool) {
    && Buildable(cfg) && Placed(cfg, plan) && WellFormed(plan)
    && forall k | 0 <= k < |plan| :: Finished(cfg, plan, limited, plan[k])
  }

  lemma BuiltNode(cfg: Config, plan: Plan, limited: bool, i: nat)
    requires Built(cfg, plan, limited) && i < |plan|
    ensures
      var op := plan[i];
      && Contains(cfg.img, op.pc, 2) && op.pc % 2 == 0 && op.(edge0 := None, edge1 := None) == NodeAt(cfg.img, op.pc)
      && RegNumbers(op.regs) && EdgeOk(cfg, plan, limited, op.edge0, Wants0(op))
         && EdgeOk(cfg, plan, limited, op.edge1, Wants1(op))
  {
    hide NodeAt, EdgeOk, Wants0, Wants1, RegNumbers, Reached;
    assert !External(cfg, plan[i].pc);
  }

  function NextAddress(plan: Plan, next: Next): Word {
    match next
    case Leave(_, pc) => pc
    case Goto(j) => if j < |plan| then plan[j].pc else 0
  }

  /** Edges lead to the address they stand for. */
  lemma EdgesLead(cfg: Config, plan: Plan, limited: bool, op: RegionOp, act: Act)
    requires EdgeOk(cfg, plan, limited, op.edge0, Wants0(op)) && EdgeOk(cfg, plan, limited, op.edge1, Wants1(op))
    requires op.pair == NoPair && op.flow != CheckedFlow && act.Act?
    requires (op.flow == FlowNext ==> !act.taken) && (op.flow == Jump || op.flow == Call ==> act.taken)
    ensures NextAddress(plan, Continue(plan, op, act)) == NextPc(op, act)
  {
    hide External, Words.Add;
  }

  lemma NoPairOfFlow(img: Image, pc: Word)
    requires Contains(img, pc, 2)
    ensures NodeAt(img, pc).flow != CheckedFlow ==> NodeAt(img, pc).pair == NoPair
  {
    hide DecodeAt, PairAt, LowerNative, StackRegs, RegionMemoryShape, BlankNative, Words.Add, BranchNodeTarget,
      BasePipelineCycles, TakenBranchPenalty;
  }

  /** Entering a node: the checked steps behind whatever it retires. */
  lemma OneOpLeads(code: Code, env: Env, cfg: Config, plan: Plan, limited: bool, i: nat, l: Live)
    requires Built(cfg, plan, limited) && ImageCode(cfg.img, code) && EnvOk(env) && i < |plan| && Enterable(l.cpu)
    ensures
      var (l1, next) := OneOp(env, plan, i, l);
      Enterable(l1.cpu) && Leads(code, env, l, plan[i].pc, l1, NextAddress(plan, next))
  {
    hide Built, ImageCode, EnvOk, Leads, ActOf, NodeAt, NextPc, Continue, ChargeOf, Enterable, PairAct, EdgeOk, Wants0,
      Wants1, Contains, DecodeAt, NodeAgrees, Words.Add, PairAdmitted, WellFormed, RegNumbers;
    var op := plan[i];
    BuiltNode(cfg, plan, limited, i);
    LeadsNowhere(code, env, l, op.pc);
    BuiltParts(cfg, plan, limited);
    if l.count < env.instructionLimit {
      if PairAdmitted(env, op, l) {
        PairLeads(code, env, cfg, plan, limited, op, l);
      } else if op.flow != CheckedFlow {
        var act := ActOf(env, op, l.cpu, l.mem);
        if act.Act? && l.cycles + ChargeOf(env, op, act.taken, l.fetch) <= env.cycleLimit {
          NodeLeads(code, env, cfg, plan, limited, i, l);
        }
      }
    }
  }

  lemma NodeLeads(code: Code, env: Env, cfg: Config, plan: Plan, limited: bool, i: nat, l: Live)
    requires Built(cfg, plan, limited) && ImageCode(cfg.img, code) && EnvOk(env) && i < |plan| && Enterable(l.cpu)
    requires RegNumbers(plan[i].regs) && plan[i].flow != CheckedFlow && ActOf(env, plan[i], l.cpu, l.mem).Act?
    ensures
      var op := plan[i];
      var act := ActOf(env, op, l.cpu, l.mem);
      && Enterable(act.cpu)
      && Leads(code, env, l, op.pc,
               Live(act.cpu, act.mem, l.count + 1, l.cycles + ChargeOf(env, op, act.taken, l.fetch),
                 Fetch(true, op.fallthrough), op.pc),
               NextAddress(plan, Continue(plan, op, act)))
  {
    hide Built, ImageCode, EnvOk, Leads, ActOf, NodeAt, NextPc, Continue, ChargeOf, Enterable, EdgeOk, Wants0, Wants1,
      Contains, DecodeAt, NodeAgrees, Words.Add, WellFormed, RegNumbers, NextAddress, Shaped, Ready;
    var op := plan[i];
    var act := ActOf(env, op, l.cpu, l.mem);
    BuiltNode(cfg, plan, limited, i);
    NoPairOfFlow(cfg.img, op.pc);
    TakenFlow(env, cfg, op, l.cpu, l.mem);
    NodeSource(cfg, op, code);
    EnterableReady(l.cpu);
    NodeRefines(code, env, cfg, op, l.cpu, l.last, l.mem);
    ActKeeps(env, op, l.cpu, l.mem);
    EdgesLead(cfg, plan, limited, op, act);
    LeadsStep(code, env, l, op, act, NextPc(op, act));
  }

  lemma EnterableReady(c: CpuState)
    requires Enterable(c)
    ensures Ready(c) && c.itState == 0 && c.pendingExcReturn == None
  {
  }

  lemma BuiltParts(cfg: Config, plan: Plan, limited: bool)
    requires Built(cfg, plan, limited)
    ensures WellFormed(plan) && Buildable(cfg)
  {
  }

  lemma PairLeads(code: Code, env: Env, cfg: Config, plan: Plan, limited: bool, op: RegionOp, l: Live)
    requires Contains(cfg.img, op.pc, 2) && op.pc % 2 == 0 && ImageCode(cfg.img, code) && Buildable(cfg)
    requires op.(edge0 := None, edge1 := None) == NodeAt(cfg.img, op.pc) && Enterable(l.cpu) && PairAdmitted(env, op, l)
    requires EdgeOk(cfg, plan, limited, op.edge0, Wants0(op))
    ensures
      var l1, next := PairAct(env, op, l), Link(op.edge0, Words.Add(op.pc, 6));
      Enterable(l1.cpu) && Leads(code, env, l, op.pc, l1, NextAddress(plan, next))
  {
    hide NodeAt, ImageCode, DecodeAt, External, ChargedSteps, Words.Add, ConditionPasses, PairCoded, InItBlock,
      Halfword;
    PairNode(code, cfg, op);
    var it := DecodeAt(cfg.img, op.pc).1.value.imm;
    PairIsThreeSteps(code, env, op, l, it, Halfword(cfg.img, op.pc + 2), Halfword(cfg.img, op.pc + 4));
  }

  /** Region refinement: whatever a region built from the image retires before its exit, checked
      execution of the same code retires, with equal core, memory, count, cycles and fetch state,
      and the region is left at the PC checked execution has reached. */
  lemma {:induction false} RegionRefines(code: Code, env: Env, cfg: Config, plan: Plan, limited: bool, i: nat, l: Live)
    requires Built(cfg, plan, limited) && WellFormed(plan) && ImageCode(cfg.img, code) && EnvOk(env) && i < |plan|
             && Enterable(l.cpu)
    ensures
      var o := RunPlain(env, plan, i, l);
      Enterable(o.live.cpu) && Leads(code, env, l, plan[i].pc, o.live, o.pc)
    decreases if l.count < env.instructionLimit then env.instructionLimit - l.count else 0
  {
    hide Built, ImageCode, EnvOk, Leads, OneOp, Enterable, WellFormed;
    OneOpLeads(code, env, cfg, plan, limited, i, l);
    var (l1, next) := OneOp(env, plan, i, l);
    if next.Goto? {
      RegionRefines(code, env, cfg, plan, limited, next.index, l1);
      var o := RunPlain(env, plan, next.index, l1);
      LeadsOn(code, env, l, plan[i].pc, l1, plan[next.index].pc, o.live, o.pc);
    }
  }

  /** Compiled regions, with spans, dead-flag elimination, loops and IT pairs fused, refine checked
      execution. */
  lemma CompiledRegionRefines(
    code: Code, env: Env, cfg: Config, plan: Plan, limited: bool, table: seq<Fused>, i: nat, l: Live)
    requires Built(cfg, plan, limited) && Linked(plan) && Detected(plan, table)
    requires ImageCode(cfg.img, code) && EnvOk(env) && i < |plan| && Enterable(l.cpu)
    ensures
      var o := RunFused(env, plan, table, i, l);
      Enterable(o.live.cpu) && Leads(code, env, l, plan[i].pc, o.live, o.pc)
  {
    hide Built, Linked, Detected, ImageCode, EnvOk, Enterable, Leads, RunPlain, RunFused;
    LinkedIsWellFormed(plan);
    RegionFusion(env, plan, table, i, l);
    RegionRefines(code, env, cfg, plan, limited, i, l);
  }

  // ---------------------------------------------------------------- bound memory

  /** Every byte of the bound windows is mapped, and the write window is writable. */
  predicate Backed(env: Env, m: Memory) {
    && Readable(m, env.ram.begin, env.ram.size) && Readable(m, env.code.begin, env.code.size)
    && Writable(m, env.write.begin, env.write.size)
  }

  /** Over bound memory the guards decide alone: a guarded access never faults. */
  lemma GuardSuffices(env: Env, m: Memory, a: Word, w: Width, v: Word)
    requires EnvOk(env) && Backed(env, m)
    ensures ReadGuard(env, a, Bytes(w)) ==> Load(m, a, w).Some?
    ensures WriteGuard(env, a, Bytes(w)) ==> Store(m, a, w, v).Some? && Backed(env, Store(m, a, w, v).value)
  {
    hide InWindow, Join;
    WindowExact(env.ram, a, Bytes(w));
    WindowExact(env.code, a, Bytes(w));
    WindowExact(env.write, a, Bytes(w));
  }
}
