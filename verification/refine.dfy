/** Native traces refine checked execution: whatever a trace retires, and however it exits, the
    core, memory, fetch state and cycles are those of as many checked steps. */
module Refinement {
  import opened Words
  import opened MathOps
  import opened Cpu
  import opened Micro
  import opened Lowering
  import opened Native
  import opened Stack
  import opened Timing
  import opened Blocks
  import opened Trace

  // ---------------------------------------------------------------- hypotheses

  /** Plain RAM behind the helpers: an access is the memory access it names, or declines. */
  ghost predicate RamBus(bus: Bus) {
    && (forall cycles: nat, pc: Word, a: Word, w: Width, m: Memory ::
          bus.read(cycles, pc, a, w, m).ReadOk? ==>
            bus.read(cycles, pc, a, w, m).mem == m && Load(m, a, w) == Some(bus.read(cycles, pc, a, w, m).value))
    && (forall cycles: nat, pc: Word, a: Word, w: Width, v: Word, m: Memory ::
          bus.write(cycles, pc, a, w, v, m).WriteOk? ==>
            Store(m, a, w, v) == Some(bus.write(cycles, pc, a, w, v, m).mem))
  }

  predicate IsBranchSource(d: Decoded) {
    IsControlFlow(d.kind) || PopsPc(d) || d.kind == Bx || d.kind == Blx
  }

  /** The execution cycles prepareNativeTrace records for an op. */
  function RecordedCycles(op: TraceOp): nat {
    if IsBranchSource(op.decoded) && !op.expectedTaken then 1
    else
      BasePipelineCycles(op.decoded)
      + if op.expectedTaken && op.expectedNextPc != Words.Add(op.pc, op.size)
        then TakenBranchPenalty(op.decoded.kind) else 0
  }

  /** An op that validates and that records what `code` holds at its address. */
  predicate Coded(code: Code, src: TraceSource, op: TraceOp) {
    && ValidateSource(src) == Some(op)
    && op.pc in code && code[op.pc] == Fetched(op.decoded, op.size)
    && DecoderShaped(op.decoded) && (IsStack(op.decoded) ==> StackDecoded(op.decoded))
    && op.executionCycles == RecordedCycles(op)
  }

  /** A core the trace dispatcher admits, at the op. */
  predicate AtOp(op: TraceOp, c: CpuState) {
    Ready(c) && c.pendingExcReturn == None && c.r[15] == op.pc
  }

  /** The op returns through the EXC_RETURN token of an extended frame, which the trace guards do
      not recognise. */
  predicate ReturnsToken(op: TraceOp, c: CpuState, m: Memory) {
    PopsToken(op.decoded, c, m) || (op.native.kind == BxLr && ExtendedToken(c.r[14]))
  }

  predicate Effective(r: OpResult) {
    r.Retired? || r.ReturnedElsewhere?
  }

  // ---------------------------------------------------------------- loads and stores

  lemma LoweredMemory(s: MicroSource, n: NativeInst, c: CpuState)
    requires IsTransfer(s.decoded.kind) && LowerMemory(s) == Accepted(n) && c.r[15] == s.pc
    ensures s.decoded.condition == AL && !s.decoded.writeback && s.pc % 2 == 0
    ensures n.kind == MemoryOp(s.decoded.kind) && n.rd == s.decoded.rd < 13 && n.integer.op == OpNop
    ensures TransferAddress(s.decoded, Entered(c, s.size)) == MemoryAddress(n, c)
  {
    hide NoList, Words.Add, Words.Sub, AlignWord;
  }

  lemma MemoryOpFacts(kind: InstrKind, v: Word)
    requires IsTransfer(kind)
    ensures var op := MemoryOp(kind);
            && IsMemory(op) && (IsLoad(op) <==> !IsStore(kind)) && WidthOf(op) == AccessWidth(kind)
            && SignedLoad(op, v) == LoadedValue(kind, v)
  {
    hide SignExtend;
  }

  lemma LoadExecutes(d: Decoded, c: CpuState, m: Memory)
    requires IsTransfer(d.kind) && !IsStore(d.kind) && d.rd < 13 && !d.writeback
    ensures Execute(d, c, m) ==
            match Load(m, TransferAddress(d, c), AccessWidth(d.kind))
            case None => Exec(c, m, BusFault)
            case Some(v) => Done(c.(r := c.r[d.rd := LoadedValue(d.kind, v)]), m)
  {
    hide Load, TransferAddress, OffsetAddress, AccessWidth, LoadedValue;
  }

  lemma StoreExecutes(d: Decoded, c: CpuState, m: Memory)
    requires IsStore(d.kind) && d.rd < 13 && !d.writeback
    ensures Execute(d, c, m) ==
            match Store(m, TransferAddress(d, c), AccessWidth(d.kind), c.r[d.rd])
            case None => Exec(c, m, BusFault)
            case Some(m1) => Done(c, m1)
  {
    hide Store, TransferAddress, OffsetAddress, AccessWidth;
  }

  lemma BusReads(bus: Bus, cycles: nat, pc: Word, a: Word, w: Width, m: Memory)
    requires RamBus(bus)
    ensures bus.read(cycles, pc, a, w, m).ReadOk? ==>
              bus.read(cycles, pc, a, w, m).mem == m && Load(m, a, w) == Some(bus.read(cycles, pc, a, w, m).value)
  {
    hide Load, Store;
  }

  lemma BusWrites(bus: Bus, cycles: nat, pc: Word, a: Word, w: Width, v: Word, m: Memory)
    requires RamBus(bus)
    ensures bus.write(cycles, pc, a, w, v, m).WriteOk? ==>
              Store(m, a, w, v) == Some(bus.write(cycles, pc, a, w, v, m).mem)
  {
    hide Load, Store;
  }

  lemma EnteredRegister(c: CpuState, size: int, reg: nat, v: Word)
    requires reg < 13
    ensures
      var c1 := Entered(c, size);
      && c1.r[reg] == c.r[reg] && c1.r[15] == Words.Add(c.r[15], size)
      && c1.(r := c1.r[reg := v]) == WithPc(c.(r := c.r[reg := v]),
         Words.Add(c.r[15], size)).(instructionAddress := c.r[15])
      && c1 == WithPc(c, Words.Add(c.r[15], size)).(instructionAddress := c.r[15])
  {
    hide Words.Add;
  }

  /** A native load or store that goes through is the checked one. */
  lemma MemoryExecutes(op: TraceOp, s: MicroSource, c: CpuState, m: Memory, bus: Bus, cycles: nat)
    requires s == MicroSource(op.decoded, op.pc, op.size) && c.r[15] == op.pc
    requires IsTransfer(op.decoded.kind) && LowerMemory(s) == Accepted(op.native) && RamBus(bus)
    requires op.expectedNextPc == Words.Add(op.pc, op.size)
    requires MemoryStep(op, c, m, bus, cycles).Retired?
    ensures var r := MemoryStep(op, c, m, bus, cycles);
            Execute(op.decoded, Entered(c, op.size), m) == Done(r.cpu, r.mem)
  {
    hide LowerMemory, RamBus, Load, Store, Words.Add, Entered, Execute, IsTransfer, MemoryOp, IsLoad, IsStore, WidthOf,
      AccessWidth, SignedLoad, LoadedValue, TransferAddress, MemoryAddress, WithPc;
    var d, n := op.decoded, op.native;
    LoweredMemory(s, n, c);
    var a := MemoryAddress(n, c);
    if IsLoad(n.kind) {
      var reply := bus.read(cycles, op.pc, a, WidthOf(n.kind), m);
      BusReads(bus, cycles, op.pc, a, WidthOf(n.kind), m);
      MemoryOpFacts(d.kind, reply.value);
      LoadExecutes(d, Entered(c, op.size), m);
      EnteredRegister(c, op.size, d.rd, LoadedValue(d.kind, reply.value));
    } else {
      BusWrites(bus, cycles, op.pc, a, WidthOf(n.kind), c.r[n.rd], m);
      MemoryOpFacts(d.kind, 0);
      StoreExecutes(d, Entered(c, op.size), m);
      EnteredRegister(c, op.size, d.rd, 0);
    }
  }

  // ---------------------------------------------------------------- indirect branches

  lemma ThumbTarget(target: Word, expected: Word)
    requires target == SetBit0(expected) && expected % 2 == 0
    ensures target % 2 == 1 && ClearBit0(target) == expected
  {
  }

  lemma ExchangeExecutes(d: Decoded, c: CpuState, m: Memory)
    requires d.kind == Bx || d.kind == Blx
    ensures Execute(d, c, m) == ExecBranchExchange(d, c, m)
  {
    hide ExecBranchExchange;
  }

  /** A guarded BX LR is the checked BX exactly when LR is not an extended token. */
  lemma BxExecutes(op: TraceOp, canonical: Option<Decoded>, c: CpuState, m: Memory)
    requires op.decoded.kind == Bx && LowerBx(op.decoded, canonical) == Accepted(op.native)
    requires Ready(c) && c.pendingExcReturn == None && c.r[15] == op.pc
    requires op.expectedNextPc % 2 == 0 && GuardHolds(op, c)
    ensures
      var e := Execute(op.decoded, Entered(c, op.size), m);
      if ExtendedToken(c.r[14]) then e.stop == StepComplete && e.cpu.pendingExcReturn.Some?
      else e == Done(PlainOp(op, c), m)
  {
    hide Words.Add, SetBit0, ClearBit0, IsExceptionReturn, InTokenBlock, Execute, InItBlock;
    ExchangeExecutes(op.decoded, Entered(c, op.size), m);
    TokensSplit(c.r[14]);
    ThumbTarget(c.r[14], op.expectedNextPc);
  }

  /** A concrete miss: BX LR recorded with successor 0xffffffe8 and LR 0xffffffe9. The guard holds and
      the trace branches; the checked core stays in sequence and pends an exception return. */
  lemma TokenBranches(op: TraceOp, canonical: Option<Decoded>, c: CpuState, m: Memory)
    requires op.decoded.kind == Bx && LowerBx(op.decoded, canonical) == Accepted(op.native)
    requires Ready(c) && c.pendingExcReturn == None && c.r[15] == op.pc
    requires op.expectedNextPc == 0xffff_ffe8 && c.r[14] == 0xffff_ffe9
    ensures GuardHolds(op, c)
    ensures PlainOp(op, c).r[15] == 0xffff_ffe8 && PlainOp(op, c).pendingExcReturn == None
    ensures Execute(op.decoded, Entered(c, op.size), m)
            == Done(Entered(c, op.size).(pendingExcReturn := Some(0xffff_ffe9)), m)
  {
    hide Words.Add, Execute, InItBlock;
    ExchangeExecutes(op.decoded, Entered(c, op.size), m);
  }

  lemma BlxExecutes(op: TraceOp, canonical: Option<Decoded>, c: CpuState, m: Memory)
    requires op.decoded.kind == Blx && LowerBlx(op.decoded, canonical) == Accepted(op.native)
    requires c.thumb && c.psr.t && c.r[15] == op.pc
    requires op.expectedNextPc % 2 == 0 && GuardHolds(op, c)
    ensures Execute(op.decoded, Entered(c, op.size), m) == Done(PlainOp(op, c), m)
  {
    hide Words.Add, SetBit0, ClearBit0, IsExceptionReturn, InTokenBlock, Execute, BranchTaken, IsBranchOp, BlankNative;
    ExchangeExecutes(op.decoded, Entered(c, op.size), m);
    assert ReadRegister(Entered(c, op.size), op.decoded.rm) == c.r[op.decoded.rm];
    ThumbTarget(c.r[op.native.rn], op.expectedNextPc);
  }

  // ---------------------------------------------------------------- integer ops and direct branches

  lemma PublishIs(g: MicroCpu, c: CpuState, pc: Word, next: Word, lr: Word)
    ensures Publish(View(c).(pc := next), c, pc) == WithPc(c, next).(instructionAddress := pc)
    ensures Publish(View(c).(lr := lr, pc := next), c, pc) == WithPc(WithLr(c, lr), next).(instructionAddress := pc)
    ensures g.pc == next ==> WithPc(Publish(g, c, pc), next).(instructionAddress := pc) == Publish(g, c, pc)
  {
  }

  lemma SameTaken(s: MicroSource, op: TraceOp, c: CpuState)
    requires Lower(s) == Accepted(op.native.integer) && DecoderShaped(s.decoded)
    ensures BranchTaken(op, c) == Taken(op.native.integer, View(c))
  {
    hide Lower, ConditionPasses, LowerBranch, LowerCompareBranch, BlankInst;
    LowerGate(s, op.native.integer);
    LowerControl(s, op.native.integer);
    if s.decoded.kind == Cbz || s.decoded.kind == Cbnz {
      CompareBranchReg(s, op.native.integer);
    } else if s.decoded.kind == B || s.decoded.kind == Bl {
      LoweredBranch(s, op.native.integer);
    } else {
      NoCompareBranch(s, op.native.integer, c);
    }
  }

  lemma CompareBranchReg(s: MicroSource, inst: MicroInst)
    requires LowerCompareBranch(s.decoded, BlankInst(s)) == Accepted(inst)
    ensures CoreReg(inst.rn)
  {
  }

  /** Only the branch kinds lower to branch ops. */
  lemma NoCompareBranch(s: MicroSource, inst: MicroInst, c: CpuState)
    requires Lower(s) == Accepted(inst) && !IsControlFlow(s.decoded.kind) && DecoderShaped(s.decoded)
    ensures !IsBranchOp(inst.op)
  {
    hide Lower, BlankInst, IsDataKind, IsIdleKind, DecoderShaped, AluOf, Entered, Effect, CoreDest;
    LowerGate(s, inst);
    if IsDataKind(s.decoded.kind) {
      DataEffect(s, inst, c);
    } else {
      IdleInst(s, inst);
      BlankParts(s);
    }
  }

  /** The edge the source records is where the branch op goes. */
  lemma EdgeIsTarget(src: TraceSource, n: NativeInst)
    requires EdgeValid(src, n) && n.kind == Integer && n.integer.pc == src.pc && n.integer.size == src.size
    requires !PopsPc(src.decoded)
    ensures src.expectedNextPc == if src.expectedTaken then OpTarget(n.integer) else OpSequential(n.integer)
    ensures src.expectedTaken ==> IsBranchOp(n.integer.op)
  {
    hide Words.Add, ClearBit0, Wrap;
  }

  lemma IntegerRetires(src: TraceSource, op: TraceOp, c: CpuState, m: Memory)
    requires Lower(MicroSource(op.decoded, op.pc, op.size)) == Accepted(op.native.integer) && op.native.kind == Integer
    requires DecoderShaped(op.decoded) && c.r[15] == op.pc && !InItBlock(c.itState) && GuardHolds(op, c)
    requires EdgeValid(src, op.native) && src.pc == op.pc && src.size == op.size && src.decoded == op.decoded
    requires src.expectedNextPc == op.expectedNextPc && src.expectedTaken == op.expectedTaken
    ensures
      var r := Retire(op.decoded, op.size, c, m);
      && r == StepResult(PlainOp(op, c), m, StepComplete, LoweredCycles(op.decoded, op.size, c, op.expectedNextPc))
      && Taken(op.native.integer, View(c)) == op.expectedTaken
  {
    hide Lower, Retire, MicroStep, Publish, View, DecoderShaped, InItBlock, EdgeValid, WithPc, WithLr, SetBit0,
      OpTarget, OpSequential, LoweredCycles, ConditionPasses, Taken, BranchTaken, Words.Add;
    var s, inst := MicroSource(op.decoded, op.pc, op.size), op.native.integer;
    LoweringSound(s, inst, c, m);
    LoweredAt(s, inst);
    LowerGate(s, inst);
    assert !PopsPc(src.decoded) by { NotPop(s.decoded.kind); }
    EdgeIsTarget(src, op.native);
    SameTaken(s, op, c);
    var g := MicroStep(inst, View(c));
    if IsBranchOp(inst.op) {
      BranchStep(inst, View(c));
      PublishIs(g, c, op.pc, op.expectedNextPc, SetBit0(OpSequential(inst)));
      SequentialIs(op, inst);
      if inst.op == OpBl { AlwaysTaken(inst, View(c)); }
    } else {
      PlainStep(inst, View(c));
      PublishIs(g, c, op.pc, op.expectedNextPc, 0);
    }
  }

  lemma AlwaysTaken(inst: MicroInst, g: MicroCpu)
    requires inst.op == OpBl
    ensures Taken(inst, g)
  {
  }

  lemma SequentialIs(op: TraceOp, inst: MicroInst)
    requires inst.pc == op.pc && inst.size == op.size
    ensures OpSequential(inst) == Words.Add(op.pc, op.size)
  {
  }

  lemma NotPop(kind: InstrKind)
    requires IsDataKind(kind) || IsIdleKind(kind) || IsControlFlow(kind)
    ensures kind != Pop && kind != Push && kind != Bx && kind != Blx && !IsTransfer(kind)
  {
  }

  // ---------------------------------------------------------------- stack ops

  lemma MultipleExecutes(d: Decoded, c: CpuState, m: Memory)
    requires IsStack(d)
    ensures Execute(d, c, m) == ExecMultiple(d, c, m)
  {
    hide ExecMultiple;
  }

  lemma PushKeeps(regs: seq<nat>, c: CpuState, m: Memory, bus: Bus, pc: Word)
    requires RegNumbers(regs)
    ensures var t := PushTransfer(regs, c, m, bus, pc);
            && (t.Transferred? || t.TransferDeclined?)
            && (t.Transferred? && Ready(c) ==> Ready(t.cpu) && t.cpu.pendingExcReturn == c.pendingExcReturn)
  {
    hide StoreWords, Values;
  }

  lemma {:induction false} CommitKeeps(c: CpuState, regs: seq<nat>, words: seq<Word>)
    requires RegNumbers(regs) && |words| == |regs|
    ensures CommitWords(c, regs, words) == c.(r := CommitWords(c, regs, words).r)
    decreases |regs|
  {
    if regs != [] { CommitKeeps(c.(r := c.r[regs[0] := words[0]]), regs[1..], words[1..]); }
  }

  lemma PopKeeps(regs: seq<nat>, c: CpuState, words: seq<Word>)
    requires RegNumbers(regs) && |words| == |regs|
    ensures var c1 := PopCommit(regs, c, words);
            && (Ready(c) ==> Ready(c1)) && c1.pendingExcReturn == c.pendingExcReturn
            && (LoadsPc(regs) ==> c1.r[15] == ClearBit0(words[|words| - 1]))
  {
    hide CommitWords, ActiveSp, Words.Add, ClearBit0, InItBlock;
    CommitKeeps(c, Ordinary(regs), words[..|Ordinary(regs)|]);
  }

  predicate SafeCore(c: CpuState) {
    Ready(c) && c.pendingExcReturn == None
  }

  lemma PushRetires(op: TraceOp, c: CpuState, m: Memory, bus: Bus, dynamic: bool)
    requires op.decoded.kind == Push && StackDecoded(op.decoded) && StackListValid(op.decoded.registerList, true)
    requires SafeCore(c) && c.r[15] == op.pc && op.expectedNextPc == Words.Add(op.pc, op.size)
    requires Effective(StackOp(op, c, m, bus, dynamic))
    ensures
      var r := StackOp(op, c, m, bus, dynamic);
      && r.Retired? && r.cpu.r[15] == op.expectedNextPc && SafeCore(r.cpu)
      && Execute(op.decoded, Entered(c, op.size), m) == Done(r.cpu, r.mem)
  {
    hide StackDecoded, StackListValid, StackRegs, Words.Add, Entered, Execute, ExecMultiple, PushTransfer, PopTransfer,
      InItBlock;
    var list := op.decoded.registerList;
    PushKeeps(StackRegs(list, true), c, m, bus, op.pc);
    PushIsExecute(op.decoded, op.size, c, m, bus, op.pc);
    MultipleExecutes(op.decoded, Entered(c, op.size), m);
  }

  /** What a committed native POP leaves, and what the checked POP does instead. */
  lemma PopRetires(op: TraceOp, c: CpuState, m: Memory, bus: Bus, dynamic: bool)
    requires op.decoded.kind == Pop && StackDecoded(op.decoded) && StackListValid(op.decoded.registerList, false)
    requires SafeCore(c) && c.r[15] == op.pc
    requires !op.decoded.registerList[15] ==> op.expectedNextPc == Words.Add(op.pc, op.size)
    requires Effective(StackOp(op, c, m, bus, dynamic))
    ensures
      var r := StackOp(op, c, m, bus, dynamic);
      var e := Execute(op.decoded, Entered(c, op.size), m);
      && (r.Retired? ==> r.cpu.r[15] == op.expectedNextPc) && SafeCore(r.cpu)
      && (r.ReturnedElsewhere? ==> PopsPc(op.decoded))
      && (e == Done(r.cpu, r.mem) <==> !PopsToken(op.decoded, c, m))
      && (PopsToken(op.decoded, c, m) ==> e.stop == StepComplete && e.cpu.pendingExcReturn.Some?)
  {
    hide StackDecoded, StackListValid, StackRegs, Words.Add, Entered, Execute, ExecMultiple, PopTransfer, StackOp,
      StackRetired, PopsToken, InItBlock, LoadWords, ActiveSp, RegsFrom, Count, PopWord, PopCommit, ClearBit0,
      InTokenBlock, SafeCore, WithPc;
    var d, list := op.decoded, op.decoded.registerList;
    var t := PopTransfer(StackRegs(list, false), c, m, bus, op.pc, op.expectedNextPc, dynamic);
    PopOp(op, c, m, bus, dynamic);
    PopCommits(list, c, m, bus, op.pc, op.expectedNextPc, dynamic);
    var words := LoadWords(m, ActiveSp(c), Count(list)).value;
    SameCount(list);
    assert c.thumb && c.psr.t && c.pendingExcReturn == None && Ready(c) by { SafeParts(c); }
    assert LoadsPc(RegsFrom(list, 0)) <==> list[15] by { OrdinaryIs(list); }
    PopKeeps(RegsFrom(list, 0), c, words);
    PopIsExecute(d, op.size, c, m, bus, op.pc, op.expectedNextPc, dynamic);
    MultipleExecutes(d, Entered(c, op.size), m);
    PopPlaces(op, c, t.cpu);
    if PopsToken(d, c, m) { TokenPends(d, op.size, c, m, words); }
  }

  lemma SafeParts(c: CpuState)
    requires SafeCore(c)
    ensures c.thumb && c.psr.t && c.pendingExcReturn == None && Ready(c)
  {
  }

  /** The native POP as its transfer. */
  lemma PopOp(op: TraceOp, c: CpuState, m: Memory, bus: Bus, dynamic: bool)
    requires op.decoded.kind == Pop
    ensures
      var t := PopTransfer(StackRegs(op.decoded.registerList, false), c, m, bus, op.pc, op.expectedNextPc, dynamic);
      StackOp(op, c, m, bus, dynamic) ==
        match t
        case Transferred(c1, m1) => Retired(WithPc(c1, op.expectedNextPc).(instructionAddress := op.pc), m1, false)
        case Dynamic(c1, m1) => ReturnedElsewhere(c1.(instructionAddress := op.pc), m1)
        case TransferDeclined => DeclinedOp
        case TransferMismatch => MismatchedOp
  {
    hide PopTransfer, PushTransfer, StackRegs, WithPc;
  }

  /** Where a popped core stands, as the kernel and as the executor place it. */
  lemma PopPlaces(op: TraceOp, c: CpuState, after: CpuState)
    requires c.r[15] == op.pc
    ensures PopsPc(op.decoded) ==> StackRetired(op.decoded, op.size, c, after) == after.(instructionAddress := op.pc)
    ensures !PopsPc(op.decoded) && op.expectedNextPc == Words.Add(op.pc, op.size) ==>
              StackRetired(op.decoded, op.size, c, after)
                == WithPc(after, op.expectedNextPc).(instructionAddress := op.pc)
    ensures after.r[15] == op.expectedNextPc ==> WithPc(after, op.expectedNextPc) == after
    ensures WithPc(after, op.expectedNextPc).(instructionAddress := op.pc).r[15] == op.expectedNextPc
    ensures SafeCore(after) ==> SafeCore(WithPc(after, op.expectedNextPc).(instructionAddress := op.pc))
    ensures SafeCore(after) ==> SafeCore(after.(instructionAddress := op.pc))
    ensures Ready(after) && after.pendingExcReturn == None ==> SafeCore(after)
  {
    hide Words.Add, InItBlock;
  }

  lemma TokenPends(d: Decoded, size: int, c: CpuState, m: Memory, words: seq<Word>)
    requires d.kind == Pop && StackDecoded(d) && StackListValid(d.registerList, false) && Ready(c)
    requires ActiveSp(c) + 4 * Count(d.registerList) <= 0x1_0000_0000
    requires LoadWords(m, ActiveSp(c), Count(d.registerList)) == Some(words)
    requires PopsToken(d, c, m)
    ensures var e := ExecMultiple(d, Entered(c, size), m); e.stop == StepComplete && e.cpu.pendingExcReturn.Some?
  {
    hide StackDecoded, StackListValid, Words.Add, Entered, ExecMultiple, LoadWords, ActiveSp, RegsFrom, PopCommit,
      InItBlock, Count, ExtendedToken, IsExceptionReturn;
    PopExecutes(d, size, c, m, words);
    TokensSplit(words[|words| - 1]);
  }

  // ---------------------------------------------------------------- one op

  /** An op outside an IT block whose executor arm completes. */
  lemma StepExecutes(code: Code, op: TraceOp, c: CpuState, m: Memory)
    requires op.pc in code && code[op.pc] == Fetched(op.decoded, op.size) && op.pc % 2 == 0
    requires Ready(c) && c.r[15] == op.pc && op.decoded.condition == AL && op.decoded.kind != It
             && !IsDivide(op.decoded.kind)
    ensures
      var e := Execute(op.decoded, Entered(c, op.size), m);
      var refill := if e.stop == StepComplete && e.cpu.r[15] != Words.Add(op.pc, op.size)
                    then TakenBranchPenalty(op.decoded.kind) else 0;
      Step(code, c, m) == StepResult(e.cpu, e.mem, e.stop, BasePipelineCycles(op.decoded) + refill)
  {
    hide Retire, Execute, Entered, Step, BasePipelineCycles, TakenBranchPenalty, Words.Add, ConditionPasses, InItBlock;
    StepAt(code, op.decoded, op.size, c, m);
    AlwaysPasses(c.psr);
    RetirePassed(op.decoded, op.size, c, m);
  }

  /** The kind an accepted source has, and what its edge records. */
  lemma SourceKinds(src: TraceSource, op: TraceOp)
    requires ValidateSource(src) == Some(op)
    ensures op.pc % 2 == 0 && src.pc == op.pc && src.size == op.size && src.decoded == op.decoded
    ensures src.expectedNextPc == op.expectedNextPc && src.expectedTaken == op.expectedTaken
            && EdgeValid(src, op.native)
    ensures
      var d, s := op.decoded, MicroSource(op.decoded, op.pc, op.size);
      if IsStack(d) then op.native == BlankNative() && StackListValid(d.registerList, d.kind == Push)
      else if d.kind == Blx then LowerBlx(d, src.canonical) == Accepted(op.native)
      else if d.kind == Bx then LowerBx(d, src.canonical) == Accepted(op.native)
      else if IsTransfer(d.kind) then LowerMemory(s) == Accepted(op.native)
      else Lower(s) == Accepted(op.native.integer) && op.native == BlankNative().(integer := op.native.integer)
  {
    hide LowerBlx, LowerBx, LowerMemory, EdgeValid, StackListValid, Lower;
    if src.decoded.kind == Bx || src.decoded.kind == Blx {
      LowerRejectsExchange(MicroSource(src.decoded, src.pc, src.size));
    }
  }

  lemma LowerRejectsExchange(s: MicroSource)
    requires s.decoded.kind == Bx || s.decoded.kind == Blx
    ensures Lower(s).Declined?
  {
  }

  function Refill(op: TraceOp, next: Word): nat {
    if next != Words.Add(op.pc, op.size) then TakenBranchPenalty(op.decoded.kind) else 0
  }

  /** What one op leaves, against the checked step from the same state. */
  predicate OpAgrees(code: Code, op: TraceOp, c: CpuState, m: Memory, r: OpResult)
    requires Effective(r)
  {
    var st := Step(code, c, m);
    && st.stop == StepComplete && SafeCore(r.cpu)
    && (r.Retired? ==> r.cpu.r[15] == op.expectedNextPc)
    && (r.ReturnedElsewhere? ==> PopsPc(op.decoded))
    && if ReturnsToken(op, c, m) then st.cpu.pendingExcReturn.Some?
       else
         && st.cpu == r.cpu && st.mem == r.mem
         && st.cycles + Refill(op, op.expectedNextPc) == op.executionCycles + Refill(op, r.cpu.r[15])
  }

  lemma StackRetires(code: Code, src: TraceSource, op: TraceOp, c: CpuState, m: Memory, bus: Bus, dynamic: bool)
    requires Coded(code, src, op) && AtOp(op, c) && IsStack(op.decoded)
    requires Effective(StackOp(op, c, m, bus, dynamic))
    ensures OpAgrees(code, op, c, m, StackOp(op, c, m, bus, dynamic))
  {
    hide StackDecoded, StackListValid, StackOp, Words.Add, Entered, Execute, Step, BasePipelineCycles,
      TakenBranchPenalty, ValidateSource, DecoderShaped, PopsToken, EdgeValid, Ready, RecordedCycles, SafeCore, PopsPc,
      BlankNative;
    SourceKinds(src, op);
    StackEdge(src, op);
    StackRecorded(op);
    SafeFrom(op, c);
    assert op.decoded.condition == AL by { StackAlways(op.decoded); }
    StepExecutes(code, op, c, m);
    if op.decoded.kind == Push {
      PushRetires(op, c, m, bus, dynamic);
      assert !PopsToken(op.decoded, c, m) by { PushPopsNothing(op.decoded, c, m); }
    } else {
      PopRetires(op, c, m, bus, dynamic);
    }
  }

  lemma SafeFrom(op: TraceOp, c: CpuState)
    requires AtOp(op, c)
    ensures SafeCore(c) && c.r[15] == op.pc
  {
  }

  lemma StackRecorded(op: TraceOp)
    requires IsStack(op.decoded)
    requires if PopsPc(op.decoded) then op.expectedTaken
             else !op.expectedTaken && op.expectedNextPc == Words.Add(op.pc, op.size)
    ensures RecordedCycles(op) == BasePipelineCycles(op.decoded) + Refill(op, op.expectedNextPc)
    ensures PopsPc(op.decoded) == (op.decoded.kind == Pop && op.decoded.registerList[15])
  {
    hide BasePipelineCycles, TakenBranchPenalty, Words.Add;
  }

  lemma StackAlways(d: Decoded)
    requires StackDecoded(d)
    ensures d.condition == AL
  {
  }

  lemma PushPopsNothing(d: Decoded, c: CpuState, m: Memory)
    requires d.kind != Pop
    ensures !PopsToken(d, c, m)
  {
  }

  lemma StackEdge(src: TraceSource, op: TraceOp)
    requires EdgeValid(src, op.native) && op.native == BlankNative() && src.decoded == op.decoded
    requires src.pc == op.pc && src.size == op.size
    requires src.expectedNextPc == op.expectedNextPc && src.expectedTaken == op.expectedTaken
    ensures op.native.kind == Integer && op.native.integer.op == OpNop
    ensures if PopsPc(op.decoded) then op.expectedTaken
            else !op.expectedTaken && op.expectedNextPc == Words.Add(op.pc, op.size)
  {
    hide Words.Add, ClearBit0, Wrap;
  }

  lemma MemoryRetires(code: Code, src: TraceSource, op: TraceOp, c: CpuState, m: Memory, bus: Bus, cycles: nat)
    requires Coded(code, src, op) && AtOp(op, c) && IsTransfer(op.decoded.kind) && RamBus(bus)
    requires MemoryStep(op, c, m, bus, cycles).Retired?
    ensures OpAgrees(code, op, c, m, MemoryStep(op, c, m, bus, cycles))
  {
    hide Words.Add, Entered, Execute, Step, BasePipelineCycles, TakenBranchPenalty,
      ValidateSource, DecoderShaped, InItBlock, PopsToken, EdgeValid, RamBus, LowerMemory, MemoryStep, IsTransfer;
    var s := MicroSource(op.decoded, op.pc, op.size);
    TransferKind(op.decoded.kind);
    SourceKinds(src, op);
    LoweredMemory(s, op.native, c);
    MemoryEdge(src, op);
    MemoryExecutes(op, s, c, m, bus, cycles);
    StepExecutes(code, op, c, m);
    PushPopsNothing(op.decoded, c, m);
    MemoryKeeps(op, c, m, bus, cycles);
  }

  lemma TransferKind(kind: InstrKind)
    requires IsTransfer(kind)
    ensures kind !in {Push, Pop, Bx, Blx, It} && !IsControlFlow(kind) && !IsDivide(kind)
    ensures MemoryOp(kind) != BxLr && MemoryOp(kind) != BlxReg && IsMemory(MemoryOp(kind))
  {
  }

  lemma MemoryKeeps(op: TraceOp, c: CpuState, m: Memory, bus: Bus, cycles: nat)
    requires SafeCore(c) && MemoryStep(op, c, m, bus, cycles).Retired?
    ensures SafeCore(MemoryStep(op, c, m, bus, cycles).cpu)
    ensures MemoryStep(op, c, m, bus, cycles).cpu.r[15] == op.expectedNextPc
  {
    hide InItBlock, MemoryAddress, SignedLoad, WidthOf;
  }

  lemma MemoryEdge(src: TraceSource, op: TraceOp)
    requires EdgeValid(src, op.native) && IsMemory(op.native.kind) && op.native.integer.op == OpNop
    requires src.decoded == op.decoded && op.decoded.kind != Pop && src.pc == op.pc && src.size == op.size
    requires src.expectedNextPc == op.expectedNextPc && src.expectedTaken == op.expectedTaken
    ensures !op.expectedTaken && op.expectedNextPc == Words.Add(op.pc, op.size)
  {
    hide Words.Add, ClearBit0, Wrap;
  }

  lemma ExchangeRetires(code: Code, src: TraceSource, op: TraceOp, c: CpuState, m: Memory)
    requires Coded(code, src, op) && AtOp(op, c) && (op.decoded.kind == Bx || op.decoded.kind == Blx)
    requires GuardHolds(op, c)
    ensures OpAgrees(code, op, c, m, Retired(PlainOp(op, c), m, false))
    ensures op.native.kind == BxLr || op.native.kind == BlxReg
  {
    hide Words.Add, Entered, Execute, Step, BasePipelineCycles, TakenBranchPenalty, SetBit0, ValidateSource,
      DecoderShaped, InItBlock, PopsToken, EdgeValid, PlainOp, GuardHolds, LowerBx, LowerBlx, ExtendedToken;
    SourceKinds(src, op);
    ExchangeLowered(src, op);
    StepExecutes(code, op, c, m);
    PushPopsNothing(op.decoded, c, m);
    PlainKeeps(op, c);
    if op.decoded.kind == Bx {
      BxExecutes(op, src.canonical, c, m);
    } else {
      BlxExecutes(op, src.canonical, c, m);
    }
  }

  lemma ExchangeLowered(src: TraceSource, op: TraceOp)
    requires EdgeValid(src, op.native) && src.expectedNextPc == op.expectedNextPc
             && src.expectedTaken == op.expectedTaken
    requires op.decoded.kind == Bx ==> LowerBx(op.decoded, src.canonical) == Accepted(op.native)
    requires op.decoded.kind == Blx ==> LowerBlx(op.decoded, src.canonical) == Accepted(op.native)
    requires op.decoded.kind == Bx || op.decoded.kind == Blx
    ensures op.native.kind == if op.decoded.kind == Bx then BxLr else BlxReg
    ensures op.decoded.condition == AL && op.expectedTaken && op.expectedNextPc % 2 == 0
  {
    hide Words.Add, ClearBit0, Wrap;
  }

  lemma PlainKeeps(op: TraceOp, c: CpuState)
    requires SafeCore(c) && (op.native.kind == BxLr || op.native.kind == BlxReg)
    ensures SafeCore(PlainOp(op, c))
    ensures PlainOp(op, c).r[15] == op.expectedNextPc
  {
    hide InItBlock, Words.Add, SetBit0, MicroStep, Publish;
  }

  lemma IntegerOpRetires(code: Code, src: TraceSource, op: TraceOp, c: CpuState, m: Memory)
    requires Coded(code, src, op) && AtOp(op, c) && GuardHolds(op, c)
    requires op.decoded.kind != Bx && op.decoded.kind != Blx && !IsStack(op.decoded) && !IsTransfer(op.decoded.kind)
    ensures OpAgrees(code, op, c, m, Retired(PlainOp(op, c), m, false))
    ensures op.native.kind == Integer
  {
    hide Words.Add, Retire, Step, ValidateSource, DecoderShaped, InItBlock, PopsToken, EdgeValid, PlainOp, GuardHolds,
      LoweredCycles, BlankNative, Lower, Taken, View, RecordedCycles, Refill, IsTransfer;
    SourceKinds(src, op);
    assert op.native.kind == Integer by { BlankIsInteger(); }
    StepAt(code, op.decoded, op.size, c, m);
    IntegerRetires(src, op, c, m);
    PushPopsNothing(op.decoded, c, m);
    IntegerKeeps(op, c);
    IntegerCycles(src, op, c);
  }

  lemma BlankIsInteger()
    ensures BlankNative().kind == Integer && BlankNative().integer.op == OpNop
  {
  }

  lemma IntegerKeeps(op: TraceOp, c: CpuState)
    requires SafeCore(c) && op.native.kind == Integer
    ensures SafeCore(PlainOp(op, c)) && PlainOp(op, c).r[15] == op.expectedNextPc
  {
    hide InItBlock, Words.Add, SetBit0, MicroStep, View;
    StepKeepsThumb(op.native.integer, View(c));
    assert View(c).psr == c.psr by { ReadCore(c, 0, 0); }
  }

  /** The recorded cycles are the pipeline cycles of the way the guard lets through. */
  lemma IntegerCycles(src: TraceSource, op: TraceOp, c: CpuState)
    requires Lower(MicroSource(op.decoded, op.pc, op.size)) == Accepted(op.native.integer) && op.native.kind == Integer
    requires DecoderShaped(op.decoded) && c.r[15] == op.pc && src.decoded == op.decoded
    requires EdgeValid(src, op.native) && src.pc == op.pc && src.size == op.size
    requires src.expectedNextPc == op.expectedNextPc && src.expectedTaken == op.expectedTaken
    requires Taken(op.native.integer, View(c)) == op.expectedTaken
    ensures LoweredCycles(op.decoded, op.size, c, op.expectedNextPc) == RecordedCycles(op)
  {
    hide Lower, LowerBranch, LowerCompareBranch, BlankInst, Taken, View, EdgeValid, ConditionPasses, Words.Add,
      DecoderShaped, TakenBranchPenalty, BasePipelineCycles, OpTarget;
    var d, inst := op.decoded, op.native.integer;
    var s := MicroSource(d, op.pc, op.size);
    LowerGate(s, inst);
    LowerControl(s, inst);
    LoweredAt(s, inst);
    AlwaysPasses(c.psr);
    assert View(c).psr == c.psr by { ReadCore(c, 0, 0); }
    assert d.kind != Pop && d.kind != Bx && d.kind != Blx by { NotPop(d.kind); }
    EdgeIsTarget(src, op.native);
    if d.kind == B || d.kind == Bl {
      LoweredBranch(s, inst);
      BranchTakes(inst, View(c));
      AlwaysLinks(d);
    } else if d.kind == Cbz || d.kind == Cbnz {
      CompareBranchBase(d);
    } else {
      NoCompareBranch(s, inst, c);
    }
  }

  lemma AlwaysLinks(d: Decoded)
    requires DecoderShaped(d)
    ensures d.kind == Bl ==> d.condition == AL
  {
  }

  lemma CompareBranchBase(d: Decoded)
    requires d.kind == Cbz || d.kind == Cbnz
    ensures BasePipelineCycles(d) == 1
  {
  }

  /** Whatever an op of a valid trace does once its guard holds, the checked step does, on every
      register, flag, byte and cycle, unless it returns through an extended token. */
  lemma OpRetires(
    code: Code, src: TraceSource, op: TraceOp, c: CpuState, m: Memory, bus: Bus, cycles: nat, dynamic: bool)
    requires Coded(code, src, op) && AtOp(op, c) && RamBus(bus) && GuardHolds(op, c)
    requires Effective(OpEffect(op, c, m, bus, cycles, dynamic))
    ensures OpAgrees(code, op, c, m, OpEffect(op, c, m, bus, cycles, dynamic))
  {
    hide Coded, RamBus, GuardHolds, StackOp, MemoryStep, PlainOp, OpAgrees, AtOp, IsTransfer;
    if IsStack(op.decoded) {
      StackRetires(code, src, op, c, m, bus, dynamic);
    } else if IsTransfer(op.decoded.kind) {
      assert IsMemory(op.native.kind) by { MemoryLowered(code, src, op, c); }
      MemoryNeverReturns(op, c, m, bus, cycles);
      MemoryRetires(code, src, op, c, m, bus, cycles);
    } else if op.decoded.kind == Bx || op.decoded.kind == Blx {
      ExchangeRetires(code, src, op, c, m);
    } else {
      IntegerOpRetires(code, src, op, c, m);
    }
  }

  lemma MemoryNeverReturns(op: TraceOp, c: CpuState, m: Memory, bus: Bus, cycles: nat)
    ensures !MemoryStep(op, c, m, bus, cycles).ReturnedElsewhere?
  {
  }

  lemma MemoryLowered(code: Code, src: TraceSource, op: TraceOp, c: CpuState)
    requires Coded(code, src, op) && IsTransfer(op.decoded.kind) && AtOp(op, c)
    ensures IsMemory(op.native.kind)
  {
    hide ValidateSource, LowerMemory, DecoderShaped, StackDecoded, RecordedCycles, IsTransfer;
    TransferKind(op.decoded.kind);
    SourceKinds(src, op);
    LoweredMemory(MicroSource(op.decoded, op.pc, op.size), op.native, c);
  }

  // ---------------------------------------------------------------- runs

  /** None of the next `n` ops from op `i` returns through an extended token. */
  predicate TokenFree(code: Code, ops: seq<TraceOp>, i: nat, c: CpuState, m: Memory, n: nat)
    requires i + n <= |ops|
    decreases n
  {
    n == 0
    || (!ReturnsToken(ops[i], c, m) && TokenFree(code, ops, i + 1, Step(code, c, m).cpu, Step(code, c, m).mem, n - 1))
  }

  function OpEnd(op: TraceOp): Word {
    Words.Add(op.pc, op.size)
  }

  /** Recorded execution cycles and fetch stalls of the next `n` ops from op `i`. */
  function TraceCharge(ops: seq<TraceOp>, stall: StallFn, f: Fetch, i: nat, n: nat): nat
    requires i + n <= |ops|
    decreases n
  {
    if n == 0 then 0
    else ops[i].executionCycles + stall(ops[i].pc, Sequential(f, ops[i].pc))
         + TraceCharge(ops, stall, Fetch(true, OpEnd(ops[i])), i + 1, n - 1)
  }

  function TraceFetch(ops: seq<TraceOp>, f: Fetch, i: nat, n: nat): Fetch
    requires i + n <= |ops|
  {
    if n == 0 then f else Fetch(true, OpEnd(ops[i + n - 1]))
  }

  /** Op by op the trace records `code`, and each edge reaches the next op. */
  predicate CodedTrace(code: Code, sources: seq<TraceSource>, ops: seq<TraceOp>) {
    && |sources| == |ops|
    && (forall i | 0 <= i < |ops| :: Coded(code, sources[i], ops[i]))
    && (forall i | 0 < i < |ops| :: ops[i].pc == ops[i - 1].expectedNextPc)
  }

  function HelperCycles(p: Params, admitted: bool, i: nat, s: Progress): nat
    requires i < |p.ops|
    requires admitted ==> p.prefix.Some? && i < |p.prefix.value|
  {
    if admitted && IsMemory(p.ops[i].native.kind) then p.prefix.value[i] else s.cycles
  }

  /** One pass either leaves the core and memory alone and ends the loop, or retires one op. */
  lemma IterateShape(p: Params, admitted: bool, i: nat, s: Progress)
    requires i < |p.ops| && s.retired == i
    requires admitted ==> p.prefix.Some? && p.instructionLimit < |p.prefix.value| && i <= p.instructionLimit
    ensures
      var (s1, more) := Iterate(p, admitted, i, s);
      var r := OpEffect(p.ops[i], s.cpu, s.mem, p.bus, HelperCycles(p, admitted, i, s), p.allowDynamic);
      || (!more && s1.cpu == s.cpu && s1.mem == s.mem && s1.retired == i && s1.exit != DynamicReturn)
      || (&& GuardHolds(p.ops[i], s.cpu) && Effective(r) && s1.cpu == r.cpu && s1.mem == r.mem && s1.retired == i + 1
          && more == r.Retired? && s1.exit == if more then s.exit else DynamicReturn)
  {
    hide OpEffect, GuardHolds;
  }

  /** The state after `n` checked steps is what the loop left, charged as recorded except for the
      refill of a return that went elsewhere. */
  predicate RunAgrees(
    code: Code, stall: StallFn, ops: seq<TraceOp>, i: nat, c: CpuState, m: Memory, f: Fetch, n: nat, r: Progress)
    requires i + n <= |ops|
  {
    match ChargedSteps(code, stall, c, m, f, n)
    case None => false
    case Some(ch) =>
      && ch.cpu == r.cpu && ch.mem == r.mem && ch.fetch == TraceFetch(ops, f, i, n)
      && (n == 0 ==> ch.total == 0)
      && (n > 0 ==>
            var last := ops[i + n - 1];
            && ch.total + Refill(last, last.expectedNextPc)
               == TraceCharge(ops, stall, f, i, n) + Refill(last, r.cpu.r[15])
            && (r.exit != DynamicReturn ==> r.cpu.r[15] == last.expectedNextPc)
            && (r.exit == DynamicReturn ==> PopsPc(last.decoded)))
  }

  lemma RunAgreesCons(
    code: Code, stall: StallFn, ops: seq<TraceOp>, i: nat, c: CpuState, m: Memory, f: Fetch, n: nat, r: Progress)
    requires i + n + 1 <= |ops| && c.r[15] == ops[i].pc
    requires Step(code, c, m).stop == StepComplete && FetchedSize(code, ops[i].pc) == ops[i].size
    requires
      var st := Step(code, c, m);
      && RunAgrees(code, stall, ops, i + 1, st.cpu, st.mem, Fetch(true, OpEnd(ops[i])), n, r)
      && (n == 0 ==>
            && (r.exit != DynamicReturn ==> st.cpu.r[15] == ops[i].expectedNextPc)
            && (r.exit == DynamicReturn ==> PopsPc(ops[i].decoded)))
      && (n > 0 ==> st.cycles == ops[i].executionCycles)
      && (n == 0 ==>
            st.cycles + Refill(ops[i], ops[i].expectedNextPc) == ops[i].executionCycles + Refill(ops[i], st.cpu.r[15]))
    ensures RunAgrees(code, stall, ops, i, c, m, f, n + 1, r)
  {
    hide Step, Refill, FetchedSize, Words.Add;
    var st := Step(code, c, m);
    var f1 := Fetch(true, OpEnd(ops[i]));
    assert ChargedSteps(code, stall, c, m, f, n + 1).Some?;
    assert TraceCharge(ops, stall, f, i, n + 1)
      == ops[i].executionCycles + stall(ops[i].pc, Sequential(f, ops[i].pc)) + TraceCharge(ops, stall, f1, i + 1, n);
    if n == 0 { assert TraceCharge(ops, stall, f1, i + 1, 0) == 0; }
  }

  /** Trace refinement, loop form, for every exit: the core, memory, fetch state and charge after
      the loop are those of as many checked steps. */
  lemma {:induction false} LoopRefines(
    code: Code, stall: StallFn, sources: seq<TraceSource>, p: Params, admitted: bool, i: nat, s: Progress, f: Fetch)
    requires CodedTrace(code, sources, p.ops) && RamBus(p.bus)
    requires i <= |p.ops| && s.retired == i && s.exit == NoExit
    requires admitted ==> p.prefix.Some? && p.instructionLimit < |p.prefix.value| && i <= p.instructionLimit
    requires SafeCore(s.cpu) && (i < |p.ops| ==> s.cpu.r[15] == p.ops[i].pc)
    ensures
      var r := Loop(p, admitted, i, s);
      && SafeCore(r.cpu) && (r.retired == i ==> r.exit != DynamicReturn)
      && (TokenFree(code, p.ops, i, s.cpu, s.mem, r.retired - i) ==>
            RunAgrees(code, stall, p.ops, i, s.cpu, s.mem, f, r.retired - i, r))
    decreases |p.ops| - i
  {
    hide Step, Refill, FetchedSize, Words.Add, RamBus, Coded, OpEffect, GuardHolds, Iterate, SafeCore, ReturnsToken,
      RunAgrees, ChargedSteps, TraceCharge;
    var r := Loop(p, admitted, i, s);
    if i == |p.ops| {
      NothingAgrees(code, stall, p.ops, i, s.cpu, s.mem, f, r);
    } else {
      var (s1, more) := Iterate(p, admitted, i, s);
      IterateShape(p, admitted, i, s);
      var op := p.ops[i];
      if s1.retired == i {
        NothingAgrees(code, stall, p.ops, i, s.cpu, s.mem, f, r);
      } else {
        OpOfLoop(code, sources, p, i, s, HelperCycles(p, admitted, i, s), s1, more);
        if more {
          LoopRefines(code, stall, sources, p, admitted, i + 1, s1, Fetch(true, OpEnd(op)));
        } else {
          NothingAgrees(code, stall, p.ops, i + 1, s1.cpu, s1.mem, Fetch(true, OpEnd(op)), s1);
        }
        var n := r.retired - i - 1;
        if !ReturnsToken(op, s.cpu, s.mem) && TokenFree(code, p.ops, i + 1, s1.cpu, s1.mem, n) {
          StopsHere(code, stall, p.ops, i + 1, s1.cpu, s1.mem, Fetch(true, OpEnd(op)), n, r);
          RunAgreesCons(code, stall, p.ops, i, s.cpu, s.mem, f, n, r);
        }
      }
    }
  }

  /** The checked step behind one retired op of the loop. */
  lemma OpOfLoop(
    code: Code, sources: seq<TraceSource>, p: Params, i: nat, s: Progress, helper: nat, s1: Progress, more: bool)
    requires CodedTrace(code, sources, p.ops) && RamBus(p.bus) && i < |p.ops|
    requires SafeCore(s.cpu) && s.cpu.r[15] == p.ops[i].pc && GuardHolds(p.ops[i], s.cpu)
    requires
      var r := OpEffect(p.ops[i], s.cpu, s.mem, p.bus, helper, p.allowDynamic);
      Effective(r) && s1.cpu == r.cpu && s1.mem == r.mem && more == r.Retired?
    ensures
      var op, st := p.ops[i], Step(code, s.cpu, s.mem);
      && st.stop == StepComplete && SafeCore(s1.cpu) && FetchedSize(code, op.pc) == op.size
      && (more ==> s1.cpu.r[15] == op.expectedNextPc && (i + 1 < |p.ops| ==> s1.cpu.r[15] == p.ops[i + 1].pc))
      && (!more ==> PopsPc(op.decoded))
      && if ReturnsToken(op, s.cpu, s.mem) then st.cpu.pendingExcReturn.Some?
         else
           && st.cpu == s1.cpu && st.mem == s1.mem
           && st.cycles + Refill(op, op.expectedNextPc) == op.executionCycles + Refill(op, s1.cpu.r[15])
  {
    hide Step, Refill, FetchedSize, Words.Add, RamBus, Coded, OpEffect, GuardHolds, SafeCore, ReturnsToken;
    var op := p.ops[i];
    assert Coded(code, sources[i], op);
    SafeAt(op, s.cpu);
    OpRetires(code, sources[i], op, s.cpu, s.mem, p.bus, helper, p.allowDynamic);
    CodedSize(code, sources[i], op);
  }

  lemma SafeAt(op: TraceOp, c: CpuState)
    requires SafeCore(c) && c.r[15] == op.pc
    ensures AtOp(op, c)
  {
  }

  lemma CodedSize(code: Code, src: TraceSource, op: TraceOp)
    requires Coded(code, src, op)
    ensures FetchedSize(code, op.pc) == op.size
  {
  }

  lemma NothingAgrees(
    code: Code, stall: StallFn, ops: seq<TraceOp>, i: nat, c: CpuState, m: Memory, f: Fetch, r: Progress)
    requires i <= |ops| && r.cpu == c && r.mem == m
    ensures RunAgrees(code, stall, ops, i, c, m, f, 0, r)
  {
  }

  lemma StopsHere(
    code: Code, stall: StallFn, ops: seq<TraceOp>, i: nat, c: CpuState, m: Memory, f: Fetch, n: nat, r: Progress)
    requires i + n <= |ops| && RunAgrees(code, stall, ops, i, c, m, f, n, r)
    ensures n == 0 ==> r.cpu == c && r.mem == m
  {
  }

  // ---------------------------------------------------------------- a token is never forgotten

  predicate Pends(c: CpuState) {
    c.pendingExcReturn.Some?
  }

  lemma WritesKeepPending(c: CpuState, i: nat, v: Word)
    ensures WriteRegister(c, i, v).pendingExcReturn == c.pendingExcReturn
    ensures BranchWritePc(c, v).pendingExcReturn == c.pendingExcReturn
  {
    hide ClearBit0;
  }

  lemma {:induction false} LoadedKeepsPending(c: CpuState, list: RegList, reg: nat, loaded: Regs)
    requires reg <= 15
    ensures CommitLoaded(c, list, reg, loaded).pendingExcReturn == c.pendingExcReturn
    decreases 15 - reg
  {
    hide WriteRegister;
    if reg < 15 {
      WritesKeepPending(c, reg, loaded[reg]);
      LoadedKeepsPending(if list[reg] then WriteRegister(c, reg, loaded[reg]) else c, list, reg + 1, loaded);
    }
  }

  lemma AluKeepsPending(e: Alu, c: CpuState)
    ensures ApplyAlu(e, c).pendingExcReturn == c.pendingExcReturn
  {
    hide WriteRegister;
    if e.dest.Some? { WritesKeepPending(c, e.dest.value, e.value); }
  }

  lemma TransfersKeepPending(d: Decoded, c: CpuState, m: Memory)
    requires Pends(c)
    ensures Pends(ExecLoad(d, c, m).cpu) && Pends(ExecStore(d, c, m).cpu)
  {
    hide ClearBit0, Load, Store, TransferAddress, OffsetAddress, LoadedValue, IsExceptionReturn,
      AccessWidth, ReadRegister;
  }

  lemma MultipleKeepsPending(d: Decoded, c: CpuState, m: Memory)
    requires Pends(c)
    ensures Pends(ExecMultiple(d, c, m).cpu)
  {
    hide ClearBit0, LoadMultiple, StoreMultiple, CommitLoaded, IsExceptionReturn, ReadRegister, Words.Sub,
      Words.Add, Count;
    forall loaded: Regs
      ensures CommitLoaded(c, d.registerList, 0, loaded).pendingExcReturn == c.pendingExcReturn
    {
      LoadedKeepsPending(c, d.registerList, 0, loaded);
    }
  }

  lemma MovKeepsPending(d: Decoded, c: CpuState, m: Memory)
    requires Pends(c)
    ensures Pends(ExecMov(d, c, m).cpu)
  {
    hide BranchWritePc, MovAlu, ApplyAlu;
    var e := MovAlu(d, c);
    AluKeepsPending(e, c);
    WritesKeepPending(c, 0, e.value);
  }

  lemma BranchesKeepPending(d: Decoded, c: CpuState, m: Memory)
    requires Pends(c)
    ensures Pends(ExecBranchExchange(d, c, m).cpu) && Pends(ExecCompareBranch(d, c))
  {
    hide IsExceptionReturn, ReadRegister, SetBit0, ClearBit0, Words.Add;
  }

  lemma MathKeepsPending(op: MathKind, d: Decoded, c: CpuState)
    ensures ExecMath(op, d, c).pendingExcReturn == c.pendingExcReturn
  {
    hide WriteRegister, ReadRegister, LowProduct, Accumulate, LongProduct, LowHalf, HighHalf, UnsignedQuotient,
      SignedQuotient, SingleValue, ClearField, LaneSums, LaneCarries, LaneSelect, SetNz;
    forall b: CpuState, i: nat, v: Word
      ensures WriteRegister(b, i, v).pendingExcReturn == b.pendingExcReturn
    {
      WritesKeepPending(b, i, v);
    }
  }

  lemma DoubleKeepsPending(load: bool, d: Decoded, c: CpuState, m: Memory)
    ensures ExecDouble(load, d, c, m).cpu.pendingExcReturn == c.pendingExcReturn
  {
    hide WriteRegister, ReadRegister, Load, Store, DoubleOffset, DoubleAddress, Words.Add;
    forall b: CpuState, i: nat, v: Word
      ensures WriteRegister(b, i, v).pendingExcReturn == b.pendingExcReturn
    {
      WritesKeepPending(b, i, v);
    }
  }

  lemma ExecuteKeepsPending(d: Decoded, c: CpuState, m: Memory)
    requires Pends(c)
    ensures Pends(Execute(d, c, m).cpu)
  {
    hide ExecMov, ExecLoad, ExecStore, ExecMultiple, ExecBranchExchange, ExecCompareBranch, ApplyAlu, AluOf, InItBlock,
      SetBit0, BranchTarget, ExecMath, ExecDouble;
    if d.kind.Math? { MathKeepsPending(d.kind.op, d, c); }
    if d.kind.Double? { DoubleKeepsPending(d.kind.load, d, c, m); }
    AluKeepsPending(AluOf(d, c), c);
    MovKeepsPending(d, c, m);
    TransfersKeepPending(d, c, m);
    MultipleKeepsPending(d, c, m);
    BranchesKeepPending(d, c, m);
  }

  lemma StepKeepsPending(code: Code, c: CpuState, m: Memory)
    requires Pends(c)
    ensures Pends(Step(code, c, m).cpu)
  {
    hide Execute, ConditionPasses, InItBlock, AdvanceItState, BasePipelineCycles, EffectiveCondition,
      TakenBranchPenalty, SuppressFlagsInIt, Words.Add;
    if c.r[15] in code {
      var d, size := code[c.r[15]].decoded, code[c.r[15]].size;
      ExecuteKeepsPending(d, Entered(c, size), m);
      ExecuteKeepsPending(d.(setFlags := false), Entered(c, size), m);
    }
  }

  lemma {:induction false} ChargedKeepsPending(
    code: Code, stall: StallFn, c: CpuState, m: Memory, f: Fetch, n: nat)
    requires Pends(c) && ChargedSteps(code, stall, c, m, f, n).Some?
    ensures Pends(ChargedSteps(code, stall, c, m, f, n).value.cpu)
    decreases n
  {
    hide Step;
    if n > 0 {
      var st := Step(code, c, m);
      StepKeepsPending(code, c, m);
      ChargedKeepsPending(code, stall, st.cpu, st.mem, Fetch(true, Words.Add(c.r[15], FetchedSize(code, c.r[15]))),
        n - 1);
    }
  }

  /** Checked execution past a token differs from the trace for good. */
  lemma {:induction false} LoopTokens(
    code: Code, stall: StallFn, sources: seq<TraceSource>, p: Params, admitted: bool, i: nat, s: Progress, f: Fetch)
    requires CodedTrace(code, sources, p.ops) && RamBus(p.bus)
    requires i <= |p.ops| && s.retired == i
    requires admitted ==> p.prefix.Some? && p.instructionLimit < |p.prefix.value| && i <= p.instructionLimit
    requires SafeCore(s.cpu) && (i < |p.ops| ==> s.cpu.r[15] == p.ops[i].pc)
    ensures
      var r := Loop(p, admitted, i, s);
      var ch := ChargedSteps(code, stall, s.cpu, s.mem, f, r.retired - i);
      !TokenFree(code, p.ops, i, s.cpu, s.mem, r.retired - i) && ch.Some? ==> Pends(ch.value.cpu)
    decreases |p.ops| - i
  {
    hide Step, Refill, FetchedSize, Words.Add, RamBus, Coded, OpEffect, GuardHolds, Iterate, SafeCore, ReturnsToken,
      TraceCharge;
    if i < |p.ops| {
      var r := Loop(p, admitted, i, s);
      var (s1, more) := Iterate(p, admitted, i, s);
      IterateShape(p, admitted, i, s);
      if s1.retired != i {
        var n, f1 := r.retired - i - 1, Fetch(true, Words.Add(s.cpu.r[15], FetchedSize(code, s.cpu.r[15])));
        OpOfLoop(code, sources, p, i, s, HelperCycles(p, admitted, i, s), s1, more);
        if ReturnsToken(p.ops[i], s.cpu, s.mem) {
          var st := Step(code, s.cpu, s.mem);
          if ChargedSteps(code, stall, st.cpu, st.mem, f1, n).Some? {
            ChargedKeepsPending(code, stall, st.cpu, st.mem, f1, n);
          }
        } else if more {
          LoopTokens(code, stall, sources, p, admitted, i + 1, s1, f1);
        } else {
          assert TokenFree(code, p.ops, i + 1, s1.cpu, s1.mem, 0);
        }
      }
    }
  }

  /** Trace refinement. From every core the dispatcher admits, under every limit, charge table,
      helper pattern and exit, the trace leaves exactly what as many checked steps leave, if and
      only if none of the retired ops returned through the token of an extended frame. */
  lemma TraceRefines(code: Code, stall: StallFn, sources: seq<TraceSource>, p: Params, s: Progress, f: Fetch)
    requires CodedTrace(code, sources, p.ops) && RamBus(p.bus)
    requires SafeCore(s.cpu) && (p.ops != [] ==> s.cpu.r[15] == p.ops[0].pc)
    ensures
      var r := Run(p, s);
      && r.retired <= |p.ops|
      && (RunAgrees(code, stall, p.ops, 0, s.cpu, s.mem, f, r.retired, r)
          <==> TokenFree(code, p.ops, 0, s.cpu, s.mem, r.retired))
  {
    hide Step, Refill, FetchedSize, Words.Add, RamBus, CodedTrace, Iterate, Loop, TokenFree, TraceCharge, ChargedSteps,
      PrefixValid, Ready;
    var admitted := PrefixValid(p, s.cycles);
    if admitted { PrefixHasRoom(p, s.cycles); }
    var s0 := s.(retired := 0, exit := NoExit);
    LoopRefines(code, stall, sources, p, admitted, 0, s0, f);
    LoopTokens(code, stall, sources, p, admitted, 0, s0, f);
    assert !Pends(Loop(p, admitted, 0, s0).cpu);
  }

  // ---------------------------------------------------------------- admitted mode

  /** The prefix table holds the running sums of the charge table. */
  predicate RunningSums(p: Params) {
    && p.prefix.Some? && p.instructionLimit <= |p.charged| && p.instructionLimit < |p.prefix.value|
    && forall i | 0 <= i < p.instructionLimit :: p.prefix.value[i + 1] == p.prefix.value[i] + p.charged[i]
  }

  lemma {:induction false} PrefixGrows(p: Params, i: nat, j: nat)
    requires RunningSums(p) && i <= j <= p.instructionLimit
    ensures p.prefix.value[i] <= p.prefix.value[j]
    decreases j - i
  {
    if i < j {
      assert p.prefix.value[i + 1] == p.prefix.value[i] + p.charged[i];
      PrefixGrows(p, i + 1, j);
    }
  }

  /** Only memory helpers observe the cycle count. */
  lemma CyclesUnobserved(op: TraceOp, c: CpuState, m: Memory, bus: Bus, a: nat, b: nat, dynamic: bool)
    requires IsMemory(op.native.kind) ==> a == b
    ensures OpEffect(op, c, m, bus, a, dynamic) == OpEffect(op, c, m, bus, b, dynamic)
  {
    hide StackOp, MemoryStep, PlainOp;
  }

  /** One admitted pass and one checked pass. */
  lemma AdmittedPass(p: Params, i: nat, s: Progress)
    requires RunningSums(p) && p.prefix.value[p.instructionLimit] <= p.cycleLimit
    requires i < |p.ops| && s.retired == i <= p.instructionLimit
    ensures
      var (s1, more) := Iterate(p, true, i, s);
      var (t1, more1) := Iterate(p.(prefix := None), false, i, s.(cycles := p.prefix.value[i]));
      && more == more1 && (more ==> i < p.instructionLimit)
      && s1.retired == (if i < p.instructionLimit && s1.retired != i then i + 1 else i)
      && t1 == s1.(cycles := p.prefix.value[s1.retired])
      && (more ==> s1.retired == i + 1)
  {
    hide OpEffect, GuardHolds, IsMemory;
    if i < p.instructionLimit {
      assert p.prefix.value[i + 1] == p.prefix.value[i] + p.charged[i];
      PrefixGrows(p, i + 1, p.instructionLimit);
      var helper := if IsMemory(p.ops[i].native.kind) then p.prefix.value[i] else s.cycles;
      CyclesUnobserved(p.ops[i], s.cpu, s.mem, p.bus, helper, p.prefix.value[i], p.allowDynamic);
    }
  }

  lemma {:induction false} AdmittedLoop(p: Params, i: nat, s: Progress)
    requires RunningSums(p) && p.prefix.value[p.instructionLimit] <= p.cycleLimit
    requires i <= |p.ops| && s.retired == i <= p.instructionLimit
    ensures
      var r := Loop(p, true, i, s);
      Loop(p.(prefix := None), false, i, s.(cycles := p.prefix.value[i])) == r.(cycles := p.prefix.value[r.retired])
    decreases |p.ops| - i
  {
    hide Iterate;
    if i < |p.ops| {
      AdmittedPass(p, i, s);
      var (s1, more) := Iterate(p, true, i, s);
      if more { AdmittedLoop(p, i + 1, s1); }
    }
  }

  /** Admitted mode refines checked mode: with a valid table of running sums, skipping every
      per-op probe changes neither the state, nor the counts, nor the exit, nor the cycle count
      any helper observes. The helpers are arbitrary. */
  lemma AdmittedIsChecked(p: Params, s: Progress)
    requires RunningSums(p) && PrefixValid(p, s.cycles)
    ensures Run(p, s) == Run(p.(prefix := None), s)
  {
    hide Loop;
    AdmittedLoop(p, 0, s.(retired := 0, exit := NoExit));
  }
}
