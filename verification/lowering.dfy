/** Lowering is sound: one FilIR step is one checked step. */
module Lowering {
  import opened Words
  import opened Cpu
  import opened Micro

  /** What decoding guarantees beyond what lowering checks: BL is never predicated, and a
      shift carries the shift type of its opcode. */
  predicate DecoderShaped(d: Decoded) {
    && (d.kind == Bl ==> d.condition == AL)
    && (d.kind == InstrKind.Lsl ==> d.shiftType == ShiftType.Lsl)
    && (d.kind == InstrKind.Lsr ==> d.shiftType == ShiftType.Lsr)
    && (d.kind == InstrKind.Asr ==> d.shiftType == ShiftType.Asr)
    && (d.kind == InstrKind.Ror ==> d.shiftType == ShiftType.Ror)
    && (d.kind == InstrKind.Rrx ==> d.shiftType == ShiftType.Rrx)
  }

  /** The part of the core FilIR sees. */
  function View(c: CpuState): MicroCpu {
    MicroCpu(c.r[..13], c.r[14], c.r[15], c.psr)
  }

  /** Copying an interpreted core back after the instruction at `pc`. */
  function Publish(g: MicroCpu, c: CpuState, pc: Word): CpuState {
    c.(r := g.r + [c.r[13], g.lr, g.pc], psr := g.psr, instructionAddress := pc)
  }

  /** Outside an IT block an instruction whose condition passes is its executor arm. */
  lemma RetirePassed(d: Decoded, size: int, c: CpuState, m: Memory)
    requires !InItBlock(c.itState) && d.kind != It && !IsDivide(d.kind) && ConditionPasses(d.condition, c.psr)
    ensures
      var e := Execute(d, Entered(c, size), m);
      var refill := if e.stop == StepComplete && e.cpu.r[15] != Words.Add(c.r[15], size)
                    then TakenBranchPenalty(d.kind) else 0;
      Retire(d, size, c, m) == StepResult(e.cpu, e.mem, e.stop, BasePipelineCycles(d) + refill)
  {
    hide Execute, ConditionPasses, BasePipelineCycles, Entered;
  }

  /** Outside an IT block a failed condition retires in one cycle with no effect. */
  lemma RetireFailed(d: Decoded, size: int, c: CpuState, m: Memory)
    requires !InItBlock(c.itState) && d.kind != It && !ConditionPasses(d.condition, c.psr)
    ensures Retire(d, size, c, m) == StepResult(Entered(c, size), m, StepComplete, 1)
  {
    hide Execute, ConditionPasses, BasePipelineCycles, Entered;
  }

  /** A data op in state `g` is its effect and the sequential PC. */
  lemma PlainStep(inst: MicroInst, g: MicroCpu)
    requires !IsBranchOp(inst.op)
    ensures MicroStep(inst, g) == ApplyEffect(Effect(inst, g), g).(pc := OpSequential(inst))
    ensures !Taken(inst, g)
  {
    hide Effect, ApplyEffect, OpSequential, ReadOp, ConditionPasses;
  }

  /** A branch op goes to its target, linking for BL, or falls through. */
  lemma BranchStep(inst: MicroInst, g: MicroCpu)
    requires IsBranchOp(inst.op)
    ensures MicroStep(inst, g) ==
            if !Taken(inst, g) then g.(pc := OpSequential(inst))
            else if inst.op == OpBl then g.(lr := SetBit0(OpSequential(inst)), pc := OpTarget(inst))
            else g.(pc := OpTarget(inst))
  {
    hide Taken, OpTarget, OpSequential, SetBit0;
  }

  // Register plumbing between the two views.

  predicate CoreDest(e: Alu) {
    e.dest.Some? ==> CoreReg(e.dest.value)
  }

  lemma PublishEffect(e: Alu, c: CpuState, size: int)
    requires CoreDest(e)
    ensures
      Publish(ApplyEffect(e, View(c)).(pc := Words.Add(c.r[15], size)), c, c.r[15])
      == ApplyAlu(e, Entered(c, size))
  {
    hide Words.Add;
  }

  lemma PublishBranch(c: CpuState, size: int, lr: Word, pc: Word)
    ensures Publish(View(c).(lr := lr, pc := pc), c, c.r[15]) == WithPc(WithLr(Entered(c, size), lr), pc)
    ensures Publish(View(c).(pc := pc), c, c.r[15]) == WithPc(Entered(c, size), pc)
    ensures Publish(View(c).(pc := Words.Add(c.r[15], size)), c, c.r[15]) == Entered(c, size)
    ensures Entered(c, size).r[15] == Words.Add(c.r[15], size)
    ensures Entered(c, size).instructionAddress == c.r[15]
  {
    hide Words.Add;
  }

  lemma ReadCore(c: CpuState, size: int, reg: nat)
    requires CoreReg(reg)
    ensures ReadRegister(Entered(c, size), reg) == ReadOp(View(c), reg)
    ensures Entered(c, size).psr == c.psr == View(c).psr
  {
    hide Words.Add;
  }

  // The executor's effect and the lowered op's effect are the same, kind by kind.

  predicate SameEffect(s: MicroSource, inst: MicroInst, e: Alu, c: CpuState) {
    && e == Effect(inst, View(c)) && CoreDest(e) && !IsBranchOp(inst.op)
    && inst.pc == s.pc && inst.size == s.size
  }

  lemma MovEffect(s: MicroSource, inst: MicroInst, c: CpuState)
    requires LowerMov(s.decoded, BlankInst(s)) == Accepted(inst)
    ensures SameEffect(s, inst, MovAlu(s.decoded, Entered(c, s.size)), c)
    ensures s.decoded.rd != 15
  {
    hide NoList, Entered, View, ReadRegister, ReadOp, Negative;
    ReadCore(c, s.size, 0);
    if inst.op == MovReg { ReadCore(c, s.size, s.decoded.rm); }
  }

  lemma MovHalfEffect(s: MicroSource, inst: MicroInst, c: CpuState)
    requires s.decoded.kind == Movw || s.decoded.kind == Movt
    requires LowerMovHalf(s.decoded, BlankInst(s)) == Accepted(inst)
    ensures SameEffect(s, inst, MovHalfAlu(s.decoded, Entered(c, s.size)), c)
  {
    hide NoList, Entered, View, ReadRegister, ReadOp;
    ReadCore(c, s.size, s.decoded.rd);
  }

  lemma AddSubImmediate(s: MicroSource, inst: MicroInst, c: CpuState)
    requires (s.decoded.kind == InstrKind.Add || s.decoded.kind == InstrKind.Sub) && s.decoded.form == Immediate
    requires LowerAddSub(s.decoded, BlankInst(s)) == Accepted(inst)
    ensures SameEffect(s, inst, AddSubAlu(s.decoded, Entered(c, s.size)), c)
  {
    hide NoList, Entered, View, ReadRegister, ReadOp, AddWithCarry, ShiftC, Words.Not, AlignWord, ClearBit0, SetNzcv;
    ReadCore(c, s.size, s.decoded.rn);
  }

  lemma AddSubRegister(s: MicroSource, inst: MicroInst, c: CpuState)
    requires (s.decoded.kind == InstrKind.Add || s.decoded.kind == InstrKind.Sub) && s.decoded.form != Immediate
    requires LowerAddSub(s.decoded, BlankInst(s)) == Accepted(inst)
    ensures SameEffect(s, inst, AddSubAlu(s.decoded, Entered(c, s.size)), c)
  {
    hide NoList, Entered, View, ReadRegister, ReadOp, AddWithCarry, ShiftC, Words.Not, AlignWord, ClearBit0, SetNzcv;
    var d := s.decoded;
    ReadCore(c, s.size, d.rn);
    ReadCore(c, s.size, d.rm);
    ShiftByZero(ReadOp(View(c), d.rm), c.psr.c);
    assert ShiftedOperand(d, Entered(c, s.size)).value == ArithOperand(inst, View(c));
  }

  lemma AddSubEffect(s: MicroSource, inst: MicroInst, c: CpuState)
    requires s.decoded.kind == InstrKind.Add || s.decoded.kind == InstrKind.Sub
    requires LowerAddSub(s.decoded, BlankInst(s)) == Accepted(inst)
    ensures SameEffect(s, inst, AddSubAlu(s.decoded, Entered(c, s.size)), c)
  {
    hide LowerAddSub, BlankInst, SameEffect, AddSubAlu, Entered;
    if s.decoded.form == Immediate { AddSubImmediate(s, inst, c); } else { AddSubRegister(s, inst, c); }
  }

  lemma CompareEffect(s: MicroSource, inst: MicroInst, c: CpuState)
    requires s.decoded.kind == Cmp || s.decoded.kind == Cmn
    requires LowerCompare(s.decoded, BlankInst(s)) == Accepted(inst)
    ensures SameEffect(s, inst, CompareAlu(s.decoded, Entered(c, s.size)), c)
  {
    hide NoList, Entered, View, ReadRegister, ReadOp, AddWithCarry, ShiftC, Words.Not;
    var d := s.decoded;
    ReadCore(c, s.size, d.rn);
    if d.form != Immediate { ReadCore(c, s.size, d.rm); }
    assert ShiftedOperand(d, Entered(c, s.size)).value == ArithOperand(inst, View(c));
  }

  lemma TestEffect(s: MicroSource, inst: MicroInst, c: CpuState)
    requires LowerTst(s.decoded, BlankInst(s)) == Accepted(inst)
    ensures SameEffect(s, inst, TstAlu(s.decoded, Entered(c, s.size)), c)
  {
    hide NoList, Entered, View, ReadRegister, ReadOp, ShiftC, Words.And, Negative;
    ReadCore(c, s.size, s.decoded.rn);
    ReadCore(c, s.size, s.decoded.rm);
    ShiftByZero(ReadOp(View(c), s.decoded.rm), c.psr.c);
  }

  lemma LogicalEffect(s: MicroSource, inst: MicroInst, c: CpuState)
    requires s.decoded.kind == InstrKind.And || s.decoded.kind == Orr || s.decoded.kind == Eor || s.decoded.kind == Bic
    requires LowerLogic(s.decoded, BlankInst(s)) == Accepted(inst)
    ensures SameEffect(s, inst, LogicAlu(s.decoded, Entered(c, s.size)), c)
  {
    hide NoList, Entered, View, ReadRegister, ReadOp, ShiftC, Words.And, Words.Or, Words.Xor, Words.Not, Negative;
    var d := s.decoded;
    ReadCore(c, s.size, d.rn);
    ReadCore(c, s.size, d.rm);
    ShiftByZero(ReadOp(View(c), d.rm), c.psr.c);
  }

  lemma RrxIgnoresAmount(value: Word, a: nat, b: nat, carry: bool)
    ensures ShiftC(value, ShiftType.Rrx, a, carry) == ShiftC(value, ShiftType.Rrx, b, carry)
  {
  }

  lemma ShiftKind(d: Decoded)
    requires d.kind == InstrKind.Lsl || d.kind == InstrKind.Lsr || d.kind == InstrKind.Asr
             || d.kind == InstrKind.Ror || d.kind == InstrKind.Rrx
    requires DecoderShaped(d)
    ensures ShiftTypeOf(ShiftOp(d.kind)) == d.shiftType
    ensures d.kind == InstrKind.Rrx ==> d.shiftType == ShiftType.Rrx
    ensures ShiftOp(d.kind) == OpRrx <==> d.kind == InstrKind.Rrx
    ensures !IsBranchOp(ShiftOp(d.kind))
  {
  }

  lemma EffectOfShift(inst: MicroInst, g: MicroCpu, kind: InstrKind)
    requires inst.op == ShiftOp(kind)
    ensures Effect(inst, g) == ShiftEffect(inst, g)
  {
    hide ShiftEffect, MoveEffect, MoveHalfEffect, ArithEffect, TstEffect, LogicEffect, FieldEffect;
  }

  lemma ShiftingEffect(s: MicroSource, inst: MicroInst, c: CpuState)
    requires s.decoded.kind == InstrKind.Lsl || s.decoded.kind == InstrKind.Lsr || s.decoded.kind == InstrKind.Asr
             || s.decoded.kind == InstrKind.Ror || s.decoded.kind == InstrKind.Rrx
    requires LowerShift(s.decoded, BlankInst(s)) == Accepted(inst)
    requires DecoderShaped(s.decoded)
    ensures SameEffect(s, inst, ShiftAlu(s.decoded, Entered(c, s.size)), c)
  {
    hide NoList, Entered, View, ReadRegister, ReadOp, ShiftC, Negative, Effect, ShiftOp, ShiftTypeOf, DecoderShaped,
      IsBranchOp;
    var d := s.decoded;
    ShiftKind(d);
    EffectOfShift(inst, View(c), d.kind);
    ReadCore(c, s.size, d.rm);
    if d.form == Immediate {
      RrxIgnoresAmount(ReadOp(View(c), d.rm), 1, d.shiftAmount, c.psr.c);
    } else {
      ReadCore(c, s.size, d.rn);
    }
  }

  lemma UbfxEffect(s: MicroSource, inst: MicroInst, c: CpuState)
    requires s.decoded.kind == Ubfx && LowerUbfx(s.decoded, BlankInst(s)) == Accepted(inst)
    ensures SameEffect(s, inst, FieldAlu(s.decoded, Entered(c, s.size)), c)
  {
    hide NoList, Entered, View, ReadRegister, ReadOp, ExtractField;
    ReadCore(c, s.size, s.decoded.rn);
  }

  lemma ExtendingEffect(s: MicroSource, inst: MicroInst, c: CpuState)
    requires s.decoded.kind == Uxtb || s.decoded.kind == Uxth || s.decoded.kind == Sxtb || s.decoded.kind == Sxth
    requires LowerExtend(s.decoded, BlankInst(s)) == Accepted(inst)
    ensures SameEffect(s, inst, FieldAlu(s.decoded, Entered(c, s.size)), c)
  {
    hide NoList, Entered, View, ReadRegister, ReadOp, RotateRight, SignExtend;
    var d := s.decoded;
    ReadCore(c, s.size, d.rm);
    RotateByZero(ReadOp(View(c), d.rm));
  }

  lemma RotateByZero(value: Word)
    ensures RotateRight(value, 0) == value
  {
  }

  // Branches.

  lemma SoundBranch(s: MicroSource, inst: MicroInst, c: CpuState, m: Memory)
    requires s.decoded.kind == B || s.decoded.kind == Bl
    requires LowerBranch(s.decoded, BlankInst(s)) == Accepted(inst) && c.r[15] == s.pc
    requires ConditionPasses(s.decoded.condition, c.psr)
    ensures Execute(s.decoded, Entered(c, s.size), m) == Done(Publish(MicroStep(inst, View(c)), c, c.r[15]), m)
  {
    hide Execute, Entered, Publish, View, MicroStep, Taken, OpTarget, SetBit0, BranchTarget, Words.Add, LowerBranch;
    BranchExecutes(s.decoded, Entered(c, s.size), m);
    LoweredBranch(s, inst);
    assert View(c).psr == c.psr by { ReadCore(c, s.size, 0); }
    BranchTakes(inst, View(c));
    BranchStep(inst, View(c));
    PublishBranch(c, s.size, SetBit0(OpSequential(inst)), OpTarget(inst));
    TargetsAgree(s, inst, c);
  }

  lemma BranchExecutes(d: Decoded, c: CpuState, m: Memory)
    requires d.kind == B || d.kind == Bl
    ensures Execute(d, c, m) ==
            Done(WithPc(if d.kind == Bl then WithLr(c, SetBit0(c.r[15])) else c, BranchTarget(c, d.branchOffset)), m)
  {
    hide ApplyAlu, ExecMov, ExecLoad, ExecStore, ExecMultiple, ExecBranchExchange, ExecCompareBranch, SetBit0,
      BranchTarget;
  }

  lemma LoweredBranch(s: MicroSource, inst: MicroInst)
    requires s.decoded.kind == B || s.decoded.kind == Bl
    requires LowerBranch(s.decoded, BlankInst(s)) == Accepted(inst)
    ensures inst.pc == s.pc && inst.size == s.size && inst.branchOffset == s.decoded.branchOffset
    ensures inst.condition == s.decoded.condition
    ensures inst.op == if s.decoded.kind == Bl then OpBl else if s.decoded.condition == AL then OpB else BCond
    ensures IsBranchOp(inst.op)
  {
  }

  lemma BranchTakes(inst: MicroInst, g: MicroCpu)
    ensures inst.op == OpB || inst.op == OpBl ==> Taken(inst, g)
    ensures inst.op == BCond ==> (Taken(inst, g) <==> ConditionPasses(inst.condition, g.psr))
  {
    hide ConditionPasses;
  }

  lemma TargetsAgree(s: MicroSource, inst: MicroInst, c: CpuState)
    requires c.r[15] == s.pc == inst.pc && inst.size == s.size
    ensures inst.op != OpCbz && inst.op != OpCbnz && inst.branchOffset == s.decoded.branchOffset ==>
              BranchTarget(Entered(c, s.size), s.decoded.branchOffset) == OpTarget(inst)
    ensures (inst.op == OpCbz || inst.op == OpCbnz) && inst.imm == s.decoded.imm ==>
              ClearBit0(Words.Add(PcForRead(Entered(c, s.size)), s.decoded.imm)) == OpTarget(inst)
  {
    hide ClearBit0, Wrap, Publish, View;
    PublishBranch(c, s.size, 0, 0);
    WrapTwice(s.pc + 4, s.decoded.imm);
  }

  lemma WrapTwice(x: int, y: int)
    ensures Wrap(Wrap(x) + y) == Wrap(x + y)
  {
  }

  lemma SoundBranchFailed(s: MicroSource, inst: MicroInst, c: CpuState, m: Memory)
    requires s.decoded.kind == B
    requires LowerBranch(s.decoded, BlankInst(s)) == Accepted(inst) && c.r[15] == s.pc
    requires !ConditionPasses(s.decoded.condition, c.psr)
    ensures Entered(c, s.size) == Publish(MicroStep(inst, View(c)), c, c.r[15])
  {
    hide Entered, Publish, View, MicroStep, Taken, LowerBranch, Words.Add;
    LoweredBranch(s, inst);
    assert View(c).psr == c.psr by { ReadCore(c, s.size, 0); }
    BranchTakes(inst, View(c));
    BranchStep(inst, View(c));
    PublishBranch(c, s.size, 0, 0);
  }

  lemma SoundCompareBranch(s: MicroSource, inst: MicroInst, c: CpuState)
    requires s.decoded.kind == Cbz || s.decoded.kind == Cbnz
    requires LowerCompareBranch(s.decoded, BlankInst(s)) == Accepted(inst) && c.r[15] == s.pc
    ensures ExecCompareBranch(s.decoded, Entered(c, s.size)) == Publish(MicroStep(inst, View(c)), c, c.r[15])
  {
    hide Entered, Publish, View, MicroStep, ReadRegister, ReadOp, OpTarget, ClearBit0, Words.Add, PcForRead, BlankInst,
      LowerCompareBranch, WithPc;
    CompareBranchInst(s, inst);
    BranchStep(inst, View(c));
    ReadCore(c, s.size, s.decoded.rn);
    PublishBranch(c, s.size, 0, OpTarget(inst));
    TargetsAgree(s, inst, c);
  }

  lemma CompareBranchInst(s: MicroSource, inst: MicroInst)
    requires s.decoded.kind == Cbz || s.decoded.kind == Cbnz
    requires LowerCompareBranch(s.decoded, BlankInst(s)) == Accepted(inst)
    ensures inst.op == (if s.decoded.kind == Cbz then OpCbz else OpCbnz) && inst.rn == s.decoded.rn && CoreReg(inst.rn)
    ensures inst.imm == s.decoded.imm && inst.pc == s.pc && inst.size == s.size
  {
  }

  // The theorem.

  predicate IsDataKind(kind: InstrKind) {
    match kind
    case Mov | Movw | Movt | Add | Sub | Cmp | Cmn | Tst | And | Orr | Eor | Bic
      | Lsl | Lsr | Asr | Ror | Rrx | Uxtb | Uxth | Sxtb | Sxth | Ubfx => true
    case _ => false
  }

  predicate IsIdleKind(kind: InstrKind) {
    kind == Nop || kind == Dmb || kind == Dsb || kind == Isb
  }

  /** What acceptance implies before the kind is looked at. */
  lemma LowerGate(s: MicroSource, inst: MicroInst)
    requires Lower(s) == Accepted(inst)
    ensures s.size == 2 || s.size == 4
    ensures s.pc % 2 == 0
    ensures s.decoded.condition == AL || s.decoded.kind == B || s.decoded.kind == Bl
    ensures IsDataKind(s.decoded.kind) || IsIdleKind(s.decoded.kind)
            || s.decoded.kind == B || s.decoded.kind == Bl || s.decoded.kind == Cbz || s.decoded.kind == Cbnz
  {
    hide LowerNop, LowerBarrier, LowerMov, LowerMovHalf, LowerAddSub, LowerCompare, LowerTst, LowerLogic, LowerShift,
      LowerBranch, LowerExtend, LowerUbfx, BlankInst;
  }

  lemma DataEffect(s: MicroSource, inst: MicroInst, c: CpuState)
    requires Lower(s) == Accepted(inst) && IsDataKind(s.decoded.kind) && DecoderShaped(s.decoded)
    ensures SameEffect(s, inst, AluOf(s.decoded, Entered(c, s.size)), c)
    ensures s.decoded.kind == Mov ==> s.decoded.rd != 15
  {
    hide LowerNop, LowerBarrier, LowerMov, LowerMovHalf, LowerAddSub, LowerCompare, LowerTst, LowerLogic, LowerShift,
      LowerBranch, LowerExtend, LowerUbfx, LowerCompareBranch, BlankInst, SameEffect, DecoderShaped, Entered,
      MovAlu, MovHalfAlu, AddSubAlu, RsbAlu, CompareAlu, TstAlu, LogicAlu, FieldAlu, ShiftAlu;
    match s.decoded.kind
    case Mov => MovEffect(s, inst, c);
    case Movw | Movt => MovHalfEffect(s, inst, c);
    case Add | Sub => AddSubEffect(s, inst, c);
    case Cmp | Cmn => CompareEffect(s, inst, c);
    case Tst => TestEffect(s, inst, c);
    case And | Orr | Eor | Bic => LogicalEffect(s, inst, c);
    case Ubfx => UbfxEffect(s, inst, c);
    case Uxtb | Uxth | Sxtb | Sxth => ExtendingEffect(s, inst, c);
    case Lsl | Lsr | Asr | Ror | Rrx => ShiftingEffect(s, inst, c);
  }

  lemma DataExecutes(d: Decoded, c: CpuState, m: Memory)
    requires IsDataKind(d.kind) && (d.kind == Mov ==> d.rd != 15)
    ensures Execute(d, c, m) == Done(ApplyAlu(AluOf(d, c), c), m)
  {
    hide ApplyAlu, MovAlu, MovHalfAlu, AddSubAlu, RsbAlu, CompareAlu, TstAlu, LogicAlu, FieldAlu, ShiftAlu,
      ExecLoad, ExecStore, ExecMultiple, ExecBranchExchange, ExecCompareBranch;
  }

  lemma SoundData(s: MicroSource, inst: MicroInst, c: CpuState, m: Memory)
    requires Lower(s) == Accepted(inst) && IsDataKind(s.decoded.kind) && DecoderShaped(s.decoded) && c.r[15] == s.pc
    ensures Execute(s.decoded, Entered(c, s.size), m) == Done(Publish(MicroStep(inst, View(c)), c, c.r[15]), m)
    ensures !IsBranchOp(inst.op)
  {
    hide Execute, Entered, Publish, View, MicroStep, Lower, DecoderShaped, IsDataKind, Effect, ApplyEffect, ApplyAlu,
      AluOf, CoreDest, IsBranchOp, Words.Add;
    var c1 := Entered(c, s.size);
    DataEffect(s, inst, c);
    DataExecutes(s.decoded, c1, m);
    PlainStep(inst, View(c));
    PublishEffect(AluOf(s.decoded, c1), c, s.size);
  }

  lemma IdleExecutes(d: Decoded, c: CpuState, m: Memory)
    requires IsIdleKind(d.kind)
    ensures Execute(d, c, m) == Done(c, m)
  {
    hide ApplyAlu, ExecMov, ExecLoad, ExecStore, ExecMultiple, ExecBranchExchange, ExecCompareBranch;
  }

  lemma SoundIdle(s: MicroSource, inst: MicroInst, c: CpuState, m: Memory)
    requires Lower(s) == Accepted(inst) && IsIdleKind(s.decoded.kind) && c.r[15] == s.pc
    ensures Execute(s.decoded, Entered(c, s.size), m) == Done(Publish(MicroStep(inst, View(c)), c, c.r[15]), m)
  {
    hide Execute, Entered, Publish, View, MicroStep, Words.Add, NoList;
    assert inst == BlankInst(s);
    IdleExecutes(s.decoded, Entered(c, s.size), m);
    PlainStep(inst, View(c));
    PublishBranch(c, s.size, 0, 0);
  }

  lemma CompareBranchExecutes(d: Decoded, c: CpuState, m: Memory)
    requires d.kind == Cbz || d.kind == Cbnz
    ensures Execute(d, c, m) == Done(ExecCompareBranch(d, c), m)
  {
    hide ApplyAlu, ExecMov, ExecLoad, ExecStore, ExecMultiple, ExecBranchExchange, ExecCompareBranch;
  }

  lemma LowerControl(s: MicroSource, inst: MicroInst)
    requires Lower(s) == Accepted(inst)
    ensures s.decoded.kind == B || s.decoded.kind == Bl ==> LowerBranch(s.decoded, BlankInst(s)) == Accepted(inst)
    ensures s.decoded.kind == Cbz || s.decoded.kind == Cbnz ==>
              LowerCompareBranch(s.decoded, BlankInst(s)) == Accepted(inst) && s.decoded.condition == AL
  {
    hide LowerNop, LowerBarrier, LowerMov, LowerMovHalf, LowerAddSub, LowerCompare, LowerTst, LowerLogic, LowerShift,
      LowerBranch, LowerExtend, LowerUbfx, BlankInst;
  }

  /** Pipeline cycles of a lowered instruction whose FilIR step leaves the PC at `next`. */
  function LoweredCycles(d: Decoded, size: int, c: CpuState, next: Word): nat {
    if !ConditionPasses(d.condition, c.psr) then 1
    else BasePipelineCycles(d) + (if next != Words.Add(c.r[15], size) then TakenBranchPenalty(d.kind) else 0)
  }

  lemma PublishedPc(g: MicroCpu, c: CpuState, pc: Word)
    ensures Publish(g, c, pc).r[15] == g.pc
  {
  }

  /** Lowering is sound: outside an IT block, one FilIR step of an accepted instruction is the
      checked step, on every register, xPSR bit and cycle. */
  lemma LoweringSound(s: MicroSource, inst: MicroInst, c: CpuState, m: Memory)
    requires Lower(s) == Accepted(inst) && DecoderShaped(s.decoded)
    requires c.r[15] == s.pc && !InItBlock(c.itState)
    ensures
      var g := MicroStep(inst, View(c));
      Retire(s.decoded, s.size, c, m)
      == StepResult(Publish(g, c, s.pc), m, StepComplete, LoweredCycles(s.decoded, s.size, c, g.pc))
  {
    hide Execute, Entered, Publish, View, MicroStep, Lower, IsDataKind, IsIdleKind, LowerBranch, LowerCompareBranch,
      Words.Add, BasePipelineCycles, ConditionPasses, Retire, ExecCompareBranch, InItBlock, TakenBranchPenalty,
      BlankInst, IsDivide;
    var d := s.decoded;
    var c1 := Entered(c, s.size);
    LowerGate(s, inst);
    LowerControl(s, inst);
    AlwaysPasses(c.psr);
    PublishedPc(MicroStep(inst, View(c)), c, s.pc);
    NotIt(d.kind);
    if !ConditionPasses(d.condition, c.psr) {
      assert d.kind == B;
      SoundBranchFailed(s, inst, c, m);
      RetireFailed(d, s.size, c, m);
    } else {
      RetirePassed(d, s.size, c, m);
      if IsDataKind(d.kind) {
        SoundData(s, inst, c, m);
      } else if IsIdleKind(d.kind) {
        SoundIdle(s, inst, c, m);
      } else if d.kind == B || d.kind == Bl {
        SoundBranch(s, inst, c, m);
      } else {
        SoundCompareBranch(s, inst, c);
        CompareBranchExecutes(d, c1, m);
      }
    }
  }

  lemma AlwaysPasses(p: Psr)
    ensures ConditionPasses(AL, p)
  {
  }

  lemma NotIt(kind: InstrKind)
    ensures IsDataKind(kind) || IsIdleKind(kind) ==> kind != It
    ensures IsDataKind(kind) || IsIdleKind(kind) || kind in {B, Bl, Cbz, Cbnz} ==> !IsDivide(kind)
  {
  }
}
