/** FilIR: the integer intermediate representation of the JIT, its lowering and its
    reference interpreter, after src/cpu/micro_jit_ir.cpp. */
module Micro {
  import opened Words
  import opened Cpu

  datatype MicroOp =
    | OpNop | MovImm | MovReg | OpMovw | OpMovt
    | AddImm | SubImm | CmpImm | CmnImm | CmpReg | CmnReg | TstReg
    | AddReg | SubReg | AndReg | OrrReg | EorReg | BicReg | AddShift | SubShift
    | OpLsl | OpLsr | OpAsr | OpRor | OpRrx
    | OpB | OpBl | BCond | OpCbz | OpCbnz | Extend | OpUbfx

  datatype ExtendKind = ExtUxtb | ExtUxth | ExtSxtb | ExtSxth

  datatype MicroInst = MicroInst(
    op: MicroOp, rd: nat, rn: nat, rm: nat, imm: Word,
    condition: Condition, shift: ShiftType, shiftAmount: Byte, setFlags: bool,
    carryValid: bool, carry: bool, shiftImmediate: bool, extendKind: ExtendKind,
    branchOffset: int, pc: Word, size: int)

  /** A decoded guest instruction with its address and width. */
  datatype MicroSource = MicroSource(decoded: Decoded, pc: Word, size: int)

  datatype LowerReason =
    | BadCondition | BadSize | BadPc | UnsupportedKind | BadShape | BadRegister | BranchNotTerminal

  datatype Lowered<+T> = Accepted(inst: T) | Declined(reason: LowerReason)

  // ---------------------------------------------------------------- lowering

  predicate NoList(list: RegList) {
    Count(list) == 0
  }

  predicate ImmediateShape(d: Decoded) {
    && d.form == Immediate && d.rm == 0 && d.ra == 0 && d.shiftAmount == 0 && d.shiftType == ShiftType.Lsl
    && !d.writeback && NoList(d.registerList) && !d.fpDouble
  }

  predicate RegisterShape(d: Decoded) {
    && d.form == RegisterValue && d.ra == 0 && d.imm == 0 && d.branchOffset == 0 && !d.writeback
    && NoList(d.registerList) && !d.immediateCarryValid && !d.immediateCarry && !d.fpDouble
    && d.index && d.add
  }

  predicate CoreReg(reg: nat) {
    reg <= 12
  }

  predicate UnshiftedLsl(d: Decoded) {
    d.shiftType == ShiftType.Lsl && d.shiftAmount == 0
  }

  function BlankInst(s: MicroSource): MicroInst {
    MicroInst(OpNop, 0, 0, 0, 0, AL, ShiftType.Lsl, 0, s.decoded.setFlags, false, false, true, ExtUxtb,
              s.decoded.branchOffset, s.pc, s.size)
  }

  function LowerMov(d: Decoded, inst: MicroInst): Lowered<MicroInst> {
    if RegisterShape(d) && UnshiftedLsl(d) && CoreReg(d.rd) && CoreReg(d.rm) then
      Accepted(inst.(op := MovReg, rd := d.rd, rm := d.rm))
    else if !ImmediateShape(d) || !CoreReg(d.rd) then
      Declined(if !CoreReg(d.rd) then BadRegister else BadShape)
    else
      Accepted(inst.(op := MovImm, rd := d.rd, imm := d.imm,
                     carryValid := d.immediateCarryValid, carry := d.immediateCarry))
  }

  function LowerMovHalf(d: Decoded, inst: MicroInst): Lowered<MicroInst> {
    if !ImmediateShape(d) || d.rn != 0 || d.imm > 0xffff || d.setFlags
       || d.immediateCarryValid || d.immediateCarry || !CoreReg(d.rd) then Declined(BadShape)
    else Accepted(inst.(op := if d.kind == Movw then OpMovw else OpMovt, rd := d.rd, imm := d.imm))
  }

  function LowerAddSub(d: Decoded, inst: MicroInst): Lowered<MicroInst> {
    var isAdd := d.kind == InstrKind.Add;
    if d.form == Immediate then
      if !ImmediateShape(d) || !CoreReg(d.rd) || !CoreReg(d.rn)
         || d.immediateCarryValid || d.immediateCarry then Declined(BadShape)
      else Accepted(inst.(op := if isAdd then AddImm else SubImm, rd := d.rd, rn := d.rn, imm := d.imm))
    else if !RegisterShape(d) || !CoreReg(d.rd) || !CoreReg(d.rn) || !CoreReg(d.rm) then Declined(BadShape)
    else if UnshiftedLsl(d) then
      Accepted(inst.(op := if isAdd then AddReg else SubReg, rd := d.rd, rn := d.rn, rm := d.rm))
    else if d.shiftType == ShiftType.Rrx && d.shiftAmount != 0 then Declined(BadShape)
    else
      Accepted(inst.(op := if isAdd then AddShift else SubShift, rd := d.rd, rn := d.rn, rm := d.rm,
                     shift := d.shiftType, shiftAmount := d.shiftAmount))
  }

  function LowerCompare(d: Decoded, inst: MicroInst): Lowered<MicroInst> {
    var isCmp := d.kind == Cmp;
    if d.form == RegisterValue then
      if !RegisterShape(d) || !CoreReg(d.rn) || !CoreReg(d.rm) || !d.setFlags then Declined(BadShape)
      else Accepted(inst.(op := if isCmp then CmpReg else CmnReg, rn := d.rn, rm := d.rm,
                          shift := d.shiftType, shiftAmount := d.shiftAmount))
    else if !ImmediateShape(d) || !CoreReg(d.rn) || !d.setFlags
            || d.immediateCarryValid || d.immediateCarry then Declined(BadShape)
    else Accepted(inst.(op := if isCmp then CmpImm else CmnImm, rd := d.rd, rn := d.rn, imm := d.imm))
  }

  function LowerTst(d: Decoded, inst: MicroInst): Lowered<MicroInst> {
    if !RegisterShape(d) || !CoreReg(d.rn) || !CoreReg(d.rm) || !d.setFlags || !UnshiftedLsl(d)
    then Declined(BadShape)
    else Accepted(inst.(op := TstReg, rn := d.rn, rm := d.rm))
  }

  function LogicOp(kind: InstrKind): MicroOp {
    match kind
    case And => AndReg
    case Orr => OrrReg
    case Eor => EorReg
    case _ => BicReg
  }

  function LowerLogic(d: Decoded, inst: MicroInst): Lowered<MicroInst> {
    if !RegisterShape(d) || !UnshiftedLsl(d) || !CoreReg(d.rd) || !CoreReg(d.rn) || !CoreReg(d.rm)
    then Declined(BadShape)
    else Accepted(inst.(op := LogicOp(d.kind), rd := d.rd, rn := d.rn, rm := d.rm))
  }

  function ShiftOp(kind: InstrKind): MicroOp {
    match kind
    case Lsl => OpLsl
    case Lsr => OpLsr
    case Asr => OpAsr
    case Ror => OpRor
    case _ => OpRrx
  }

  function LowerShift(d: Decoded, inst: MicroInst): Lowered<MicroInst> {
    var immediate := d.form == Immediate;
    if immediate && (!CoreReg(d.rd) || !CoreReg(d.rm)) then Declined(BadRegister)
    else if !immediate && (d.form != RegisterValue || !CoreReg(d.rd) || !CoreReg(d.rn) || !CoreReg(d.rm)
                           || d.kind == InstrKind.Rrx) then Declined(BadShape)
    else Accepted(inst.(op := ShiftOp(d.kind), rd := d.rd, rn := d.rn, rm := d.rm,
                        shiftAmount := d.shiftAmount, shift := d.shiftType,
                        shiftImmediate := immediate, imm := d.imm))
  }

  function LowerBranch(d: Decoded, inst: MicroInst): Lowered<MicroInst> {
    if (d.form != NoOperand && d.form != Immediate) || d.setFlags || d.rd != 0 || d.rn != 0 || d.rm != 0
       || d.imm != 0 || d.immediateCarryValid || d.immediateCarry then Declined(BadShape)
    else
      var op := if d.kind == B && d.condition != AL then BCond else if d.kind == B then OpB else OpBl;
      if op == BCond && d.condition == NV then Declined(BadCondition)
      else Accepted(inst.(op := op, condition := d.condition))
  }

  function LowerCompareBranch(d: Decoded, inst: MicroInst): Lowered<MicroInst> {
    if d.form != Immediate || d.condition != AL || d.setFlags || !CoreReg(d.rn) || d.branchOffset != 0
    then Declined(BadShape)
    else Accepted(inst.(op := if d.kind == Cbz then OpCbz else OpCbnz, rn := d.rn, imm := d.imm))
  }

  function ExtendOf(kind: InstrKind): ExtendKind {
    match kind
    case Uxtb => ExtUxtb
    case Uxth => ExtUxth
    case Sxtb => ExtSxtb
    case _ => ExtSxth
  }

  function LowerExtend(d: Decoded, inst: MicroInst): Lowered<MicroInst> {
    if !CoreReg(d.rd) || !CoreReg(d.rm) || d.imm != 0 || d.ra != 0 || !NoList(d.registerList)
       || d.writeback || d.fpDouble || d.branchOffset != 0 || d.immediateCarryValid || d.immediateCarry
       || (d.shiftAmount != 0 && d.shiftType != ShiftType.Ror) then Declined(BadShape)
    else Accepted(inst.(op := Extend, rd := d.rd, rm := d.rm, imm := d.shiftAmount,
                        extendKind := ExtendOf(d.kind)))
  }

  function LowerUbfx(d: Decoded, inst: MicroInst): Lowered<MicroInst> {
    if !CoreReg(d.rd) || !CoreReg(d.rn) || d.imm == 0 || d.imm > 32 || d.shiftAmount + d.imm > 32
       || d.ra != 0 || d.rm != 0 || !NoList(d.registerList) || d.writeback || d.fpDouble
       || d.branchOffset != 0 || d.immediateCarryValid || d.immediateCarry then Declined(BadShape)
    else Accepted(inst.(op := OpUbfx, rd := d.rd, rn := d.rn, shiftAmount := d.shiftAmount, imm := d.imm))
  }

  function LowerBarrier(d: Decoded, inst: MicroInst): Lowered<MicroInst> {
    if d.setFlags || d.branchOffset != 0 || d.writeback || !NoList(d.registerList) || d.fpDouble
       || d.immediateCarryValid || d.immediateCarry || (d.form != Immediate && d.form != NoOperand)
    then Declined(BadShape)
    else Accepted(inst)
  }

  function LowerNop(d: Decoded, inst: MicroInst): Lowered<MicroInst> {
    if d.form != NoOperand || d.setFlags || d.rd != 0 || d.rn != 0 || d.rm != 0 || d.imm != 0
       || d.branchOffset != 0 then Declined(BadShape)
    else Accepted(inst)
  }

  /** tryLowerMicroInst. */
  function Lower(s: MicroSource): Lowered<MicroInst> {
    var d := s.decoded;
    var inst := BlankInst(s);
    if d.condition != AL && d.kind != B && d.kind != Bl && d.kind != Cbz && d.kind != Cbnz then Declined(BadCondition)
    else if s.size != 2 && s.size != 4 then Declined(BadSize)
    else if d.is32Bit != (s.size == 4) then Declined(BadSize)
    else if s.pc % 2 != 0 then Declined(BadPc)
    else
      match d.kind
      case Nop => LowerNop(d, inst)
      case Dmb | Dsb | Isb => LowerBarrier(d, inst)
      case Mov => LowerMov(d, inst)
      case Movw | Movt => LowerMovHalf(d, inst)
      case Add | Sub => LowerAddSub(d, inst)
      case Cmp | Cmn => LowerCompare(d, inst)
      case Tst => LowerTst(d, inst)
      case And | Orr | Eor | Bic => LowerLogic(d, inst)
      case Lsl | Lsr | Asr | Ror | Rrx => LowerShift(d, inst)
      case B | Bl => LowerBranch(d, inst)
      case Cbz | Cbnz => LowerCompareBranch(d, inst)
      case Uxtb | Uxth | Sxtb | Sxth => LowerExtend(d, inst)
      case Ubfx => LowerUbfx(d, inst)
      case _ => Declined(UnsupportedKind)
  }

  // ---------------------------------------------------------------- interpreter

  type CoreRegs = s: seq<Word> | |s| == 13 witness seq(13, i => 0)

  /** r0-r12, LR, PC and xPSR. */
  datatype MicroCpu = MicroCpu(r: CoreRegs, lr: Word, pc: Word, psr: Psr)

  function ReadOp(c: MicroCpu, reg: nat): Word {
    if reg == 14 then c.lr else if reg < 13 then c.r[reg] else 0
  }

  function WriteOp(c: MicroCpu, reg: nat, value: Word): MicroCpu {
    if reg == 14 then c.(lr := value) else if reg < 13 then c.(r := c.r[reg := value]) else c
  }

  function LogicOpValue(op: MicroOp, lhs: Word, rhs: Word): Word {
    match op
    case AndReg => Words.And(lhs, rhs)
    case OrrReg => Words.Or(lhs, rhs)
    case EorReg => Words.Xor(lhs, rhs)
    case _ => Words.And(lhs, Words.Not(rhs))
  }

  function ShiftTypeOf(op: MicroOp): ShiftType {
    match op
    case OpLsl => ShiftType.Lsl
    case OpLsr => ShiftType.Lsr
    case OpAsr => ShiftType.Asr
    case OpRor => ShiftType.Ror
    case _ => ShiftType.Rrx
  }

  function ExtendStepValue(kind: ExtendKind, rotated: Word): Word {
    var byte := kind == ExtUxtb || kind == ExtSxtb;
    var sign := kind == ExtSxtb || kind == ExtSxth;
    var value := if byte then rotated % 0x100 else rotated % 0x1_0000;
    if sign then SignExtend(value, if byte then One else Two) else value
  }

  predicate IsCompare(op: MicroOp) {
    op == CmpImm || op == CmnImm || op == CmpReg || op == CmnReg
  }

  predicate IsArithmetic(op: MicroOp) {
    || IsCompare(op) || op == AddImm || op == SubImm || op == AddReg || op == SubReg
    || op == AddShift || op == SubShift
  }

  predicate Subtracts(op: MicroOp) {
    op == SubImm || op == CmpImm || op == CmpReg || op == SubReg || op == SubShift
  }

  function MoveEffect(op: MicroInst, g: MicroCpu): Alu {
    if op.op == MovImm then
      Alu(Some(op.rd), op.imm,
          if op.setFlags then SetNz(g.psr, op.imm).(c := if op.carryValid then op.carry else g.psr.c) else g.psr)
    else
      var value := ReadOp(g, op.rm);
      Alu(Some(op.rd), value, if op.setFlags then SetNz(g.psr, value) else g.psr)
  }

  function MoveHalfEffect(op: MicroInst, g: MicroCpu): Alu {
    Alu(Some(op.rd),
        if op.op == OpMovw then op.imm % 0x1_0000
        else ReadOp(g, op.rd) % 0x1_0000 + op.imm % 0x1_0000 * 0x1_0000,
        g.psr)
  }

  /** The right-hand operand of an addition, subtraction or comparison. */
  function ArithOperand(op: MicroInst, g: MicroCpu): Word {
    match op.op
    case AddImm | SubImm | CmpImm | CmnImm => op.imm
    case AddReg | SubReg => ReadOp(g, op.rm)
    case _ => ShiftC(ReadOp(g, op.rm), op.shift, op.shiftAmount, g.psr.c).value
  }

  /** A comparison is an addition that writes no register and always sets NZCV. */
  function ArithEffect(op: MicroInst, g: MicroCpu): Alu {
    var rhs := ArithOperand(op, g);
    var subtract := Subtracts(op.op);
    var r := AddWithCarry(ReadOp(g, op.rn), if subtract then Words.Not(rhs) else rhs, subtract);
    if IsCompare(op.op) then Alu(None, 0, SetNzcv(g.psr, r))
    else Alu(Some(op.rd), r.value, if op.setFlags then SetNzcv(g.psr, r) else g.psr)
  }

  function LogicEffect(op: MicroInst, g: MicroCpu): Alu {
    var v := LogicOpValue(op.op, ReadOp(g, op.rn), ReadOp(g, op.rm));
    Alu(Some(op.rd), v, if op.setFlags then SetNz(g.psr, v) else g.psr)
  }

  function TstEffect(op: MicroInst, g: MicroCpu): Alu {
    Alu(None, 0, SetNz(g.psr, Words.And(ReadOp(g, op.rn), ReadOp(g, op.rm))))
  }

  function ShiftEffect(op: MicroInst, g: MicroCpu): Alu {
    var value := if op.shiftImmediate then ReadOp(g, op.rm) else ReadOp(g, op.rn);
    var encoded := if op.op == OpRrx then 1 else op.shiftAmount;
    var amount := if op.shiftImmediate then encoded else ReadOp(g, op.rm) % 0x100;
    var s := ShiftC(value, ShiftTypeOf(op.op), amount, g.psr.c);
    Alu(Some(op.rd), s.value, if op.setFlags then SetNz(g.psr, s.value).(c := s.carry) else g.psr)
  }

  function FieldEffect(op: MicroInst, g: MicroCpu): Alu {
    if op.op == Extend then
      var source := ReadOp(g, op.rm);
      var rotated := if op.imm == 0 then source else RotateRight(source, op.imm);
      Alu(Some(op.rd), ExtendStepValue(op.extendKind, rotated), g.psr)
    else Alu(Some(op.rd), ExtractField(ReadOp(g, op.rn), op.shiftAmount, op.imm), g.psr)
  }

  /** The data effect of one non-branching op: every case of interpretMicroOps that
      falls out of the switch. */
  function Effect(op: MicroInst, g: MicroCpu): Alu {
    match op.op
    case MovImm | MovReg => MoveEffect(op, g)
    case OpMovw | OpMovt => MoveHalfEffect(op, g)
    case AddImm | SubImm | CmpImm | CmnImm | CmpReg | CmnReg | AddReg | SubReg | AddShift | SubShift =>
      ArithEffect(op, g)
    case TstReg => TstEffect(op, g)
    case AndReg | OrrReg | EorReg | BicReg => LogicEffect(op, g)
    case OpLsl | OpLsr | OpAsr | OpRor | OpRrx => ShiftEffect(op, g)
    case Extend | OpUbfx => FieldEffect(op, g)
    case OpNop | OpB | OpBl | BCond | OpCbz | OpCbnz => Alu(None, 0, g.psr)
  }

  /** `p` and `q` differ at most in N, Z, C and V. */
  predicate SameRest(p: Psr, q: Psr) {
    p.(n := q.n, z := q.z, c := q.c, v := q.v) == q
  }

  lemma FlagWritersKeepRest(p: Psr, value: Word, carry: bool, r: AddResult)
    ensures SameRest(p, p)
    ensures SameRest(SetNz(p, value), p)
    ensures SameRest(SetNz(p, value).(c := carry), p)
    ensures SameRest(SetNzcv(p, r), p)
  {
    hide Negative;
  }

  /** FilIR writes no xPSR bit outside NZCV. */
  lemma EffectKeepsRest(op: MicroInst, g: MicroCpu)
    ensures SameRest(Effect(op, g).psr, g.psr)
  {
    hide SameRest, SetNz, SetNzcv, MoveHalfEffect, ArithEffect, LogicEffect, ShiftEffect, FieldEffect, ReadOp;
    var any := AddResult(0, false, false, false, false);
    FlagWritersKeepRest(g.psr, op.imm, if op.carryValid then op.carry else g.psr.c, any);
    FlagWritersKeepRest(g.psr, ReadOp(g, op.rm), false, any);
    FlagWritersKeepRest(g.psr, Words.And(ReadOp(g, op.rn), ReadOp(g, op.rm)), false, any);
    ArithKeepsRest(op, g);
    OthersKeepRest(op, g);
  }

  lemma ArithKeepsRest(op: MicroInst, g: MicroCpu)
    ensures SameRest(ArithEffect(op, g).psr, g.psr)
  {
    hide SameRest, SetNzcv, ArithOperand, AddWithCarry, ReadOp;
    var rhs := ArithOperand(op, g);
    FlagWritersKeepRest(g.psr, 0, false,
      AddWithCarry(ReadOp(g, op.rn), if Subtracts(op.op) then Words.Not(rhs) else rhs, Subtracts(op.op)));
  }

  lemma OthersKeepRest(op: MicroInst, g: MicroCpu)
    ensures SameRest(MoveHalfEffect(op, g).psr, g.psr)
    ensures SameRest(LogicEffect(op, g).psr, g.psr)
    ensures SameRest(ShiftEffect(op, g).psr, g.psr)
    ensures SameRest(FieldEffect(op, g).psr, g.psr)
  {
    hide SameRest, SetNz, LogicOpValue, ShiftC, ReadOp, RotateRight, ExtractField, ExtendStepValue, ShiftTypeOf;
    var any := AddResult(0, false, false, false, false);
    var encoded := if op.op == OpRrx then 1 else op.shiftAmount;
    var s := ShiftC(if op.shiftImmediate then ReadOp(g, op.rm) else ReadOp(g, op.rn), ShiftTypeOf(op.op),
                    if op.shiftImmediate then encoded else ReadOp(g, op.rm) % 0x100, g.psr.c);
    FlagWritersKeepRest(g.psr, LogicOpValue(op.op, ReadOp(g, op.rn), ReadOp(g, op.rm)), false, any);
    FlagWritersKeepRest(g.psr, s.value, s.carry, any);
  }

  function ApplyEffect(e: Alu, g: MicroCpu): MicroCpu {
    (match e.dest case None => g case Some(rd) => WriteOp(g, rd, e.value)).(psr := e.psr)
  }

  predicate IsBranchOp(op: MicroOp) {
    op == OpB || op == OpBl || op == BCond || op == OpCbz || op == OpCbnz
  }

  /** Whether a branch op leaves the block in state `c`. */
  predicate Taken(op: MicroInst, c: MicroCpu) {
    match op.op
    case OpB | OpBl => true
    case BCond => ConditionPasses(op.condition, c.psr)
    case OpCbz => ReadOp(c, op.rn) == 0
    case OpCbnz => ReadOp(c, op.rn) != 0
    case _ => false
  }

  function OpTarget(op: MicroInst): Word {
    ClearBit0(Wrap(op.pc + 4 + (if op.op == OpCbz || op.op == OpCbnz then op.imm else op.branchOffset)))
  }

  function OpSequential(op: MicroInst): Word {
    Words.Add(op.pc, op.size)
  }

  /** One op of the interpreter loop, PC included. */
  function MicroStep(op: MicroInst, c: MicroCpu): MicroCpu {
    if Taken(op, c) then
      (if op.op == OpBl then c.(lr := SetBit0(OpSequential(op))) else c).(pc := OpTarget(op))
    else ApplyEffect(Effect(op, c), c).(pc := OpSequential(op))
  }

  datatype MicroRunResult = MicroRunResult(cpu: MicroCpu, retired: nat)

  /** The value interpretMicroOps returns: execute up to `limit` ops, stop after a taken branch. */
  function MicroRun(ops: seq<MicroInst>, c: MicroCpu, limit: nat): (r: MicroRunResult)
    ensures r.retired <= limit && r.retired <= |ops|
    decreases |ops|
  {
    if ops == [] || limit == 0 then MicroRunResult(c, 0)
    else
      var c1 := MicroStep(ops[0], c);
      if Taken(ops[0], c) then MicroRunResult(c1, 1)
      else var rest := MicroRun(ops[1..], c1, limit - 1); rest.(retired := rest.retired + 1)
  }

  /** interpretMicroOps as the loop it is. */
  method InterpretMicroOps(ops: seq<MicroInst>, c: MicroCpu, limit: nat) returns (cpu: MicroCpu, retired: nat)
    ensures MicroRunResult(cpu, retired) == MicroRun(ops, c, limit)
  {
    hide MicroStep, Taken;
    cpu, retired := c, 0;
    var i := 0;
    while i < |ops| && retired < limit
      invariant 0 <= i == retired <= |ops| && retired <= limit
      invariant
        var rest := MicroRun(ops[i..], cpu, limit - retired);
        MicroRun(ops, c, limit) == rest.(retired := rest.retired + retired)
    {
      var op := ops[i];
      assert ops[i..][0] == op && ops[i..][1..] == ops[i + 1..];
      var take := Taken(op, cpu);
      cpu := MicroStep(op, cpu);
      retired := retired + 1;
      if take { return; }
      i := i + 1;
    }
  }
}
