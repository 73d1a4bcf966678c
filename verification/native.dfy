/** The mixed native IR: memory and indirect-branch lowering, stack plans, and the validated
    trace, after src/cpu/native_ir.cpp, native_stack_plan.hpp and src/cpu/native_trace.cpp. */
module Native {
  import opened Words
  import opened Cpu
  import opened Micro

  datatype NativeOp =
    | Integer | LoadWord | StoreWord | LoadByte | StoreByte | LoadHalf | StoreHalf
    | LoadByteSigned | LoadHalfSigned | BxLr | BlxReg

  datatype NativeInst = NativeInst(
    kind: NativeOp, integer: MicroInst, offset: Word, rd: nat, rn: nat,
    absolute: bool, absoluteAddress: Word)

  predicate IsMemory(op: NativeOp) {
    op != Integer && op != BxLr && op != BlxReg
  }

  predicate IsLoad(op: NativeOp) {
    op == LoadWord || op == LoadByte || op == LoadHalf || op == LoadByteSigned || op == LoadHalfSigned
  }

  function WidthOf(op: NativeOp): Width {
    match op
    case LoadByte | StoreByte | LoadByteSigned => One
    case LoadHalf | StoreHalf | LoadHalfSigned => Two
    case _ => Four
  }

  /** A loaded value, sign-extended for the signed loads. */
  function SignedLoad(op: NativeOp, value: Word): Word {
    if op == LoadByteSigned then SignExtend(value, One)
    else if op == LoadHalfSigned then SignExtend(value, Two)
    else value
  }

  /** A default-constructed lowered instruction: an integer no-op. */
  function BlankNative(): NativeInst {
    NativeInst(Integer,
      MicroInst(OpNop, 0, 0, 0, 0, AL, ShiftType.Lsl, 0, false, false, false, true, ExtUxtb, 0, 0, 0),
      0, 0, 0, false, 0)
  }

  // ---------------------------------------------------------------- lowering

  function LowerBlx(d: Decoded, canonical: Option<Decoded>): Lowered<NativeInst> {
    if canonical == Some(d) && d.condition == AL && d.form == RegisterValue && (d.rm < 13 || d.rm == 14)
    then Accepted(BlankNative().(kind := BlxReg, rn := d.rm))
    else Declined(BadShape)
  }

  function LowerBx(d: Decoded, canonical: Option<Decoded>): Lowered<NativeInst> {
    if canonical == Some(d) && d.rm == 14 && d.raw == 0x4770 && d.condition == AL && d.form == RegisterValue
    then Accepted(BlankNative().(kind := BxLr))
    else Declined(BadShape)
  }

  /** No operand field beyond base, offset and data register is in use. */
  predicate PlainAddressing(d: Decoded) {
    && d.index && !d.writeback && !d.setFlags && d.rm == 0 && d.ra == 0 && NoList(d.registerList)
    && d.shiftAmount == 0 && d.shiftType == ShiftType.Lsl && !d.fpDouble && d.branchOffset == 0
    && !d.immediateCarryValid && !d.immediateCarry
  }

  function MemoryOp(kind: InstrKind): NativeOp {
    match kind
    case Ldrb => LoadByte
    case Strb => StoreByte
    case Ldrh => LoadHalf
    case Strh => StoreHalf
    case Ldrsb => LoadByteSigned
    case Ldrsh => LoadHalfSigned
    case Str => StoreWord
    case _ => LoadWord
  }

  function LowerMemory(s: MicroSource): Lowered<NativeInst> {
    var d := s.decoded;
    var literal := d.kind == Ldr && d.form == Literal;
    if d.condition != AL then Declined(BadCondition)
    else if (s.size != 2 && s.size != 4) || d.is32Bit != (s.size == 4) then Declined(BadSize)
    else if s.pc % 2 != 0 then Declined(BadPc)
    else if d.rd >= 13 || (!literal && d.rn > 13) then Declined(BadRegister)
    else if literal then
      if d.rn != 15 || !PlainAddressing(d) then Declined(BadShape)
      else
        var base := AlignWord(Words.Add(s.pc, 4));
        Accepted(BlankNative().(kind := LoadWord, rd := d.rd, absolute := true,
                 absoluteAddress := if d.add then Words.Add(base, d.imm) else Words.Sub(base, d.imm)))
    else if d.form != Immediate || !d.add || !PlainAddressing(d) then Declined(BadShape)
    else Accepted(BlankNative().(kind := MemoryOp(d.kind), rd := d.rd, rn := d.rn, offset := d.imm))
  }

  predicate IsTransfer(kind: InstrKind) {
    match kind
    case Ldr | Str | Ldrb | Strb | Ldrh | Strh | Ldrsb | Ldrsh => true
    case _ => false
  }

  /** tryLowerNativeInst. `canonical` is decode16 of the raw encoding. */
  function LowerNative(s: MicroSource, canonical: Option<Decoded>): Lowered<NativeInst> {
    var d := s.decoded;
    if d.kind == Blx && s.size == 2 && s.pc % 2 == 0 then LowerBlx(d, canonical)
    else if d.kind == Bx && s.size == 2 && s.pc % 2 == 0 then LowerBx(d, canonical)
    else if IsTransfer(d.kind) then LowerMemory(s)
    else
      match Lower(s)
      case Accepted(inst) => Accepted(BlankNative().(integer := inst))
      case Declined(reason) => Declined(reason)
  }

  // ---------------------------------------------------------------- stack plans

  /** The set bits of a register list from `i` on, ascending. */
  function RegsFrom(list: RegList, i: nat): (r: seq<nat>)
    requires i <= 16
    ensures |r| == CountFrom(list, i)
    ensures forall k | 0 <= k < |r| :: i <= r[k] < 16 && list[r[k]]
    ensures forall j, k | 0 <= j < k < |r| :: r[j] < r[k]
    decreases 16 - i
  {
    if i == 16 then [] else if list[i] then [i] + RegsFrom(list, i + 1) else RegsFrom(list, i + 1)
  }

  predicate RegNumbers(regs: seq<nat>) {
    forall k | 0 <= k < |regs| :: regs[k] < 16
  }

  predicate StackListValid(list: RegList, push: bool) {
    && Count(list) != 0 && !list[13] && !(push && list[15]) && !(!push && list[14] && list[15])
  }

  /** NativeStackPlan: the registers to transfer in ascending order, empty for a list outside the ABI. */
  function StackRegs(list: RegList, push: bool): (r: seq<nat>)
    ensures RegNumbers(r)
  {
    if StackListValid(list, push) then RegsFrom(list, 0) else []
  }

  /** Clear the lowest set bit: `mask & (mask - 1)`. */
  function LowestFrom(mask: RegList, i: nat): (r: nat)
    requires i <= 16
    ensures i <= r <= 16
    ensures forall k | i <= k < r :: !mask[k]
    ensures r < 16 ==> mask[r]
    decreases 16 - i
  {
    if i == 16 || mask[i] then i else LowestFrom(mask, i + 1)
  }

  lemma {:induction false} RegsSkip(list: RegList, i: nat, j: nat)
    requires i <= j <= 16 && forall k | i <= k < j :: !list[k]
    ensures RegsFrom(list, i) == RegsFrom(list, j)
    decreases j - i
  {
    if i < j { RegsSkip(list, i + 1, j); }
  }

  lemma {:induction false} RegsAgree(a: RegList, b: RegList, i: nat)
    requires i <= 16 && forall k | i <= k < 16 :: a[k] == b[k]
    ensures RegsFrom(a, i) == RegsFrom(b, i)
    decreases 16 - i
  {
    if i < 16 { RegsAgree(a, b, i + 1); }
  }

  lemma TakeLowest(mask: RegList, low: nat, next: nat)
    requires low < next <= 16 && mask[low]
    requires forall k | low < k < next :: !mask[k]
    ensures RegsFrom(mask, low) == [low] + RegsFrom(mask[low := false], next)
  {
    RegsSkip(mask, low + 1, next);
    RegsAgree(mask, mask[low := false], next);
  }

  /** The NativeStackPlan constructor: repeatedly take the lowest set bit. */
  method BuildStackPlan(list: RegList, push: bool) returns (regs: seq<nat>)
    ensures regs == StackRegs(list, push)
  {
    hide StackListValid, RegsFrom, Count;
    regs := [];
    if !StackListValid(list, push) { return; }
    var mask := list;
    var low := LowestFrom(mask, 0);
    RegsSkip(mask, 0, low);
    while low < 16
      invariant |mask| == 16 && low <= 16 && (low < 16 ==> mask[low])
      invariant RegsFrom(list, 0) == regs + RegsFrom(mask, low)
      decreases 16 - low
    {
      var cleared: RegList := mask[low := false];
      var next := LowestFrom(cleared, low + 1);
      assert forall k | low < k < next :: mask[k] == cleared[k];
      TakeLowest(mask, low, next);
      regs := regs + [low];
      mask, low := cleared, next;
    }
    assert RegsFrom(mask, 16) == [] by { NoRegsLeft(mask); }
  }

  lemma NoRegsLeft(mask: RegList)
    ensures RegsFrom(mask, 16) == []
  {
  }

  // ---------------------------------------------------------------- traces

  const MAX_TRACE: nat := 64

  /** A recorded instruction of a candidate trace. `canonical` is decode16 of its encoding. */
  datatype TraceSource = TraceSource(
    decoded: Decoded, raw: Word, canonical: Option<Decoded>, pc: Word, size: int,
    expectedNextPc: Word, expectedTaken: bool, executionCycles: nat)

  /** A validated trace op. */
  datatype TraceOp = TraceOp(
    decoded: Decoded, native: NativeInst, pc: Word, size: int,
    expectedNextPc: Word, expectedTaken: bool, executionCycles: nat)

  predicate IsStack(d: Decoded) {
    d.kind == Push || d.kind == Pop
  }

  predicate PopsPc(d: Decoded) {
    d.kind == Pop && d.registerList[15]
  }

  predicate SourceShape(src: TraceSource) {
    && (src.size == 2 || src.size == 4) && src.pc % 2 == 0
    && src.decoded.is32Bit == (src.size == 4) && src.decoded.raw == src.raw
    && (src.size == 2 ==> src.raw < 0x1_0000)
  }

  predicate StackShape(src: TraceSource) {
    && src.size == 2 && src.canonical == Some(src.decoded) && src.decoded.form == RegisterList
    && StackListValid(src.decoded.registerList, src.decoded.kind == Push)
  }

  function SourceTarget(src: TraceSource, inst: MicroInst): Word {
    ClearBit0(Wrap(src.pc + 4 + (if inst.op == OpCbz || inst.op == OpCbnz then inst.imm else inst.branchOffset)))
  }

  /** `(pc & 0xfffffff0) == 0xfffffff0`: the address block of the basic EXC_RETURN tokens. */
  predicate InTokenBlock(value: Word) {
    value >= 0xffff_fff0
  }

  /** The recorded successor is one the op can have. */
  predicate EdgeValid(src: TraceSource, n: NativeInst) {
    var op := n.integer.op;
    var sequential := Words.Add(src.pc, src.size);
    var target := SourceTarget(src, n.integer);
    if n.kind == BxLr || n.kind == BlxReg then
      src.expectedTaken && src.expectedNextPc % 2 == 0 && !InTokenBlock(src.expectedNextPc)
    else if op == OpBl then src.expectedTaken && src.expectedNextPc == target
    else if op == OpB then src.expectedTaken && src.expectedNextPc == target && src.decoded.condition == AL
    else if op == OpCbz || op == OpCbnz then
      src.expectedNextPc == if src.expectedTaken then target else sequential
    else if op == BCond then
      && src.expectedNextPc == (if src.expectedTaken then target else sequential)
      && src.decoded.condition != AL && src.decoded.condition != NV
    else if PopsPc(src.decoded) then src.expectedTaken && src.expectedNextPc % 2 == 0
    else !src.expectedTaken && src.expectedNextPc == sequential
  }

  function LowerTraceSource(src: TraceSource): Lowered<NativeInst> {
    if IsStack(src.decoded) then if StackShape(src) then Accepted(BlankNative()) else Declined(BadShape)
    else LowerNative(MicroSource(src.decoded, src.pc, src.size), src.canonical)
  }

  /** Validation of one source; the enum-order checks of the original admit every lowered op. */
  function ValidateSource(src: TraceSource): Option<TraceOp> {
    if !SourceShape(src) then None
    else
      match LowerTraceSource(src)
      case Declined(_) => None
      case Accepted(n) =>
        if EdgeValid(src, n)
        then Some(TraceOp(src.decoded, n, src.pc, src.size, src.expectedNextPc, src.expectedTaken, src.executionCycles))
        else None
  }

  predicate TraceValid(sources: seq<TraceSource>, ops: seq<TraceOp>) {
    && 0 < |sources| <= MAX_TRACE && |ops| == |sources|
    && (forall i | 0 <= i < |sources| :: ValidateSource(sources[i]) == Some(ops[i]))
    && (forall i | 0 < i < |ops| :: ops[i].pc == ops[i - 1].expectedNextPc)
  }

  /** buildNativeTrace: a trace is accepted exactly when every source validates and every edge
      reaches the next op; a rejection commits nothing. */
  method BuildNativeTrace(sources: seq<TraceSource>) returns (plan: Option<seq<TraceOp>>)
    ensures plan.Some? ==> TraceValid(sources, plan.value)
    ensures plan.None? ==> forall ops: seq<TraceOp> :: !TraceValid(sources, ops)
  {
    hide ValidateSource;
    if |sources| == 0 || |sources| > MAX_TRACE { return None; }
    var ops: seq<TraceOp> := [];
    var i := 0;
    while i < |sources|
      invariant 0 <= i == |ops| <= |sources|
      invariant forall k | 0 <= k < i :: ValidateSource(sources[k]) == Some(ops[k])
      invariant forall k | 0 < k < i :: ops[k].pc == ops[k - 1].expectedNextPc
      invariant 0 < i < |sources| ==> sources[i].pc == ops[i - 1].expectedNextPc
    {
      var v := ValidateSource(sources[i]);
      if v.None? { return None; }
      assert v.value.pc == sources[i].pc && v.value.expectedNextPc == sources[i].expectedNextPc by {
        ValidatedFields(sources[i]);
      }
      if i + 1 < |sources| && sources[i].expectedNextPc != sources[i + 1].pc {
        forall ops': seq<TraceOp> | TraceValid(sources, ops')
          ensures false
        {
          assert ops'[i + 1].pc == ops'[i].expectedNextPc;
          assert ValidateSource(sources[i + 1]) == Some(ops'[i + 1]);
          ValidatedFields(sources[i]);
          ValidatedFields(sources[i + 1]);
        }
        return None;
      }
      ops := ops + [v.value];
      i := i + 1;
    }
    return Some(ops);
  }

  lemma ValidatedFields(src: TraceSource)
    ensures
      var v := ValidateSource(src);
      v.Some? ==>
        && v.value.pc == src.pc && v.value.size == src.size && v.value.decoded == src.decoded
        && v.value.expectedNextPc == src.expectedNextPc && v.value.expectedTaken == src.expectedTaken
        && v.value.executionCycles == src.executionCycles
  {
    hide EdgeValid, SourceShape, LowerTraceSource;
  }
}
