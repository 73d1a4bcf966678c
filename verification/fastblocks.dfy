/** Cached blocks run by fast handlers: block preparation, and the reversible scalar loop that
    admits each op against the cycle credit, after prepareJitBlock and
    executeTrustedReversibleJitBlockImpl in src/cpu/cortex_m4.cpp and classifyJitBoundary in
    src/cpu/jit.cpp. */
module FastBlocks {
  import opened Words
  import opened MathOps
  import opened Cpu
  import opened Native
  import opened Stack
  import opened Timing
  import opened Handlers
  import Blocks

  const CAPACITY: nat := 16

  // ---------------------------------------------------------------- preparing a block

  datatype JitBoundary = NoBoundary | ControlFlow | MemoryMayTrap | ExceptionOrSystem | Unsupported

  predicate LoadsThePc(d: Decoded) {
    d.rd == 15 || (LoadsMany(d) && d.registerList[15])
  }

  /** classifyJitBoundary. */
  function Boundary(d: Decoded): JitBoundary {
    match d.kind
    case Mov | Add | Adc | Sub | Sbc | Movw | Movt => if d.rd == 15 then ControlFlow else NoBoundary
    case Rsb | Cmp | Cmn | Tst | And | Orr | Eor | Bic | Mvn | Orn | Ubfx | Sxtb | Sxth | Uxtb | Uxth
      | Lsl | Lsr | Asr | Ror | Rrx | Nop => NoBoundary
    case Ldr | Str | Ldrb | Strb | Ldrh | Strh | Ldrsb | Ldrsh | Ldm | Stm | Push | Pop =>
      if LoadsThePc(d) then ControlFlow else MemoryMayTrap
    case B | Bl | Bx | Blx | Cbz | Cbnz => ControlFlow
    case It | Dmb | Dsb | Isb => ExceptionOrSystem
    case Math(_) => NoBoundary
    case Double(_) => if d.rd == 15 then ControlFlow else MemoryMayTrap
    case Other => Unsupported
  }

  /** Not-taken conditional branches do not end a block. */
  predicate Terminates(d: Decoded) {
    Boundary(d) == ControlFlow && !(d.kind in {B, Cbz, Cbnz} && d.condition != AL)
  }

  function Penalty(d: Decoded): nat {
    if Boundary(d) == ControlFlow then TakenBranchPenalty(d.kind) else 0
  }

  datatype Reversible = NotCompact | CompactMovImm | CompactMovReg | CompactAdd | CompactSub | CompactLdr | CompactStr

  /** classifyReversibleFast. */
  function ClassifyReversible(d: Decoded): Reversible {
    if d.condition != AL || d.setFlags then NotCompact
    else
      var fast := Classify(d);
      if fast == MovImm && d.rd < 13 then CompactMovImm
      else if fast == MovReg && d.rd < 13 && d.rm < 13 && d.shiftType == ShiftType.Lsl && d.shiftAmount == 0
        then CompactMovReg
      else if fast == AddImm && d.kind == InstrKind.Add && d.rd < 13 && d.rn < 13 then CompactAdd
      else if fast == SubImm && d.kind == InstrKind.Sub && d.rd < 13 && d.rn < 13 then CompactSub
      else if fast == LdrWordGpr then CompactLdr
      else if fast == StrWordGpr then CompactStr
      else NotCompact
  }

  /** One entry of a cached block. */
  datatype CachedOp = CachedOp(
    decoded: Decoded, pc: Word, size: int, base: nat, divide: bool, fast: JitFast, compact: Reversible, penalty: nat,
    terminator: bool)

  function EndOf(op: CachedOp): Word {
    Words.Add(op.pc, op.size)
  }

  predicate Blockable(code: Code, pc: Word) {
    pc in code && Boundary(code[pc].decoded) !in {ExceptionOrSystem, Unsupported}
  }

  /** The decoder's guarantees over a whole program. */
  predicate DecodedCode(code: Code) {
    forall pc | pc in code :: FastDecoded(code[pc].decoded) && code[pc].size in {2, 4}
  }

  predicate CachedFrom(code: Code, op: CachedOp) {
    && op.pc % 2 == 0 && Blockable(code, op.pc) && code[op.pc] == Fetched(op.decoded, op.size)
    && FastDecoded(op.decoded)
    && op.base == BasePipelineCycles(op.decoded) && op.divide == IsDivide(op.decoded.kind)
    && op.fast == Classify(op.decoded) && op.compact == ClassifyReversible(op.decoded)
    && op.penalty == Penalty(op.decoded) && op.terminator == Terminates(op.decoded)
  }

  predicate CachedBlock(code: Code, block: seq<CachedOp>) {
    && (forall i | 0 <= i < |block| :: CachedFrom(code, block[i]))
    && (forall i | 0 < i < |block| :: Follows(block, i))
  }

  predicate Follows(block: seq<CachedOp>, i: nat)
    requires 0 < i < |block|
  {
    block[i].pc == EndOf(block[i - 1]) && !block[i - 1].terminator
  }

  lemma CachedAppend(code: Code, block: seq<CachedOp>, op: CachedOp)
    requires CachedBlock(code, block) && CachedFrom(code, op)
    requires block != [] ==> op.pc == EndOf(block[|block| - 1]) && !block[|block| - 1].terminator
    ensures CachedBlock(code, block + [op])
  {
    hide CachedFrom, EndOf;
    var longer := block + [op];
    forall i | 0 <= i < |longer|
      ensures CachedFrom(code, longer[i])
    {
      if i < |block| { assert longer[i] == block[i]; }
    }
    forall i | 0 < i < |longer|
      ensures Follows(longer, i)
    {
      if i < |block| { assert Follows(block, i); }
    }
  }

  function NextPc(block: seq<CachedOp>, entry: Word): Word {
    if block == [] then entry else EndOf(block[|block| - 1])
  }

  /** prepareJitBlock: the longest straight run from `entry`, up to the capacity, that crosses no
      system boundary and stops after the first terminator. */
  method PrepareBlock(code: Code, entry: Word) returns (block: seq<CachedOp>)
    requires DecodedCode(code)
    ensures CachedBlock(code, block) && |block| <= CAPACITY
    ensures block != [] ==> block[0].pc == entry
    ensures
      || entry % 2 != 0 || |block| == CAPACITY || (block != [] && block[|block| - 1].terminator)
      || !Blockable(code, NextPc(block, entry))
  {
    hide FastDecoded, BasePipelineCycles, Classify, ClassifyReversible, Penalty, Terminates, Boundary, CachedFrom,
      CachedBlock, Blockable, EndOf;
    block := [];
    CachedNone(code);
    if entry % 2 != 0 { return; }
    var pc := entry;
    while |block| < CAPACITY
      invariant CachedBlock(code, block) && |block| <= CAPACITY
      invariant block != [] ==> block[0].pc == entry && !block[|block| - 1].terminator
      invariant pc == NextPc(block, entry) && pc % 2 == 0
      decreases CAPACITY - |block|
    {
      if !Blockable(code, pc) { return; }
      assert pc in code by { InCode(code, pc); }
      var d, size := code[pc].decoded, code[pc].size;
      var op := CachedOp(
        d, pc, size, BasePipelineCycles(d), IsDivide(d.kind), Classify(d), ClassifyReversible(d), Penalty(d),
          Terminates(d));
      CachedHere(code, op);
      CachedAppend(code, block, op);
      block := block + [op];
      if op.terminator { return; }
      pc := Words.Add(pc, size);
      NextIsEven(op);
    }
  }

  lemma CachedNone(code: Code)
    ensures CachedBlock(code, [])
  {
  }

  lemma NextIsEven(op: CachedOp)
    requires op.pc % 2 == 0 && op.size in {2, 4}
    ensures EndOf(op) == Words.Add(op.pc, op.size) && EndOf(op) % 2 == 0
  {
  }

  lemma InCode(code: Code, pc: Word)
    requires Blockable(code, pc)
    ensures pc in code
  {
    hide Boundary;
  }

  lemma CachedHere(code: Code, op: CachedOp)
    requires DecodedCode(code) && op.pc % 2 == 0 && Blockable(code, op.pc)
             && code[op.pc] == Fetched(op.decoded, op.size)
    requires op.base == BasePipelineCycles(op.decoded) && op.divide == IsDivide(op.decoded.kind)
    requires op.fast == Classify(op.decoded) && op.compact == ClassifyReversible(op.decoded)
    requires op.penalty == Penalty(op.decoded) && op.terminator == Terminates(op.decoded)
    ensures CachedFrom(code, op)
  {
    hide FastDecoded, BasePipelineCycles, Classify, ClassifyReversible, Penalty, Terminates, Boundary;
  }

  // ---------------------------------------------------------------- what a handled op keeps

  /** The core is still in Thumb state outside an IT block, and only control flow moved the PC. */
  predicate Keeps(d: Decoded, c: CpuState, after: CpuState) {
    && (Blocks.Ready(c) ==> Blocks.Ready(after))
    && (Boundary(d) != ControlFlow ==> after.r[15] == c.r[15])
  }

  /** Mode fields no ordinary register write touches. */
  predicate SameMode(c: CpuState, after: CpuState) {
    && after.halted == c.halted && after.thumb == c.thumb && after.psr.t == c.psr.t && after.itState == c.itState
  }

  lemma WriteKeeps(c: CpuState, i: nat, v: Word)
    ensures SameMode(c, WriteRegister(c, i, v)) && WriteRegister(c, i, v).psr == c.psr
    ensures i != 15 ==> WriteRegister(c, i, v).r[15] == c.r[15]
  {
  }

  lemma {:induction false} CommitKeepsMode(c: CpuState, list: RegList, reg: nat, loaded: Regs)
    requires reg <= 15
    ensures
      var after := CommitLoaded(c, list, reg, loaded);
      SameMode(c, after) && after.r[15] == c.r[15]
    decreases 15 - reg
  {
    hide WriteRegister;
    if reg < 15 {
      WriteKeeps(c, reg, loaded[reg]);
      CommitKeepsMode(if list[reg] then WriteRegister(c, reg, loaded[reg]) else c, list, reg + 1, loaded);
    }
  }

  /** The kinds data handlers serve, and the register each may write. */
  lemma DataKinds(d: Decoded)
    requires IsDataFast(Classify(d)) && FastDecoded(d)
    ensures d.kind in {Mov, Movw, Movt, InstrKind.Add, Adc, InstrKind.Sub, Sbc, Rsb, Cmp, Cmn, Tst}
            || d.kind in OTHER_DATA
    ensures d.kind !in {Cmp, Cmn, Tst, Nop} ==> d.rd != 15
  {
    hide TransferForm, PlainWord;
  }

  const OTHER_DATA: set<InstrKind> :=
    {And, Orr, Eor, Bic, Mvn, Orn, Ubfx, Sxtb, Sxth, Uxtb, Uxth, InstrKind.Lsl, InstrKind.Lsr, InstrKind.Asr,
      InstrKind.Ror, InstrKind.Rrx, Nop}

  /** Every effect keeps xPSR.T and writes at most `rd`. */
  predicate Plain(d: Decoded, c: CpuState, e: Alu) {
    e.psr.t == c.psr.t && (e.dest.Some? ==> e.dest.value == d.rd && d.kind !in {Cmp, Cmn, Tst, Nop})
  }

  lemma MovesPlain(d: Decoded, c: CpuState)
    ensures d.kind == Mov ==> Plain(d, c, MovAlu(d, c))
    ensures d.kind in {Movw, Movt} ==> Plain(d, c, MovHalfAlu(d, c))
    ensures d.kind in {InstrKind.Lsl, InstrKind.Lsr, InstrKind.Asr, InstrKind.Ror, InstrKind.Rrx} ==>
            Plain(d, c, ShiftAlu(d, c))
    ensures d.kind in {Ubfx, Sxtb, Sxth, Uxtb, Uxth} ==> Plain(d, c, FieldAlu(d, c))
  {
    hide ShiftC, ShiftedOperand, ReadRegister, ExtractField, ExtendValue, RotateRight;
  }

  lemma ArithPlain(d: Decoded, c: CpuState)
    ensures d.kind in {InstrKind.Add, Adc, InstrKind.Sub, Sbc} ==> Plain(d, c, AddSubAlu(d, c))
    ensures d.kind == Rsb ==> Plain(d, c, RsbAlu(d, c))
    ensures Plain(d, c, CompareAlu(d, c)) && Plain(d, c, TstAlu(d, c))
    ensures d.kind in {And, Orr, Eor, Bic, Mvn, Orn} ==> Plain(d, c, LogicAlu(d, c))
  {
    hide ShiftedOperand, ReadRegister, AddWithCarry, LogicValue, Words.And, ClearBit0, AlignWord;
  }

  lemma AluPlain(d: Decoded, c: CpuState)
    ensures Plain(d, c, AluOf(d, c))
  {
    hide MovAlu, MovHalfAlu, ShiftAlu, FieldAlu, AddSubAlu, RsbAlu, CompareAlu, TstAlu, LogicAlu;
    MovesPlain(d, c);
    ArithPlain(d, c);
  }

  lemma DataExecutes(d: Decoded, c: CpuState, m: Memory)
    requires IsDataFast(Classify(d)) && FastDecoded(d)
    ensures Execute(d, c, m) == Done(if d.kind == Nop then c else ApplyAlu(AluOf(d, c), c), m)
  {
    hide Classify, FastDecoded, ApplyAlu, MovAlu, MovHalfAlu, ShiftAlu, FieldAlu, AddSubAlu, RsbAlu, CompareAlu, TstAlu,
      LogicAlu;
    DataKinds(d);
  }

  lemma PlainKeeps(d: Decoded, c: CpuState, e: Alu)
    requires Plain(d, c, e) && (e.dest.Some? ==> d.rd != 15)
    ensures SameMode(c, ApplyAlu(e, c)) && ApplyAlu(e, c).r[15] == c.r[15]
  {
    hide WriteRegister;
    WriteKeeps(c, d.rd, e.value);
  }

  lemma DataKeeps(d: Decoded, c: CpuState, m: Memory)
    requires IsDataFast(Classify(d)) && FastDecoded(d)
    ensures Keeps(d, c, Execute(d, c, m).cpu)
  {
    hide Classify, FastDecoded, Execute, ApplyAlu, AluOf, Boundary;
    DataKinds(d);
    DataExecutes(d, c, m);
    AluPlain(d, c);
    if d.kind != Nop { PlainKeeps(d, c, AluOf(d, c)); }
  }

  lemma TransferKeeps(d: Decoded, c: CpuState, m: Memory)
    requires IsTransferFast(Classify(d)) && FastDecoded(d) && Execute(d, c, m).stop == StepComplete
    ensures Keeps(d, c, Execute(d, c, m).cpu)
  {
    hide Classify, Execute, Boundary, WriteRegister, Load, Store, OffsetAddress, TransferAddress, AccessWidth,
      LoadedValue, ReadRegister;
    TransferKinds(d);
    TransferClass(d, c, m);
    var a := OffsetAddress(d, c);
    if IsStore(d.kind) {
      WriteKeeps(c, d.rn, a);
    } else {
      var raw := Load(m, TransferAddress(d, c), AccessWidth(d.kind)).value;
      var c1 := WriteRegister(c, d.rd, LoadedValue(d.kind, raw));
      WriteKeeps(c, d.rd, LoadedValue(d.kind, raw));
      WriteKeeps(c1, d.rn, a);
    }
  }

  lemma BranchKeeps(d: Decoded, c: CpuState, m: Memory)
    requires IsBranchFast(Classify(d)) && Execute(d, c, m).stop == StepComplete
    ensures Keeps(d, c, Execute(d, c, m).cpu)
  {
    hide Classify, Execute, Boundary, BranchTarget, ReadRegister, IsExceptionReturn, SetBit0, Words.Add, ClearBit0;
    BranchKinds(d);
    BranchClass(d, c, m);
    BranchMoves(d);
  }

  lemma BranchMoves(d: Decoded)
    requires IsBranchFast(Classify(d))
    ensures Boundary(d) == ControlFlow
  {
    hide TransferForm, PlainWord;
  }

  lemma BulkMoves(d: Decoded)
    requires d.kind in {Push, Pop, Ldm, Stm} && LoadsMany(d) && d.registerList[15]
    ensures Boundary(d) == ControlFlow
  {
  }

  lemma WritebackKeeps(d: Decoded, c: CpuState, a: Word)
    requires FastDecoded(d)
    ensures SameMode(c, Writeback(d, c, a)) && Writeback(d, c, a).r[15] == c.r[15]
  {
    hide WriteRegister, Classify;
    WriteKeeps(c, d.rn, a);
  }

  lemma BulkKeeps(d: Decoded, c: CpuState, m: Memory)
    requires IsBulkFast(Classify(d)) && FastDecoded(d) && Execute(d, c, m).stop == StepComplete
    ensures Keeps(d, c, Execute(d, c, m).cpu)
  {
    hide Classify, FastDecoded, Execute, Boundary, LoadMultiple, CommitLoaded, StoreMultiple, Writeback,
      IsExceptionReturn, ReadRegister, Words.Add, Words.Sub, Count, NoWords, ClearBit0;
    BulkKinds(d);
    BulkClass(d, c, m);
    if LoadsMany(d) {
      if d.registerList[15] { BulkMoves(d); }
      var loaded := LoadMultiple(m, d.registerList, 0, BulkStart(d, c), NoWords()).value;
      var c1 := CommitLoaded(c, d.registerList, 0, loaded);
      CommitKeepsMode(c, d.registerList, 0, loaded);
      WritebackKeeps(d, c1, FinalBase(d, c));
    } else {
      WritebackKeeps(d, c, FinalBase(d, c));
    }
  }

  lemma PairKeeps(c: CpuState, rd: nat, ra: nat, first: Word, second: Word)
    requires rd != 15 && ra != 15
    ensures SameMode(c, WritePair(c, rd, ra, first, second)) && WritePair(c, rd, ra, first, second).r[15] == c.r[15]
  {
    hide WriteRegister;
    WriteKeeps(c, rd, first);
    WriteKeeps(WriteRegister(c, rd, first), ra, second);
  }

  /** Multiply, divide and lane operations write ordinary registers and at most N, Z and GE. */
  lemma MathResult(op: MathKind, d: Decoded, c: CpuState)
    requires d.rd != 15 && (op == Umull || op == Smull ==> d.ra != 15)
    ensures SameMode(c, ExecMath(op, d, c)) && ExecMath(op, d, c).r[15] == c.r[15]
  {
    hide WriteRegister, ReadRegister, LowProduct, Accumulate, LongProduct, LowHalf, HighHalf, UnsignedQuotient,
      SignedQuotient, SingleValue, ClearField, LaneSums, LaneCarries, LaneSelect, WritePair;
    forall v: Word
      ensures SameMode(c, WriteRegister(c, d.rd, v)) && WriteRegister(c, d.rd, v).r[15] == c.r[15]
    {
      WriteKeeps(c, d.rd, v);
    }
    if op == Umull || op == Smull {
      var p := LongProduct(op == Smull, ReadRegister(c, d.rn), ReadRegister(c, d.rm));
      PairKeeps(c, d.rd, d.ra, LowHalf(p), HighHalf(p));
    }
  }

  lemma MathKeeps(d: Decoded, c: CpuState, m: Memory)
    requires IsMathFast(Classify(d)) && FastDecoded(d)
    ensures Keeps(d, c, Execute(d, c, m).cpu)
  {
    hide Classify, Execute, ExecMath, Boundary;
    MathClass(d, c, m);
    MathResult(d.kind.op, d, c);
  }

  lemma DoubleKeeps(d: Decoded, c: CpuState, m: Memory)
    requires Classify(d) == LdrdStrd && FastDecoded(d) && Execute(d, c, m).stop == StepComplete
    ensures Keeps(d, c, Execute(d, c, m).cpu)
  {
    hide Classify, Execute, Boundary, WritePair, Load, Store, DoubleOffset, DoubleAddress, ReadRegister, Writeback,
      FastDecoded;
    DoubleKinds(d);
    assert Execute(d, c, m) == ExecDouble(d.kind.load, d, c, m) by { DoubleExecutes(d, c, m); }
    assert d.rd != 15 && d.ra != 15 by { DoubleRegisters(d); }
    WritebackKeeps(d, c, DoubleOffset(d, c));
    if d.kind.load {
      var first := Load(m, DoubleAddress(d, c), Four).value;
      var second := Load(m, Words.Add(DoubleAddress(d, c), 4), Four).value;
      PairKeeps(c, d.rd, d.ra, first, second);
      WritebackKeeps(d, WritePair(c, d.rd, d.ra, first, second), DoubleOffset(d, c));
    }
  }

  lemma DoubleExecutes(d: Decoded, c: CpuState, m: Memory)
    requires d.kind.Double?
    ensures Execute(d, c, m) == ExecDouble(d.kind.load, d, c, m)
  {
    hide ExecDouble;
  }

  lemma DoubleRegisters(d: Decoded)
    requires d.kind.Double? && FastDecoded(d)
    ensures d.rd != 15 && d.ra != 15
  {
    hide Classify;
  }

  lemma Classes(fast: JitFast)
    ensures fast != Generic ==>
              || IsDataFast(fast) || IsBranchFast(fast) || IsTransferFast(fast) || IsBulkFast(fast) || IsMathFast(fast)
              || fast == LdrdStrd
  {
  }

  /** Whatever a fast handler completes keeps the core runnable, and only control flow moves the PC. */
  lemma HandledKeeps(d: Decoded, c: CpuState, m: Memory)
    requires Classify(d) != Generic && FastDecoded(d) && Execute(d, c, m).stop == StepComplete
    ensures Keeps(d, c, Execute(d, c, m).cpu)
  {
    hide Classify, FastDecoded, Execute, Keeps, IsDataFast, IsBranchFast, IsTransferFast, IsBulkFast, IsMathFast;
    var fast := Classify(d);
    Classes(fast);
    if IsDataFast(fast) { DataKeeps(d, c, m); }
    else if IsMathFast(fast) { MathKeeps(d, c, m); }
    else if fast == LdrdStrd { DoubleKeeps(d, c, m); }
    else if IsBranchFast(fast) { BranchKeeps(d, c, m); }
    else if IsTransferFast(fast) { TransferKeeps(d, c, m); }
    else { BulkKeeps(d, c, m); }
  }

  // ---------------------------------------------------------------- compact handlers

  /** What classifyReversibleFast proves of a compact op. */
  lemma CompactKinds(d: Decoded)
    requires ClassifyReversible(d) != NotCompact
    ensures d.condition == AL && !d.setFlags && d.rd < 13 && Boundary(d) != ControlFlow && !IsDivide(d.kind)
    ensures ClassifyReversible(d) in {CompactLdr, CompactStr} ==> PlainWord(d) && IsTransferFast(Classify(d))
    ensures ClassifyReversible(d) in {CompactMovImm, CompactMovReg} ==> Classify(d) in {MovImm, MovReg}
    ensures ClassifyReversible(d) in {CompactAdd, CompactSub} ==> Classify(d) in {AddImm, SubImm} && d.rn < 13
    ensures ClassifyReversible(d) == CompactMovImm ==> Classify(d) == MovImm
    ensures ClassifyReversible(d) == CompactMovReg ==>
              Classify(d) == MovReg && d.rm < 13 && d.shiftType == ShiftType.Lsl && d.shiftAmount == 0
    ensures ClassifyReversible(d) == CompactAdd ==> d.kind == InstrKind.Add
    ensures ClassifyReversible(d) == CompactSub ==> d.kind == InstrKind.Sub
    ensures ClassifyReversible(d) == CompactLdr ==> d.kind == Ldr
    ensures ClassifyReversible(d) == CompactStr ==> d.kind == Str
  {
  }

  lemma MathAccepts(d: Decoded, pc: Word, c: CpuState, m: Memory, bus: FastBus)
    requires IsMathFast(Classify(d))
    ensures Accepts(d, pc, c, m, bus)
  {
    hide Classify;
  }

  lemma DataAccepts(d: Decoded, pc: Word, c: CpuState, m: Memory, bus: FastBus)
    requires IsDataFast(Classify(d))
    ensures Accepts(d, pc, c, m, bus)
  {
    hide Classify;
  }

  lemma ReadsLow(c: CpuState, i: nat)
    requires i < 13
    ensures ReadRegister(c, i) == c.r[i]
    ensures forall v: Word :: WriteRegister(c, i, v) == c.(r := c.r[i := v])
  {
  }

  lemma CompactMoves(d: Decoded, c: CpuState, m: Memory)
    requires ClassifyReversible(d) in {CompactMovImm, CompactMovReg}
    ensures Execute(d, c, m) ==
            Done(c.(r := c.r[d.rd := if ClassifyReversible(d) == CompactMovImm then d.imm else c.r[d.rm]]), m)
  {
    hide Execute, Classify, ClassifyReversible, ReadRegister, WriteRegister, ShiftC;
    CompactKinds(d);
    MovClass(d, c, m);
    ReadsLow(c, d.rd);
    if ClassifyReversible(d) == CompactMovReg {
      ReadsLow(c, d.rm);
      ShiftByZero(c.r[d.rm], c.psr.c);
    }
  }

  /** Adding the complement and one is subtraction modulo 2^32. */
  lemma SubtractIsAdd(x: Word, y: Word)
    ensures AddWithCarry(x, Words.Not(y), true).value == Words.Sub(x, y)
    ensures AddWithCarry(x, y, false).value == Words.Add(x, y)
  {
    WrapNear(x - y);
    WrapNear(x + (0xffff_ffff - y) + 1);
  }

  lemma CompactSums(d: Decoded, c: CpuState, m: Memory)
    requires ClassifyReversible(d) in {CompactAdd, CompactSub}
    ensures
      var value := if ClassifyReversible(d) == CompactAdd then Words.Add(c.r[d.rn], d.imm)
        else Words.Sub(c.r[d.rn], d.imm);
      Execute(d, c, m) == Done(c.(r := c.r[d.rd := value]), m)
  {
    hide Execute, Classify, ClassifyReversible, ReadRegister, WriteRegister, AddWithCarry, Words.Add, Words.Sub,
      Words.Not, SetNzcv, AlignWord, ClearBit0;
    CompactKinds(d);
    AddSubClass(d, c, m);
    ReadsLow(c, d.rd);
    ReadsLow(c, d.rn);
    SubtractIsAdd(c.r[d.rn], d.imm);
  }

  lemma CompactWords(d: Decoded, pc: Word, c: CpuState, m: Memory, bus: FastBus)
    requires ClassifyReversible(d) in {CompactLdr, CompactStr} && PlainWord(d)
    ensures
      var a := Words.Add(c.r[d.rn], d.imm);
      if ClassifyReversible(d) == CompactLdr then
        var value := TryRead(bus, pc, a, Four, m);
        && (Accepts(d, pc, c, m, bus) <==> value.Some?)
        && (value.Some? ==> Execute(d, c, m) == Done(c.(r := c.r[d.rd := value.value]), m))
      else
        var written := TryWrite(bus, pc, a, Four, c.r[d.rd], m);
        && (Accepts(d, pc, c, m, bus) <==> written.Some?)
        && (written.Some? ==> Execute(d, c, m) == Done(c, written.value))
  {
    hide Execute, Accepts, Classify, ClassifyReversible, ReadRegister, WriteRegister, Load, Store, TransferAddress,
      OffsetAddress, Words.Add, AccessWidth;
    CompactKinds(d);
    TransferKinds(d);
    TransferClass(d, c, m);
    TransferAccepts(d, pc, c, m, bus);
    PlainTransfer(d, c);
  }

  /** The forms inlined in the loop. They read no PC, so the instruction address may be
      installed after they run. */
  method CompactHandler(d: Decoded, pc: Word, c: CpuState, m: Memory, bus: FastBus)
    returns (handled: bool, after: CpuState, mem: Memory)
    requires ClassifyReversible(d) != NotCompact
    ensures handled <==> Accepts(d, pc, c.(instructionAddress := pc), m, bus)
    ensures handled ==> Execute(d, c.(instructionAddress := pc), m) == Done(after.(instructionAddress := pc), mem)
  {
    hide Execute, Accepts, Classify, ClassifyReversible, TryRead, TryWrite, Words.Add, Words.Sub;
    CompactKinds(d);
    handled, after, mem := true, c, m;
    var form := ClassifyReversible(d);
    ghost var entered := c.(instructionAddress := pc);
    if form == CompactMovImm {
      CompactMoves(d, entered, m);
      DataAccepts(d, pc, entered, m, bus);
      after := c.(r := c.r[d.rd := d.imm]);
    } else if form == CompactMovReg {
      CompactMoves(d, entered, m);
      DataAccepts(d, pc, entered, m, bus);
      after := c.(r := c.r[d.rd := c.r[d.rm]]);
    } else if form == CompactAdd {
      CompactSums(d, entered, m);
      DataAccepts(d, pc, entered, m, bus);
      after := c.(r := c.r[d.rd := Words.Add(c.r[d.rn], d.imm)]);
    } else if form == CompactSub {
      CompactSums(d, entered, m);
      DataAccepts(d, pc, entered, m, bus);
      after := c.(r := c.r[d.rd := Words.Sub(c.r[d.rn], d.imm)]);
    } else if form == CompactLdr {
      CompactWords(d, pc, entered, m, bus);
      var value := TryRead(bus, pc, Words.Add(c.r[d.rn], d.imm), Four, m);
      if value.None? { handled := false; return; }
      after := c.(r := c.r[d.rd := value.value]);
    } else {
      CompactWords(d, pc, entered, m, bus);
      var written := TryWrite(bus, pc, Words.Add(c.r[d.rn], d.imm), Four, c.r[d.rd], m);
      if written.None? { handled := false; return; }
      mem := written.value;
    }
  }

  // ---------------------------------------------------------------- one op of the loop

  /** Why the loop stops before an op, in the order it tests. */
  datatype Verdict = Admitted | PcElsewhere | NoHandler | CreditShort | ChargeTooLarge | AccessDeclined

  predicate Passes(op: CachedOp, c: CpuState) {
    ConditionPasses(op.decoded.condition, c.psr)
  }

  function StallOf(op: CachedOp, budget: Option<Blocks.Budget>, stall: StallFn): nat {
    match budget
    case None => 0
    case Some(b) => stall(op.pc, Sequential(b.fetch, op.pc))
  }

  /** Pipeline cycles of an op before any refill: a division costs what its divisor costs. */
  function OwnCycles(op: CachedOp, c: CpuState): nat {
    if !Passes(op, c) then 1 else if op.divide then DivideCycles(ReadRegister(c, op.decoded.rm)) else op.base
  }

  /** The bound the loop admits an op with: its cost as if its branch were taken. */
  function Worst(op: CachedOp, c: CpuState, budget: Option<Blocks.Budget>, stall: StallFn): nat {
    OwnCycles(op, c) + (if Passes(op, c) then op.penalty else 0) + StallOf(op, budget, stall)
  }

  function Judge(
    op: CachedOp, c: CpuState, m: Memory, budget: Option<Blocks.Budget>, stall: StallFn, bus: FastBus): Verdict
  {
    if c.r[15] != op.pc then PcElsewhere
    else if op.fast == Generic then NoHandler
    else if budget.Some? && Worst(op, c, budget, stall) > budget.value.remaining then CreditShort
    else if budget.Some? && Worst(op, c, budget, stall) > 0xffff then ChargeTooLarge
    else if Passes(op, c) && !Accepts(op.decoded, op.pc, Entered(c, op.size), m, bus) then AccessDeclined
    else Admitted
  }

  /** Outside an IT block: the executor arm when the condition passes, else one idle cycle. */
  lemma RetireOutsideIt(d: Decoded, size: int, c: CpuState, m: Memory)
    requires Blocks.Ready(c) && d.kind != It
    ensures
      var c1 := Entered(c, size);
      Retire(d, size, c, m) ==
        if !ConditionPasses(d.condition, c.psr) then StepResult(c1, m, StepComplete, 1)
        else
          var e := Execute(d, c1, m);
          StepResult(e.cpu, e.mem, e.stop,
                     LiveCycles(d, c)
                     + (if e.stop == StepComplete && e.cpu.r[15] != Words.Add(c.r[15], size)
                       then TakenBranchPenalty(d.kind) else 0))
  {
    hide Execute, ConditionPasses, LiveCycles, TakenBranchPenalty, Words.Add;
  }

  /** A cached op's charge once retired from `c`: its own cycles, plus the refill if the PC left the
      sequence. */
  function Cycles(op: CachedOp, c: CpuState, next: Word): nat {
    OwnCycles(op, c) + (if Passes(op, c) && next != EndOf(op) then op.penalty else 0)
  }

  /** An admitted op whose handler reproduced the executor is one checked step. */
  lemma AdmittedIsStep(code: Code, op: CachedOp, c: CpuState, m: Memory, after: CpuState, mem: Memory)
    requires CachedFrom(code, op) && Blocks.Ready(c) && c.r[15] == op.pc && op.fast != Generic
    requires if Passes(op, c) then Execute(op.decoded, Entered(c, op.size), m) == Done(after, mem)
             else after == Entered(c, op.size) && mem == m
    ensures Step(code, c, m) == StepResult(after, mem, StepComplete, Cycles(op, c, after.r[15]))
    ensures FetchedSize(code, op.pc) == op.size
    ensures Blocks.Ready(after)
  {
    hide Execute, Step, Retire, Classify, FastDecoded, BasePipelineCycles, TakenBranchPenalty, ConditionPasses,
      ClassifyReversible, Boundary, Terminates, FetchedSize, Words.Add, DivideCycles, ReadRegister, IsDivide;
    var d := op.decoded;
    Blocks.StepAt(code, d, op.size, c, m);
    NotIt(d);
    RetireOutsideIt(d, op.size, c, m);
    EnteredReady(c, op.size);
    if Passes(op, c) { HandledKeeps(d, Entered(c, op.size), m); }
  }

  lemma NotIt(d: Decoded)
    requires Classify(d) != Generic
    ensures d.kind != It
  {
  }

  lemma EnteredReady(c: CpuState, size: int)
    requires Blocks.Ready(c)
    ensures Blocks.Ready(Entered(c, size)) && Entered(c, size).r[15] == Words.Add(c.r[15], size)
  {
    hide Words.Add;
  }

  /** Undoing the speculative PC fields restores the core. */
  lemma Restores(c: CpuState, next: Word, pc: Word)
    requires c.r[15] == pc
    ensures WithPc(WithPc(c, next), pc) == c
    ensures WithPc(WithPc(c.(instructionAddress := pc), next), pc).(instructionAddress := c.instructionAddress) == c
  {
    assert c.r[15 := next][15 := pc] == c.r;
  }

  // ---------------------------------------------------------------- the loop

  class FastCore {
    var cpu: CpuState
    var mem: Memory
    var budget: Option<Blocks.Budget>

    /** executeJitFast: with the PC fields installed, the handler declines and changes nothing, or
        leaves the core and memory exactly as the executor does. It accepts exactly when the
        accesses are backed and a loaded or exchanged target is a Thumb address or EXC_RETURN. */
    method ExecuteJitFast(d: Decoded, pc: Word, bus: FastBus) returns (handled: bool)
      requires FastDecoded(d) && cpu.instructionAddress == pc
      modifies this`cpu, this`mem
      ensures handled <==> Accepts(d, pc, old(cpu), old(mem), bus)
      ensures !handled ==> cpu == old(cpu) && mem == old(mem)
      ensures handled ==> Execute(d, old(cpu), old(mem)) == Done(cpu, mem)
    {
      hide Execute, Accepts, Classify, FastDecoded, IsDataFast, IsBranchFast, IsTransferFast, IsBulkFast, IsMathFast;
      var fast := Classify(d);
      Classes(fast);
      var after, m1 := cpu, mem;
      if IsDataFast(fast) {
        DataAccepts(d, pc, cpu, mem, bus);
        handled := true;
        after := DataHandler(d, cpu, mem);
      } else if IsMathFast(fast) {
        MathAccepts(d, pc, cpu, mem, bus);
        handled := true;
        after := MathHandler(d, cpu, mem);
      } else if fast == LdrdStrd {
        handled, after, m1 := DoubleHandler(d, pc, cpu, mem, bus);
      } else if IsBranchFast(fast) {
        handled, after := BranchHandler(d, pc, cpu, mem, bus);
      } else if IsTransferFast(fast) {
        handled, after, m1 := TransferHandler(d, pc, cpu, mem, bus);
      } else if !IsBulkFast(fast) {
        GenericDeclines(d, pc, cpu, mem, bus);
        handled := false;
      } else if LoadsMany(d) {
        handled, after := LoadHandler(d, pc, cpu, mem, bus);
      } else {
        handled, after, m1 := StoreHandler(d, pc, cpu, mem, bus);
      }
      if handled { cpu, mem := after, m1; }
    }

    /** One turn of the reversible loop. The op retires as one checked step with its exact charge,
        or nothing changes and the verdict names the first test that failed. */
    method StepCached(
      op: CachedOp, stall: StallFn, bus: FastBus, ghost code: Code) returns (verdict: Verdict, cycles: nat)
      requires CachedFrom(code, op) && Blocks.Ready(cpu)
      modifies this
      ensures verdict == Judge(op, old(cpu), old(mem), old(budget), stall, bus)
      ensures verdict != Admitted ==> cpu == old(cpu) && mem == old(mem) && budget == old(budget)
      ensures verdict == Admitted ==>
              && Step(code, old(cpu), old(mem)) == StepResult(cpu, mem, StepComplete, cycles)
              && FetchedSize(code, op.pc) == op.size && old(cpu).r[15] == op.pc
              && Blocks.Ready(cpu)
              && budget.Some? == old(budget).Some?
              && (old(budget).Some? ==>
                    && budget.value.remaining == old(budget).value.remaining - cycles - StallOf(op, old(budget), stall)
                    && budget.value.fetch == Fetch(true, EndOf(op)))
    {
      hide Execute, Accepts, Step, CachedFrom, ConditionPasses, Words.Add, FetchedSize, Blocks.Ready, Entered,
        DivideCycles, ReadRegister;
      verdict, cycles := PcElsewhere, 0;
      if cpu.r[15] != op.pc { return; }
      if op.fast == Generic { verdict := NoHandler; return; }
      ghost var c0, m0 := cpu, mem;
      CachedParts(code, op);
      var compact := op.compact != NotCompact;
      AlwaysPasses(op.decoded, cpu.psr);
      var passed := compact || op.decoded.condition == AL || ConditionPasses(op.decoded.condition, cpu.psr);
      cycles := if compact then op.base
                else if !passed then 1
                else if op.divide then DivideCycles(ReadRegister(cpu, op.decoded.rm)) else op.base;
      var stallCycles := StallOf(op, budget, stall);
      var worst := cycles + (if passed && !compact then op.penalty else 0) + stallCycles;
      if budget.Some? && worst > budget.value.remaining { verdict := CreditShort; return; }
      if budget.Some? && worst > 0xffff { verdict := ChargeTooLarge; return; }

      var handled := Dispatch(op, passed, bus);
      if !handled { verdict := AccessDeclined; return; }
      AdmittedIsStep(code, op, c0, m0, cpu, mem);
      if passed && cpu.r[15] != EndOf(op) { cycles := cycles + op.penalty; }
      if budget.Some? {
        budget := Some(Blocks.Budget(budget.value.remaining - cycles - stallCycles, Fetch(true, EndOf(op))));
      }
      verdict := Admitted;
    }

    /** The reversible loop over ops `first..limit` of a cached block. Retiring k ops is k checked
        steps in core, memory and pipeline cycles; under a budget the credit falls by exactly their
        charge with fetch stalls and never below zero. The loop stops only at the limit, after an
        op that left the sequence or ends the block, or before an op it may not admit. */
    method RunBlock(block: seq<CachedOp>, first: nat, limit: nat, stall: StallFn, bus: FastBus, ghost code: Code)
      returns (count: nat, total: nat)
      requires CachedBlock(code, block) && Blocks.Ready(cpu) && first <= limit <= |block|
      modifies this
      ensures first <= count <= limit && Blocks.Ready(cpu)
      ensures Steps(code, old(cpu), old(mem), count - first) == Some(RunState(cpu, mem, total))
      ensures Settled(code, stall, old(cpu), old(mem), old(budget), count - first, cpu, mem, budget)
      ensures
        || count == limit
        || (count > first && LeavesBlock(block[count - 1], cpu))
        || Judge(block[count], cpu, mem, budget, stall, bus) != Admitted
    {
      hide Steps, ChargedSteps, Judge, CachedFrom, Step, FetchedSize, EndOf, Blocks.Ready, Settled, LeavesBlock;
      count, total := first, 0;
      ghost var c0, m0, b0 := cpu, mem, budget;
      NothingRetired(code, stall, c0, m0, b0);
      while count < limit
        invariant first <= count <= limit && Blocks.Ready(cpu)
        invariant Steps(code, c0, m0, count - first) == Some(RunState(cpu, mem, total))
        invariant Settled(code, stall, c0, m0, b0, count - first, cpu, mem, budget)
        decreases limit - count
      {
        var op := block[count];
        ghost var c1, m1, b1 := cpu, mem, budget;
        var verdict, cycles := StepCached(op, stall, bus, code);
        if verdict != Admitted { return; }
        OneMore(code, c0, m0, count - first, RunState(c1, m1, total));
        OneMoreSettled(code, stall, op, c0, m0, b0, count - first, c1, m1, b1, cpu, mem, budget, cycles);
        total := total + cycles;
        count := count + 1;
        if LeavesBlock(op, cpu) { return; }
      }
    }

    /** Install the PC fields, run the handler, and take the fields back if it declines. */
    method Dispatch(op: CachedOp, passed: bool, bus: FastBus) returns (handled: bool)
      requires FastDecoded(op.decoded) && cpu.r[15] == op.pc
      requires op.compact == ClassifyReversible(op.decoded) && (op.compact != NotCompact ==> passed)
      modifies this`cpu, this`mem
      ensures handled <==> (passed ==> Accepts(op.decoded, op.pc, Entered(old(cpu), op.size), old(mem), bus))
      ensures !handled ==> cpu == old(cpu) && mem == old(mem)
      ensures handled && passed ==> Execute(op.decoded, Entered(old(cpu), op.size), old(mem)) == Done(cpu, mem)
      ensures handled && !passed ==> cpu == Entered(old(cpu), op.size) && mem == old(mem)
    {
      hide Execute, Accepts, FastDecoded, ClassifyReversible, Words.Add;
      var compact := op.compact != NotCompact;
      var previous := cpu.instructionAddress;
      var next := EndOf(op);
      Restores(cpu, next, op.pc);
      if !compact { cpu := cpu.(instructionAddress := op.pc); }
      cpu := WithPc(cpu, next);
      handled := true;
      if compact {
        var after, m1;
        handled, after, m1 := CompactHandler(op.decoded, op.pc, cpu, mem, bus);
        if handled { cpu, mem := after, m1; }
      } else if passed {
        handled := ExecuteJitFast(op.decoded, op.pc, bus);
      }
      if !handled {
        cpu := WithPc(cpu, op.pc);
        if !compact { cpu := cpu.(instructionAddress := previous); }
        return;
      }
      if compact { cpu := cpu.(instructionAddress := op.pc); }
    }
  }

  /** The loop's own exit: the PC changed, or the op is a terminator. */
  predicate LeavesBlock(op: CachedOp, c: CpuState) {
    c.r[15] != EndOf(op) || op.terminator
  }

  /** Under a budget, the credit spent is the exact charge of `k` checked steps. */
  predicate Settled(
    code: Code, stall: StallFn, c0: CpuState, m0: Memory, b0: Option<Blocks.Budget>, k: nat,
    c: CpuState, m: Memory, b: Option<Blocks.Budget>)
  {
    && b.Some? == b0.Some?
    && (b0.Some? ==>
          && b.value.remaining <= b0.value.remaining
          && ChargedSteps(code, stall, c0, m0, b0.value.fetch, k)
             == Some(Charged(c, m, b.value.fetch, b0.value.remaining - b.value.remaining)))
  }

  lemma NothingRetired(code: Code, stall: StallFn, c: CpuState, m: Memory, b: Option<Blocks.Budget>)
    ensures Steps(code, c, m, 0) == Some(RunState(c, m, 0))
    ensures Settled(code, stall, c, m, b, 0, c, m, b)
  {
    hide ChargedSteps;
    if b.Some? { ChargedNone(code, stall, c, m, b.value.fetch); }
  }

  lemma OneStep(code: Code, c: CpuState, m: Memory)
    requires Step(code, c, m).stop == StepComplete
    ensures var s := Step(code, c, m); Steps(code, c, m, 1) == Some(RunState(s.cpu, s.mem, s.cycles))
  {
    hide Step;
    assert Steps(code, Step(code, c, m).cpu, Step(code, c, m).mem, 0).Some?;
  }

  lemma OneMore(code: Code, c0: CpuState, m0: Memory, k: nat, mid: RunState)
    requires Steps(code, c0, m0, k) == Some(mid) && Step(code, mid.cpu, mid.mem).stop == StepComplete
    ensures
      var s := Step(code, mid.cpu, mid.mem);
      Steps(code, c0, m0, k + 1) == Some(RunState(s.cpu, s.mem, mid.cycles + s.cycles))
  {
    hide Step, Steps;
    StepsCompose(code, c0, m0, k, 1);
    OneStep(code, mid.cpu, mid.mem);
  }

  lemma OneMoreSettled(
    code: Code, stall: StallFn, op: CachedOp, c0: CpuState, m0: Memory, b0: Option<Blocks.Budget>, k: nat,
    c1: CpuState, m1: Memory, b1: Option<Blocks.Budget>, c: CpuState, m: Memory, b: Option<Blocks.Budget>, cycles: nat)
    requires Settled(code, stall, c0, m0, b0, k, c1, m1, b1)
    requires Step(code, c1, m1) == StepResult(c, m, StepComplete, cycles)
    requires c1.r[15] == op.pc && FetchedSize(code, op.pc) == op.size
    requires b.Some? == b1.Some?
    requires b1.Some? ==>
             && b.value.remaining == b1.value.remaining - cycles - StallOf(op, b1, stall)
             && b.value.fetch == Fetch(true, EndOf(op))
    ensures Settled(code, stall, c0, m0, b0, k + 1, c, m, b)
  {
    hide Step, ChargedSteps, FetchedSize, Words.Add;
    if b1.Some? {
      var f := b1.value.fetch;
      ChargedCompose(code, stall, c0, m0, b0.value.fetch, k, 1);
      ChargedCons(code, stall, c1, m1, f, 0);
      ChargedNone(code, stall, c, m, Fetch(true, EndOf(op)));
    }
  }

  lemma GenericDeclines(d: Decoded, pc: Word, c: CpuState, m: Memory, bus: FastBus)
    requires Classify(d) == Generic
    ensures !Accepts(d, pc, c, m, bus)
  {
    hide Classify;
  }

  lemma AlwaysPasses(d: Decoded, p: Psr)
    ensures d.condition == AL ==> ConditionPasses(d.condition, p)
  {
  }

  lemma CachedParts(code: Code, op: CachedOp)
    requires CachedFrom(code, op)
    ensures FastDecoded(op.decoded) && op.compact == ClassifyReversible(op.decoded)
    ensures op.compact != NotCompact ==> op.decoded.condition == AL && op.penalty == 0 && !op.divide
  {
    hide Classify, FastDecoded, ClassifyReversible, Boundary, BasePipelineCycles, Terminates;
    if op.compact != NotCompact { CompactKinds(op.decoded); }
  }
}
