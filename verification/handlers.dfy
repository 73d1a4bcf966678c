/** Per-opcode fast handlers, after classifyJitFast and executeJitFast in src/cpu/cortex_m4.cpp.
    A handler either declines and leaves the core and memory untouched, or ends exactly where the
    checked executor does. */
module Handlers {
  import opened Words
  import opened MathOps
  import opened Cpu
  import opened Native
  import opened Stack

  // ---------------------------------------------------------------- classification

  /** `ExtendFast` and `DspFast` are the two halves of the source's dsp_extend. */
  datatype JitFast =
    | Generic | NopFast | BranchFast | LinkFast | ZeroBranch | NonzeroBranch
    | MovImm | MovReg | MovwFast | MovtFast
    | AddImm | AddReg | SubImm | SubReg | CmpImm | CmpReg
    | LogicReg | RsbTst | ExtendFast | ShiftFast | Exchange
    | LdrImm | StrImm | LdrSub | StrSub | LdrWordGpr | StrWordGpr
    | PushPop | LdmStm | PopPc
    | MulReg | MlaMls | LongMul | DivideFast | AluSingle | DspFast | LdrdStrd

  predicate TransferForm(d: Decoded) {
    d.form == Immediate || d.form == RegisterValue || d.form == Literal
  }

  /** Immediate word transfers between r0-r12 with positive offset and no writeback. */
  predicate PlainWord(d: Decoded) {
    d.form == Immediate && d.rn < 13 && d.rd < 13 && d.index && d.add && !d.writeback
  }

  function ByForm(d: Decoded, immediate: JitFast, register: JitFast): JitFast {
    if d.form == Immediate then immediate else if d.form == RegisterValue then register else Generic
  }

  /** The multiply, divide, single-operand and byte-lane cases. */
  function ClassifyMath(op: MathKind, d: Decoded): JitFast {
    var plain := d.rd != 15 && d.rn != 15 && d.rm != 15;
    match op
    case Mul => if d.form == RegisterValue && plain then MulReg else Generic
    case Udiv | Sdiv => if plain then DivideFast else Generic
    case Mla | Mls => if d.form == RegisterValue then MlaMls else Generic
    case Umull | Smull => if d.form == RegisterValue then LongMul else Generic
    case Clz | Rev | Rev16 | Revsh => AluSingle
    case Bfc | Uadd8 | Sel => DspFast
  }

  /** classifyJitFast. */
  function Classify(d: Decoded): JitFast {
    match d.kind
    case Nop => NopFast
    case B => BranchFast
    case Bl => LinkFast
    case Cbz => ZeroBranch
    case Cbnz => NonzeroBranch
    case Bx => Exchange
    case Mov => if d.rd == 15 || d.rm == 15 then Generic else ByForm(d, MovImm, MovReg)
    case Movw => if d.rd != 15 then MovwFast else Generic
    case Movt => if d.rd != 15 then MovtFast else Generic
    case Add | Adc => if d.rd == 15 then Generic else ByForm(d, AddImm, AddReg)
    case Sub | Sbc => if d.rd == 15 then Generic else ByForm(d, SubImm, SubReg)
    case Cmp | Cmn => ByForm(d, CmpImm, CmpReg)
    case And | Orr | Eor | Bic | Mvn | Orn =>
      if d.form == RegisterValue && d.rd != 15 && d.rn != 15 && d.rm != 15 then LogicReg else Generic
    case Rsb | Tst => ByForm(d, RsbTst, RsbTst)
    case Ubfx | Sxtb | Sxth | Uxtb | Uxth => ExtendFast
    case Lsl | Lsr | Asr | Ror | Rrx =>
      if d.rd != 15 && d.rn != 15 && d.rm != 15 then ByForm(d, ShiftFast, ShiftFast) else Generic
    case Ldr => if PlainWord(d) then LdrWordGpr else if TransferForm(d) && d.rd != 15 then LdrImm else Generic
    case Str => if PlainWord(d) then StrWordGpr else if TransferForm(d) && d.rd != 15 then StrImm else Generic
    case Ldrb | Ldrh | Ldrsb | Ldrsh => if TransferForm(d) && d.rd != 15 then LdrSub else Generic
    case Strb | Strh => if TransferForm(d) && d.rd != 15 then StrSub else Generic
    case Push | Pop => if d.registerList[15] then PopPc else PushPop
    case Ldm | Stm => if d.registerList[15] then PopPc else LdmStm
    case Math(op) => ClassifyMath(op, d)
    case Double(_) => if TransferForm(d) then LdrdStrd else Generic
    case Blx | It | Dmb | Dsb | Isb | Other => Generic
  }

  /** What the decoder guarantees of the encodings it accepts: no store of the PC, no base
      writeback to the PC, no PC destination of RSB, the extend group, multiplies, divides and
      doubleword loads, and immediate offsets only for doubleword transfers. */
  predicate FastDecoded(d: Decoded) {
    && (d.kind == Push || d.kind == Stm ==> !d.registerList[15])
    && (d.writeback ==> d.rn != 15)
    && (Classify(d) == RsbTst && d.kind == Rsb ==> d.rd != 15)
    && (Classify(d) == ExtendFast ==> d.rd != 15)
    && (d.kind.Math? ==> d.rd != 15 && (d.kind.op == Umull || d.kind.op == Smull ==> d.ra != 15))
    && (d.kind.Double? ==> d.form == Immediate && d.rd != 15 && d.ra != 15)
  }

  // ---------------------------------------------------------------- backed memory

  /** The tryFast* family: it may decline any access; an accepted access reads or writes backed
      memory, and a word run never leaves the address space. */
  datatype FastBus = FastBus(
    read: (Word, Word, Width, Memory) -> bool,
    write: (Word, Word, Width, Word, Memory) -> bool,
    readWords: (Word, Word, nat, Memory) -> bool,
    writeWords: (Word, Word, seq<Word>, Memory) -> bool)

  function TryRead(bus: FastBus, pc: Word, a: Word, w: Width, m: Memory): Option<Word> {
    if bus.read(pc, a, w, m) then Load(m, a, w) else None
  }

  function TryWrite(bus: FastBus, pc: Word, a: Word, w: Width, v: Word, m: Memory): Option<Memory> {
    if bus.write(pc, a, w, v, m) then Store(m, a, w, v) else None
  }

  function TryReadWords(bus: FastBus, pc: Word, a: Word, n: nat, m: Memory): Option<seq<Word>> {
    if n == 0 || a + 4 * n > 0x1_0000_0000 || !bus.readWords(pc, a, n, m) then None else LoadWords(m, a, n)
  }

  function TryWriteWords(bus: FastBus, pc: Word, a: Word, values: seq<Word>, m: Memory): Option<Memory> {
    if values == [] || a + 4 * |values| > 0x1_0000_0000 || !bus.writeWords(pc, a, values, m) then None
    else StoreWords(m, a, values)
  }

  // ---------------------------------------------------------------- when a handler accepts

  predicate LoadsMany(d: Decoded) {
    d.kind == Pop || d.kind == Ldm
  }

  function BulkStart(d: Decoded, c: CpuState): Word {
    var base := ReadRegister(c, d.rn);
    if !d.add && d.index then Words.Sub(base, Count(d.registerList) * 4) else base
  }

  function FinalBase(d: Decoded, c: CpuState): Word {
    if !d.add && d.index then BulkStart(d, c) else Words.Add(ReadRegister(c, d.rn), Count(d.registerList) * 4)
  }

  /** The words a multiple store writes, in ascending register order. */
  function Gather(c: CpuState, list: RegList, i: nat): (r: seq<Word>)
    requires i <= 16
    ensures |r| == CountFrom(list, i)
    decreases 16 - i
  {
    if i == 16 then []
    else if list[i] then [ReadRegister(c, i)] + Gather(c, list, i + 1)
    else Gather(c, list, i + 1)
  }

  predicate BranchesTo(target: Word) {
    IsExceptionReturn(target) || target % 2 == 1
  }

  /** The accesses `d` makes are backed and its loaded target, if any, is one the handler takes. */
  predicate Accepts(d: Decoded, pc: Word, c: CpuState, m: Memory, bus: FastBus) {
    match Classify(d)
    case Generic => false
    case LdrWordGpr | LdrImm | LdrSub => TryRead(bus, pc, TransferAddress(d, c), AccessWidth(d.kind), m).Some?
    case StrWordGpr | StrImm | StrSub =>
      TryWrite(bus, pc, TransferAddress(d, c), AccessWidth(d.kind), ReadRegister(c, d.rd), m).Some?
    case PushPop | LdmStm =>
      if LoadsMany(d) then TryReadWords(bus, pc, BulkStart(d, c), Count(d.registerList), m).Some?
      else TryWriteWords(bus, pc, BulkStart(d, c), Gather(c, d.registerList, 0), m).Some?
    case PopPc =>
      var words := TryReadWords(bus, pc, BulkStart(d, c), Count(d.registerList), m);
      words.Some? && words.value != [] && BranchesTo(words.value[|words.value| - 1])
    case Exchange => BranchesTo(ReadRegister(c, d.rm))
    case LdrdStrd =>
      if d.kind == Double(true) then TryReadWords(bus, pc, DoubleAddress(d, c), 2, m).Some?
      else TryWriteWords(bus, pc, DoubleAddress(d, c), [ReadRegister(c, d.rd), ReadRegister(c, d.ra)], m).Some?
    case _ => true
  }

  // ---------------------------------------------------------------- addition

  /** jitAdd: value and xPSR, with V read off the sign bits of `~(left ^ right) & (left ^ value)`. */
  function JitAdd(p: Psr, left: Word, right: Word, carry: bool, setFlags: bool): (Word, Psr) {
    var wide := left + right + (if carry then 1 else 0);
    var value := Wrap(wide);
    var overflow := Negative(Words.And(Words.Not(Words.Xor(left, right)), Words.Xor(left, value)));
    (value,
     if setFlags then p.(n := Negative(value), z := value == 0, c := wide / 0x1_0000_0000 == 1, v := overflow) else p)
  }

  /** The top bit of a bitwise operation is the operation on the top bits. */
  lemma {:induction false} TopBit(g: Gate, x: nat, y: nat, n: nat)
    requires n >= 1 && x < Pow2(n) && y < Pow2(n)
    ensures Bitwise(g, x, y, n) >= Pow2(n - 1) <==> GateBit(g, x >= Pow2(n - 1), y >= Pow2(n - 1))
    decreases n
  {
    if n == 1 {
      assert Bitwise(g, x / 2, y / 2, 0) == 0;
    } else {
      TopBit(g, x / 2, y / 2, n - 1);
    }
  }

  lemma SignOf(g: Gate, x: Word, y: Word)
    ensures Negative(BitOp(g, x, y)) <==> GateBit(g, Negative(x), Negative(y))
  {
    Pow2Of32();
    assert Pow2(32) == 2 * Pow2(31);
    TopBit(g, x, y, 32);
  }

  /** The packed form computes the same sum and the same four flags as AddWithCarry. */
  lemma JitAddIsAddWithCarry(p: Psr, left: Word, right: Word, carry: bool, setFlags: bool)
    ensures
      var result := AddWithCarry(left, right, carry);
      JitAdd(p, left, right, carry, setFlags) == (result.value, if setFlags then SetNzcv(p, result) else p)
  {
    hide BitOp;
    var value := Wrap(left + right + (if carry then 1 else 0));
    SignOf(XorGate, left, right);
    SignOf(XorGate, left, value);
    SignOf(AndGate, Words.Not(Words.Xor(left, right)), Words.Xor(left, value));
  }

  // ---------------------------------------------------------------- data-processing handlers

  lemma MovClass(d: Decoded, c: CpuState, m: Memory)
    requires Classify(d) in {MovImm, MovReg, MovwFast, MovtFast}
    ensures Classify(d) == MovImm ==> d.kind == Mov && d.form == Immediate
    ensures Classify(d) == MovReg ==> d.kind == Mov && d.form == RegisterValue
    ensures Classify(d) == MovwFast ==> d.kind == Movw
    ensures Classify(d) == MovtFast ==> d.kind == Movt
    ensures Execute(d, c, m) == Done(ApplyAlu(if d.kind == Mov then MovAlu(d, c) else MovHalfAlu(d, c), c), m)
  {
    hide MovAlu, MovHalfAlu, ApplyAlu, TransferForm, PlainWord;
  }

  method MovHandler(d: Decoded, c: CpuState, ghost m: Memory) returns (after: CpuState)
    requires Classify(d) in {MovImm, MovReg, MovwFast, MovtFast}
    ensures Execute(d, c, m) == Done(after, m)
  {
    hide Classify, Execute, ShiftC, SetNzc, WithActiveSp, ReadRegister;
    MovClass(d, c, m);
    var fast := Classify(d);
    if fast == MovReg {
      var shifted := ShiftC(ReadRegister(c, d.rm), d.shiftType, d.shiftAmount, c.psr.c);
      after := WriteRegister(c, d.rd, shifted.value);
      if d.setFlags { after := after.(psr := SetNzc(c.psr, shifted.value, shifted.carry)); }
    } else if fast == MovImm {
      after := WriteRegister(c, d.rd, d.imm);
      if d.setFlags {
        var carry := if d.immediateCarryValid then d.immediateCarry else c.psr.c;
        after := after.(psr := SetNzc(c.psr, d.imm, carry));
      }
    } else if fast == MovwFast {
      after := WriteRegister(c, d.rd, d.imm);
    } else {
      after := WriteRegister(c, d.rd, ReadRegister(c, d.rd) % 0x1_0000 + d.imm % 0x1_0000 * 0x1_0000);
    }
    WriteKeepsPsr(c, d.rd);
  }

  lemma WriteKeepsPsr(c: CpuState, i: nat)
    ensures forall v: Word :: WriteRegister(c, i, v).psr == c.psr
  {
  }

  /** Setting flags before or after the destination is written is the same. */
  lemma FlagsFirst(c: CpuState, psr: Psr, i: nat, v: Word)
    requires psr.ipsr == c.psr.ipsr
    ensures WriteRegister(c.(psr := psr), i, v) == WriteRegister(c, i, v).(psr := psr)
  {
  }

  lemma FlagsKeepMode(p: Psr, r: AddResult)
    ensures SetNzcv(p, r).ipsr == p.ipsr
  {
  }

  lemma AddSubClass(d: Decoded, c: CpuState, m: Memory)
    requires Classify(d) in {AddImm, AddReg, SubImm, SubReg}
    ensures d.rd != 15
    ensures Classify(d) in {AddImm, SubImm} <==> d.form == Immediate
    ensures Classify(d) in {SubImm, SubReg} <==> d.kind == InstrKind.Sub || d.kind == Sbc
    ensures Execute(d, c, m) == Done(ApplyAlu(AddSubAlu(d, c), c), m)
  {
    hide AddSubAlu, ApplyAlu, TransferForm, PlainWord;
  }

  method AddSubHandler(d: Decoded, c: CpuState, ghost m: Memory) returns (after: CpuState)
    requires Classify(d) in {AddImm, AddReg, SubImm, SubReg}
    ensures Execute(d, c, m) == Done(after, m)
  {
    hide Classify, Execute, ShiftC, JitAdd, AddWithCarry, SetNzcv, AlignWord, Words.Not, WriteRegister, ReadRegister,
      ClearBit0;
    AddSubClass(d, c, m);
    var fast := Classify(d);
    var left := ReadRegister(c, d.rn);
    if d.rn == 15 && d.form == Immediate { left := AlignWord(left); }
    var subtract := fast == SubImm || fast == SubReg;
    var right := if fast == AddReg || fast == SubReg
                 then ShiftC(ReadRegister(c, d.rm), d.shiftType, d.shiftAmount, c.psr.c).value else d.imm;
    var carryIn := if d.kind == Adc || d.kind == Sbc then c.psr.c else subtract;
    var right1 := if subtract then Words.Not(right) else right;
    var (value, psr) := JitAdd(c.psr, left, right1, carryIn, d.setFlags);
    after := WriteRegister(c.(psr := psr), d.rd, value);
    JitAddIsAddWithCarry(c.psr, left, right1, carryIn, d.setFlags);
    FlagsKeepMode(c.psr, AddWithCarry(left, right1, carryIn));
    FlagsFirst(c, psr, d.rd, value);
  }

  lemma CompareClass(d: Decoded, c: CpuState, m: Memory)
    requires Classify(d) in {CmpImm, CmpReg}
    ensures Classify(d) == CmpImm <==> d.form == Immediate
    ensures Execute(d, c, m) == Done(ApplyAlu(CompareAlu(d, c), c), m)
  {
    hide CompareAlu, ApplyAlu, TransferForm, PlainWord;
    assert d.kind in {Cmp, Cmn};
  }

  method CompareHandler(d: Decoded, c: CpuState, ghost m: Memory) returns (after: CpuState)
    requires Classify(d) in {CmpImm, CmpReg}
    ensures Execute(d, c, m) == Done(after, m)
  {
    hide Classify, Execute, ShiftC, JitAdd, AddWithCarry, SetNzcv, Words.Not, ReadRegister;
    CompareClass(d, c, m);
    var left := ReadRegister(c, d.rn);
    var right := if Classify(d) == CmpReg
                 then ShiftC(ReadRegister(c, d.rm), d.shiftType, d.shiftAmount, c.psr.c).value else d.imm;
    var right1 := if d.kind == Cmp then Words.Not(right) else right;
    var (_, psr) := JitAdd(c.psr, left, right1, d.kind == Cmp, true);
    JitAddIsAddWithCarry(c.psr, left, right1, d.kind == Cmp, true);
    after := c.(psr := psr);
  }

  lemma LogicClass(d: Decoded, c: CpuState, m: Memory)
    requires Classify(d) == LogicReg
    ensures d.form == RegisterValue && d.kind in {And, Orr, Eor, Bic, Mvn, Orn}
    ensures Execute(d, c, m) == Done(ApplyAlu(LogicAlu(d, c), c), m)
  {
    hide LogicAlu, ApplyAlu, TransferForm, PlainWord;
  }

  method LogicHandler(d: Decoded, c: CpuState, ghost m: Memory) returns (after: CpuState)
    requires Classify(d) == LogicReg
    ensures Execute(d, c, m) == Done(after, m)
  {
    hide Classify, Execute, ShiftC, SetNzc, Words.And, Words.Or, Words.Xor, Words.Not, WriteRegister, ReadRegister;
    LogicClass(d, c, m);
    var left := ReadRegister(c, d.rn);
    var shifted := ShiftC(ReadRegister(c, d.rm), d.shiftType, d.shiftAmount, c.psr.c);
    var value := 0;
    if d.kind == And { value := Words.And(left, shifted.value); }
    if d.kind == Orr { value := Words.Or(left, shifted.value); }
    if d.kind == Eor { value := Words.Xor(left, shifted.value); }
    if d.kind == Bic { value := Words.And(left, Words.Not(shifted.value)); }
    if d.kind == Mvn { value := Words.Not(shifted.value); }
    if d.kind == Orn { value := Words.Or(left, Words.Not(shifted.value)); }
    after := WriteRegister(c, d.rd, value);
    if d.setFlags { after := after.(psr := SetNzc(c.psr, value, shifted.carry)); }
    WriteKeepsPsr(c, d.rd);
  }

  lemma ShiftClass(d: Decoded, c: CpuState, m: Memory)
    requires Classify(d) == ShiftFast
    ensures Execute(d, c, m) == Done(ApplyAlu(ShiftAlu(d, c), c), m)
  {
    hide ShiftAlu, ApplyAlu, TransferForm, PlainWord;
    assert d.kind in {InstrKind.Lsl, InstrKind.Lsr, InstrKind.Asr, InstrKind.Ror, InstrKind.Rrx};
  }

  method ShiftHandler(d: Decoded, c: CpuState, ghost m: Memory) returns (after: CpuState)
    requires Classify(d) == ShiftFast
    ensures Execute(d, c, m) == Done(after, m)
  {
    hide Classify, Execute, ShiftC, SetNzc, WriteRegister, ReadRegister;
    ShiftClass(d, c, m);
    var immediate := d.form == Immediate;
    var value := if immediate then ReadRegister(c, d.rm) else ReadRegister(c, d.rn);
    var amount := if immediate then d.shiftAmount else ReadRegister(c, d.rm) % 0x100;
    var shifted := ShiftC(value, d.shiftType, amount, c.psr.c);
    after := WriteRegister(c, d.rd, shifted.value);
    if d.setFlags { after := after.(psr := SetNzc(c.psr, shifted.value, shifted.carry)); }
    WriteKeepsPsr(c, d.rd);
  }

  lemma RsbTstClass(d: Decoded, c: CpuState, m: Memory)
    requires Classify(d) == RsbTst
    ensures d.form == Immediate || d.form == RegisterValue
    ensures Execute(d, c, m) == Done(ApplyAlu(if d.kind == Tst then TstAlu(d, c) else RsbAlu(d, c), c), m)
  {
    hide TstAlu, RsbAlu, ApplyAlu, TransferForm, PlainWord;
  }

  method RsbTstHandler(d: Decoded, c: CpuState, ghost m: Memory) returns (after: CpuState)
    requires Classify(d) == RsbTst
    ensures Execute(d, c, m) == Done(after, m)
  {
    hide Classify, Execute, ShiftC, SetNzc, JitAdd, AddWithCarry, SetNzcv, Words.Not, Words.And, WriteRegister,
      ReadRegister;
    RsbTstClass(d, c, m);
    var shifted := ShiftResult(d.imm, if d.immediateCarryValid then d.immediateCarry else c.psr.c);
    if d.form == RegisterValue { shifted := ShiftC(ReadRegister(c, d.rm), d.shiftType, d.shiftAmount, c.psr.c); }
    if d.kind == Tst {
      return c.(psr := SetNzc(c.psr, Words.And(ReadRegister(c, d.rn), shifted.value), shifted.carry));
    }
    var left := if d.form == Immediate then d.imm else if d.is32Bit then shifted.value else 0;
    var right := if d.form == Immediate then ReadRegister(c, d.rn)
                 else if d.is32Bit then ReadRegister(c, d.rn) else ReadRegister(c, d.rm);
    var (value, psr) := JitAdd(c.psr, left, Words.Not(right), true, d.setFlags);
    after := WriteRegister(c.(psr := psr), d.rd, value);
    JitAddIsAddWithCarry(c.psr, left, Words.Not(right), true, d.setFlags);
    FlagsKeepMode(c.psr, AddWithCarry(left, Words.Not(right), true));
    FlagsFirst(c, psr, d.rd, value);
  }

  lemma ExtendClass(d: Decoded, c: CpuState, m: Memory)
    requires Classify(d) == ExtendFast
    ensures d.kind in {Ubfx, Uxtb, Uxth, Sxtb, Sxth}
    ensures Execute(d, c, m) == Done(ApplyAlu(FieldAlu(d, c), c), m)
  {
    hide FieldAlu, ApplyAlu, TransferForm, PlainWord;
  }

  /** Sign extension adds the upper ones exactly when the sign bit is set. */
  lemma ExtendBySign(x: Word)
    ensures SignExtend(x % 0x100, One) == x % 0x100 + (if x % 0x100 / 0x80 % 2 == 1 then 0xffff_ff00 else 0)
    ensures SignExtend(x % 0x1_0000, Two) == x % 0x1_0000 + (if x % 0x1_0000 / 0x8000 % 2 == 1 then 0xffff_0000 else 0)
  {
  }

  method Extended(kind: InstrKind, rotated: Word) returns (value: Word)
    requires kind in {Uxtb, Uxth, Sxtb, Sxth}
    ensures value == ExtendValue(kind, rotated)
  {
    hide SignExtend;
    ExtendBySign(rotated);
    var isByte := kind == Uxtb || kind == Sxtb;
    value := if isByte then rotated % 0x100 else rotated % 0x1_0000;
    if kind == Sxtb && value / 0x80 % 2 == 1 { value := value + 0xffff_ff00; }
    if kind == Sxth && value / 0x8000 % 2 == 1 { value := value + 0xffff_0000; }
  }

  method ExtendHandler(d: Decoded, c: CpuState, ghost m: Memory) returns (after: CpuState)
    requires Classify(d) == ExtendFast
    ensures Execute(d, c, m) == Done(after, m)
  {
    hide Classify, Execute, ExtractField, RotateRight, WriteRegister, ReadRegister, ExtendValue;
    ExtendClass(d, c, m);
    WriteKeepsPsr(c, d.rd);
    if d.kind == Ubfx {
      return WriteRegister(c, d.rd, ExtractField(ReadRegister(c, d.rn), d.shiftAmount, d.imm));
    }
    var value := Extended(d.kind, RotateRight(ReadRegister(c, d.rm), d.shiftAmount));
    after := WriteRegister(c, d.rd, value);
  }

  predicate IsDataFast(fast: JitFast) {
    fast in {MovImm, MovReg, MovwFast, MovtFast, AddImm, AddReg, SubImm, SubReg, CmpImm, CmpReg,
             LogicReg, RsbTst, ExtendFast, ShiftFast, NopFast}
  }

  lemma NopClass(d: Decoded, c: CpuState, m: Memory)
    requires Classify(d) == NopFast
    ensures Execute(d, c, m) == Done(c, m)
  {
    hide Classify;
    NopKind(d);
  }

  lemma NopKind(d: Decoded)
    requires Classify(d) == NopFast
    ensures d.kind == Nop
  {
    hide TransferForm, PlainWord;
  }

  method DataHandler(d: Decoded, c: CpuState, ghost m: Memory) returns (after: CpuState)
    requires IsDataFast(Classify(d))
    ensures Execute(d, c, m) == Done(after, m)
  {
    hide Classify, Execute;
    var fast := Classify(d);
    if fast == NopFast { NopClass(d, c, m); after := c; }
    else if fast in {MovImm, MovReg, MovwFast, MovtFast} { after := MovHandler(d, c, m); }
    else if fast in {AddImm, AddReg, SubImm, SubReg} { after := AddSubHandler(d, c, m); }
    else if fast in {CmpImm, CmpReg} { after := CompareHandler(d, c, m); }
    else if fast == LogicReg { after := LogicHandler(d, c, m); }
    else if fast == RsbTst { after := RsbTstHandler(d, c, m); }
    else if fast == ExtendFast { after := ExtendHandler(d, c, m); }
    else { after := ShiftHandler(d, c, m); }
  }

  // ---------------------------------------------------------------- branches

  predicate IsBranchFast(fast: JitFast) {
    fast in {BranchFast, LinkFast, ZeroBranch, NonzeroBranch, Exchange}
  }

  lemma BranchKinds(d: Decoded)
    requires IsBranchFast(Classify(d))
    ensures Classify(d) == BranchFast ==> d.kind == B
    ensures Classify(d) == LinkFast ==> d.kind == Bl
    ensures Classify(d) == Exchange ==> d.kind == Bx
    ensures Classify(d) == ZeroBranch ==> d.kind == Cbz
    ensures Classify(d) == NonzeroBranch ==> d.kind == Cbnz
  {
    hide TransferForm, PlainWord;
  }

  /** The executor's branch arms, by fast class. */
  lemma BranchClass(d: Decoded, c: CpuState, m: Memory)
    requires IsBranchFast(Classify(d))
    ensures Execute(d, c, m) ==
            if Classify(d) == BranchFast then Done(WithPc(c, BranchTarget(c, d.branchOffset)), m)
            else if Classify(d) == LinkFast
            then Done(WithPc(WithLr(c, SetBit0(c.r[15])), BranchTarget(c, d.branchOffset)), m)
            else if Classify(d) == Exchange then ExecBranchExchange(d, c, m)
            else Done(ExecCompareBranch(d, c), m)
  {
    hide Classify, ExecBranchExchange, ExecCompareBranch, BranchTarget, WithPc, WithLr;
    BranchKinds(d);
  }

  lemma BranchAccepts(d: Decoded, pc: Word, c: CpuState, m: Memory, bus: FastBus)
    requires IsBranchFast(Classify(d))
    ensures Accepts(d, pc, c, m, bus) <==> (Classify(d) == Exchange ==> BranchesTo(ReadRegister(c, d.rm)))
  {
    hide Classify, BranchesTo, ReadRegister;
  }

  method ExchangeHandler(d: Decoded, c: CpuState, ghost m: Memory) returns (handled: bool, after: CpuState)
    requires d.kind == Bx
    ensures handled <==> BranchesTo(ReadRegister(c, d.rm))
    ensures handled ==> ExecBranchExchange(d, c, m) == Done(after, m)
  {
    hide ReadRegister, IsExceptionReturn, BranchWritePc;
    handled, after := true, c;
    var target := ReadRegister(c, d.rm);
    if IsExceptionReturn(target) { after := c.(pendingExcReturn := Some(target)); }
    else if target % 2 == 0 { handled := false; }
    else { after := BranchWritePc(c, target); }
  }

  method BranchHandler(d: Decoded, pc: Word, c: CpuState, ghost m: Memory, ghost bus: FastBus)
    returns (handled: bool, after: CpuState)
    requires IsBranchFast(Classify(d)) && c.instructionAddress == pc
    ensures handled <==> Accepts(d, pc, c, m, bus)
    ensures handled ==> Execute(d, c, m) == Done(after, m)
  {
    hide Classify, Execute, Accepts, ReadRegister, Words.Add, ClearBit0, SetBit0, Wrap, WithPc, WithLr,
      ExecBranchExchange, BranchesTo;
    BranchKinds(d);
    BranchClass(d, c, m);
    BranchAccepts(d, pc, c, m, bus);
    var fast := Classify(d);
    handled, after := true, c;
    if fast == Exchange {
      handled, after := ExchangeHandler(d, c, m);
    } else if fast == ZeroBranch || fast == NonzeroBranch {
      var zero := ReadRegister(c, d.rn) == 0;
      var take := if fast == ZeroBranch then zero else !zero;
      if take { after := WithPc(c, ClearBit0(Words.Add(Words.Add(pc, 4), d.imm))); }
    } else {
      if fast == LinkFast { after := WithLr(c, SetBit0(c.r[15])); }
      after := WithPc(after, ClearBit0(Wrap(pc + 4 + d.branchOffset)));
    }
  }

  // ---------------------------------------------------------------- single transfers

  predicate IsTransferFast(fast: JitFast) {
    fast in {LdrImm, StrImm, LdrSub, StrSub, LdrWordGpr, StrWordGpr}
  }

  /** A byte or halfword load leaves the upper bytes clear. */
  lemma NarrowLoad(m: Memory, a: int, w: Width)
    ensures var r := Load(m, a, w); r.Some? ==> (w == One ==> r.value < 0x100) && (w == Two ==> r.value < 0x1_0000)
  {
  }

  lemma TransferKinds(d: Decoded)
    requires IsTransferFast(Classify(d))
    ensures d.rd != 15
    ensures Classify(d) in {LdrImm, LdrWordGpr} ==> d.kind == Ldr
    ensures Classify(d) in {StrImm, StrWordGpr} ==> d.kind == Str
    ensures Classify(d) == LdrSub ==> d.kind in {Ldrb, Ldrh, Ldrsb, Ldrsh}
    ensures Classify(d) == StrSub ==> d.kind in {Strb, Strh}
    ensures Classify(d) in {LdrWordGpr, StrWordGpr} ==> PlainWord(d)
  {
    hide TransferForm;
  }

  lemma TransferClass(d: Decoded, c: CpuState, m: Memory)
    requires IsTransferFast(Classify(d))
    ensures Execute(d, c, m) == if IsStore(d.kind) then ExecStore(d, c, m) else ExecLoad(d, c, m)
    ensures IsStore(d.kind) <==> Classify(d) in {StrImm, StrSub, StrWordGpr}
    ensures AccessWidth(d.kind) ==
            if Classify(d) in {LdrSub, StrSub} then if d.kind in {Ldrb, Ldrsb, Strb} then One else Two else Four
  {
    hide Classify, ExecStore, ExecLoad, PlainWord;
    TransferKinds(d);
  }

  lemma TransferAccepts(d: Decoded, pc: Word, c: CpuState, m: Memory, bus: FastBus)
    requires IsTransferFast(Classify(d))
    ensures Accepts(d, pc, c, m, bus) <==>
            if Classify(d) in {StrImm, StrSub, StrWordGpr}
            then TryWrite(bus, pc, TransferAddress(d, c), AccessWidth(d.kind), ReadRegister(c, d.rd), m).Some?
            else TryRead(bus, pc, TransferAddress(d, c), AccessWidth(d.kind), m).Some?
  {
    hide Classify, TryWrite, TryRead, TransferAddress, AccessWidth, ReadRegister;
  }

  /** Sign extension by the sign bit, as the sub-word handlers do it. */
  method ExtendRaw(d: Decoded, raw: Word, ghost m: Memory, ghost a: int, ghost w: Width) returns (value: Word)
    requires Load(m, a, w) == Some(raw)
    requires d.kind == Ldrsb ==> w == One
    requires d.kind == Ldrsh ==> w == Two
    ensures value == LoadedValue(d.kind, raw)
  {
    hide Load;
    NarrowLoad(m, a, w);
    value := raw;
    if d.kind == Ldrsb && raw / 0x80 % 2 == 1 { value := raw % 0x100 + 0xffff_ff00; }
    else if d.kind == Ldrsh && raw / 0x8000 % 2 == 1 { value := raw % 0x1_0000 + 0xffff_0000; }
  }

  /** A word transfer between low registers reads no other state. */
  lemma PlainTransfer(d: Decoded, c: CpuState)
    requires PlainWord(d)
    ensures TransferAddress(d, c) == Words.Add(c.r[d.rn], d.imm)
    ensures ReadRegister(c, d.rd) == c.r[d.rd]
    ensures forall v: Word :: WriteRegister(c, d.rd, v) == c.(r := c.r[d.rd := v])
  {
    hide Words.Add;
  }

  /** Word transfers between low registers. */
  method WordHandler(d: Decoded, pc: Word, c: CpuState, m: Memory, bus: FastBus)
    returns (handled: bool, after: CpuState, mem: Memory)
    requires Classify(d) in {LdrWordGpr, StrWordGpr}
    ensures handled <==> Accepts(d, pc, c, m, bus)
    ensures handled ==> Execute(d, c, m) == Done(after, mem)
  {
    hide Classify, Execute, Accepts, Load, Store, OffsetAddress, TransferAddress, AccessWidth, WriteRegister,
      ReadRegister, Words.Add;
    TransferKinds(d);
    TransferClass(d, c, m);
    TransferAccepts(d, pc, c, m, bus);
    PlainTransfer(d, c);
    handled, after, mem := false, c, m;
    if Classify(d) == LdrWordGpr {
      var value := TryRead(bus, pc, Words.Add(c.r[d.rn], d.imm), Four, m);
      if value.None? { return; }
      handled, after := true, c.(r := c.r[d.rd := value.value]);
    } else {
      var written := TryWrite(bus, pc, Words.Add(c.r[d.rn], d.imm), Four, c.r[d.rd], m);
      if written.None? { return; }
      handled, mem := true, written.value;
    }
  }

  method StoreOneHandler(d: Decoded, pc: Word, c: CpuState, m: Memory, bus: FastBus)
    returns (handled: bool, after: CpuState, mem: Memory)
    requires Classify(d) in {StrImm, StrSub}
    ensures handled <==> Accepts(d, pc, c, m, bus)
    ensures handled ==> Execute(d, c, m) == Done(after, mem)
  {
    hide Classify, Execute, Accepts, Store, OffsetAddress, TransferAddress, AccessWidth, WriteRegister, ReadRegister;
    TransferKinds(d);
    TransferClass(d, c, m);
    TransferAccepts(d, pc, c, m, bus);
    handled, after, mem := false, c, m;
    var offsetAddress, address := Addresses(d, c);
    var width := if Classify(d) == StrImm then Four else if d.kind == Strb then One else Two;
    var written := TryWrite(bus, pc, address, width, ReadRegister(c, d.rd), m);
    if written.None? { return; }
    handled, mem := true, written.value;
    if d.writeback { after := WriteRegister(after, d.rn, offsetAddress); }
  }

  method LoadOneHandler(d: Decoded, pc: Word, c: CpuState, m: Memory, bus: FastBus)
    returns (handled: bool, after: CpuState)
    requires Classify(d) in {LdrImm, LdrSub}
    ensures handled <==> Accepts(d, pc, c, m, bus)
    ensures handled ==> Execute(d, c, m) == Done(after, m)
  {
    hide Classify, Execute, Accepts, Load, OffsetAddress, TransferAddress, AccessWidth, LoadedValue, WriteRegister,
      ReadRegister;
    TransferKinds(d);
    TransferClass(d, c, m);
    TransferAccepts(d, pc, c, m, bus);
    handled, after := false, c;
    var offsetAddress, address := Addresses(d, c);
    var width := if Classify(d) == LdrImm then Four else if d.kind == Ldrb || d.kind == Ldrsb then One else Two;
    var read := TryRead(bus, pc, address, width, m);
    if read.None? { return; }
    var value := ExtendRaw(d, read.value, m, address, width);
    handled, after := true, WriteRegister(c, d.rd, value);
    if d.writeback { after := WriteRegister(after, d.rn, offsetAddress); }
  }

  method TransferHandler(d: Decoded, pc: Word, c: CpuState, m: Memory, bus: FastBus)
    returns (handled: bool, after: CpuState, mem: Memory)
    requires IsTransferFast(Classify(d))
    ensures handled <==> Accepts(d, pc, c, m, bus)
    ensures handled ==> Execute(d, c, m) == Done(after, mem)
  {
    hide Classify, Execute, Accepts;
    var fast := Classify(d);
    mem := m;
    if fast in {LdrWordGpr, StrWordGpr} { handled, after, mem := WordHandler(d, pc, c, m, bus); }
    else if fast in {StrImm, StrSub} { handled, after, mem := StoreOneHandler(d, pc, c, m, bus); }
    else { handled, after := LoadOneHandler(d, pc, c, m, bus); }
  }

  /** Base plus offset, and the address the access uses. */
  method Addresses(d: Decoded, c: CpuState) returns (offsetAddress: Word, address: Word)
    ensures offsetAddress == OffsetAddress(d, c) && address == TransferAddress(d, c)
  {
    var base := if d.rn == 15 then AlignWord(PcForRead(c)) else ReadRegister(c, d.rn);
    var offset := d.imm;
    if d.form == RegisterValue { offset := ShiftC(ReadRegister(c, d.rm), d.shiftType, d.shiftAmount, c.psr.c).value; }
    offsetAddress := if d.add then Words.Add(base, offset) else Words.Sub(base, offset);
    address := if d.index then offsetAddress else base;
  }

  // ---------------------------------------------------------------- multiple transfers

  predicate IsBulkFast(fast: JitFast) {
    fast in {PushPop, LdmStm, PopPc}
  }

  lemma GatherStep(c: CpuState, list: RegList, i: nat)
    requires i <= 16
    ensures Gather(c, list, i) ==
            if i == 16 then []
            else if list[i] then [ReadRegister(c, i)] + Gather(c, list, i + 1) else Gather(c, list, i + 1)
  {
    hide ReadRegister;
  }

  lemma Regroup(a: seq<Word>, w: Word, b: seq<Word>)
    ensures a + ([w] + b) == (a + [w]) + b
  {
  }

  /** The loop that fills the dense buffer of a store. */
  method GatherWords(c: CpuState, list: RegList) returns (dense: seq<Word>)
    ensures dense == Gather(c, list, 0)
  {
    hide ReadRegister, Gather, CountFrom;
    dense := [];
    var reg := 0;
    while reg < 16
      invariant 0 <= reg <= 16
      invariant dense + Gather(c, list, reg) == Gather(c, list, 0)
    {
      GatherStep(c, list, reg);
      ghost var rest := Gather(c, list, reg + 1);
      if list[reg] {
        var word := ReadRegister(c, reg);
        Regroup(dense, word, rest);
        dense := dense + [word];
      }
      reg := reg + 1;
    }
    GatherStep(c, list, 16);
  }

  /** Storing the dense buffer in one run is the executor's register loop. */
  lemma {:induction false} GatherIsLoop(c: CpuState, m: Memory, list: RegList, i: nat, a: int)
    requires i <= 16
    requires 0 <= a < 0x1_0000_0000 && a + 4 * CountFrom(list, i) <= 0x1_0000_0000
    requires StoreWords(m, a, Gather(c, list, i)).Some?
    ensures StoreMultiple(c, m, list, i, a) == (StoreWords(m, a, Gather(c, list, i)).value, true)
    decreases 16 - i
  {
    hide Store, CountFrom, Gather, StoreWords, ReadRegister;
    GatherStep(c, list, i);
    if i == 16 {
      StoresNone(c, m, a);
    } else {
      StepRegs(list, i);
      if list[i] {
        ConsStore(m, a, ReadRegister(c, i), Gather(c, list, i + 1));
        var m1 := Store(m, a, Four, ReadRegister(c, i)).value;
        if CountFrom(list, i + 1) == 0 {
          StoreNothing(c, m1, list, i + 1, Words.Add(a, 4));
          StoresNone(c, m1, a + 4);
        } else {
          GatherIsLoop(c, m1, list, i + 1, a + 4);
        }
      } else {
        GatherIsLoop(c, m, list, i + 1, a);
      }
    }
  }

  /** The loop that commits the dense buffer of a load, the PC apart: the executor's commit of
      the sixteen loaded words. */
  method ScatterWords(c: CpuState, list: RegList, dense: seq<Word>, ghost loaded: Regs) returns (after: CpuState)
    requires Holds(loaded, RegsFrom(list, 0), dense)
    ensures after == CommitLoaded(c, list, 0, loaded)
  {
    hide WriteRegister, CommitLoaded, RegsFrom, Holds;
    after := c;
    var reg, w := 0, 0;
    while reg < 15
      invariant 0 <= reg <= 15 && 0 <= w <= |dense|
      invariant Holds(loaded, RegsFrom(list, reg), dense[w..])
      invariant CommitLoaded(after, list, reg, loaded) == CommitLoaded(c, list, 0, loaded)
    {
      StepRegs(list, reg);
      CommitStep(after, list, reg, loaded);
      if list[reg] {
        HoldsTail(loaded, reg, RegsFrom(list, reg + 1), dense[w..]);
        after := WriteRegister(after, reg, dense[w]);
        assert dense[w..][1..] == dense[w + 1..];
        w := w + 1;
      }
      reg := reg + 1;
    }
    CommitStep(after, list, 15, loaded);
  }

  /** The scan that locates the PC word in transfer order. */
  method PcWord(list: RegList, dense: seq<Word>, ghost loaded: Regs) returns (word: Word)
    requires list[15] && Holds(loaded, RegsFrom(list, 0), dense)
    ensures word == loaded[15]
    ensures dense != [] && word == dense[|dense| - 1]
  {
    hide RegsFrom, Holds;
    word := 0;
    var reg, w := 0, 0;
    while reg < 16
      invariant 0 <= reg <= 16 && 0 <= w <= |dense|
      invariant Holds(loaded, RegsFrom(list, reg), dense[w..])
      invariant reg == 16 ==> word == loaded[15] && w > 0 && word == dense[w - 1]
    {
      StepRegs(list, reg);
      if list[reg] {
        HoldsTail(loaded, reg, RegsFrom(list, reg + 1), dense[w..]);
        if reg == 15 { word := dense[w]; }
        assert dense[w..][1..] == dense[w + 1..];
        w := w + 1;
      }
      reg := reg + 1;
    }
    LastRegs(list);
    HoldsSize(loaded, [], dense[w..]);
  }

  /** The executor's load arm once every word of the run is readable. */
  lemma LoadRun(d: Decoded, c: CpuState, m: Memory, words: seq<Word>)
    requires LoadsMany(d)
    requires BulkStart(d, c) + 4 * Count(d.registerList) <= 0x1_0000_0000
    requires LoadWords(m, BulkStart(d, c), Count(d.registerList)) == Some(words)
    ensures
      var all := LoadMultiple(m, d.registerList, 0, BulkStart(d, c), NoWords());
      all.Some? && Holds(all.value, RegsFrom(d.registerList, 0), words)
  {
    hide LoadWords, LoadMultiple, BulkStart, RegsFrom, NoWords, CountFrom;
    SameCount(d.registerList);
    LoadLoopIsBulk(m, d.registerList, 0, BulkStart(d, c), NoWords());
  }

  lemma BulkKinds(d: Decoded)
    requires IsBulkFast(Classify(d))
    ensures d.kind in {Push, Pop, Ldm, Stm}
    ensures Classify(d) == PopPc <==> d.registerList[15]
  {
    hide TransferForm, PlainWord;
  }

  lemma BulkClass(d: Decoded, c: CpuState, m: Memory)
    requires IsBulkFast(Classify(d))
    ensures Execute(d, c, m) == ExecMultiple(d, c, m)
  {
    hide Classify, ExecMultiple;
    BulkKinds(d);
  }

  lemma BulkAccepts(d: Decoded, pc: Word, c: CpuState, m: Memory, bus: FastBus)
    requires IsBulkFast(Classify(d))
    ensures
      var words := TryReadWords(bus, pc, BulkStart(d, c), Count(d.registerList), m);
      Accepts(d, pc, c, m, bus) <==>
        if Classify(d) == PopPc then words.Some? && words.value != [] && BranchesTo(words.value[|words.value| - 1])
        else if LoadsMany(d) then words.Some?
        else TryWriteWords(bus, pc, BulkStart(d, c), Gather(c, d.registerList, 0), m).Some?
  {
    hide Classify, TryReadWords, TryWriteWords, BulkStart, Gather, Count, BranchesTo;
  }

  lemma StoreArm(d: Decoded, c: CpuState, m: Memory)
    requires !LoadsMany(d)
    ensures
      var stored := StoreMultiple(c, m, d.registerList, 0, BulkStart(d, c));
      stored.1 ==> ExecMultiple(d, c, m) == Done(Writeback(d, c, FinalBase(d, c)), stored.0)
  {
    hide StoreMultiple, LoadMultiple, CommitLoaded, Writeback, ReadRegister, Words.Add, Words.Sub, Count, NoWords,
      IsExceptionReturn;
  }

  lemma LoadArm(d: Decoded, c: CpuState, m: Memory)
    requires LoadsMany(d)
    ensures
      var all := LoadMultiple(m, d.registerList, 0, BulkStart(d, c), NoWords());
      all.Some? ==>
        var c1 := Writeback(d, CommitLoaded(c, d.registerList, 0, all.value), FinalBase(d, c));
        ExecMultiple(d, c, m) ==
          if !d.registerList[15] then Done(c1, m)
          else if IsExceptionReturn(all.value[15]) then Done(c1.(pendingExcReturn := Some(all.value[15])), m)
          else if all.value[15] % 2 == 0 then FailInvalid(c1, m)
          else Done(BranchWritePc(c1, all.value[15]), m)
  {
    hide StoreMultiple, LoadMultiple, CommitLoaded, Writeback, ReadRegister, Words.Add, Words.Sub, Count, NoWords,
      IsExceptionReturn, BranchWritePc;
  }

  /** Stores of STM and PUSH in one run. */
  method StoreHandler(d: Decoded, pc: Word, c: CpuState, m: Memory, bus: FastBus)
    returns (handled: bool, after: CpuState, mem: Memory)
    requires IsBulkFast(Classify(d)) && !LoadsMany(d) && FastDecoded(d)
    ensures handled <==> Accepts(d, pc, c, m, bus)
    ensures handled ==> Execute(d, c, m) == Done(after, mem)
  {
    hide Classify, Execute, Accepts, ExecMultiple, Gather, StoreWords, StoreMultiple, CountFrom, ReadRegister,
      WriteRegister, Words.Add, Words.Sub;
    BulkKinds(d);
    BulkClass(d, c, m);
    BulkAccepts(d, pc, c, m, bus);
    handled, after, mem := false, c, m;
    var count := Count(d.registerList);
    var base := ReadRegister(c, d.rn);
    var decrementBefore := !d.add && d.index;
    var start := if decrementBefore then Words.Sub(base, count * 4) else base;
    if count == 0 { return; }
    var dense := GatherWords(c, d.registerList);
    var written := TryWriteWords(bus, pc, start, dense, m);
    if written.None? { return; }
    GatherIsLoop(c, m, d.registerList, 0, start);
    StoreArm(d, c, m);
    handled, mem := true, written.value;
    if d.writeback {
      after := WriteRegister(c, d.rn, if decrementBefore then start else Words.Add(base, count * 4));
    }
  }

  /** Loads of LDM and POP in one run; a loaded PC is validated before anything is committed. */
  method LoadHandler(d: Decoded, pc: Word, c: CpuState, m: Memory, bus: FastBus)
    returns (handled: bool, after: CpuState)
    requires IsBulkFast(Classify(d)) && LoadsMany(d)
    ensures handled <==> Accepts(d, pc, c, m, bus)
    ensures handled ==> Execute(d, c, m) == Done(after, m)
  {
    hide Classify, Execute, Accepts, ExecMultiple, LoadWords, LoadMultiple, CommitLoaded, CountFrom, ReadRegister,
      WriteRegister, Words.Add, Words.Sub, Holds, RegsFrom, NoWords, IsExceptionReturn, BranchWritePc;
    BulkKinds(d);
    BulkClass(d, c, m);
    BulkAccepts(d, pc, c, m, bus);
    handled, after := false, c;
    var list := d.registerList;
    var count := Count(list);
    var base := ReadRegister(c, d.rn);
    var decrementBefore := !d.add && d.index;
    var start := if decrementBefore then Words.Sub(base, count * 4) else base;
    if count == 0 { return; }
    var dense := TryReadWords(bus, pc, start, count, m);
    if dense.None? { return; }
    LoadRun(d, c, m, dense.value);
    LoadArm(d, c, m);
    ghost var loaded := LoadMultiple(m, list, 0, start, NoWords()).value;
    var target := 0;
    if list[15] {
      target := PcWord(list, dense.value, loaded);
      if !IsExceptionReturn(target) && target % 2 == 0 { return; }
    }
    handled := true;
    after := ScatterWords(c, list, dense.value, loaded);
    if d.writeback {
      after := WriteRegister(after, d.rn, if decrementBefore then start else Words.Add(base, count * 4));
    }
    if list[15] {
      if IsExceptionReturn(target) { after := after.(pendingExcReturn := Some(target)); }
      else { after := BranchWritePc(after, target); }
    }
  }

  // ---------------------------------------------------------------- multiply, divide and lanes

  predicate IsMathFast(fast: JitFast) {
    fast in {MulReg, MlaMls, LongMul, DivideFast, AluSingle, DspFast}
  }

  lemma MathKinds(d: Decoded)
    requires IsMathFast(Classify(d))
    ensures d.kind.Math? && Classify(d) == ClassifyMath(d.kind.op, d)
  {
    hide ClassifyMath, TransferForm, PlainWord;
  }

  lemma MathClass(d: Decoded, c: CpuState, m: Memory)
    requires IsMathFast(Classify(d))
    ensures d.kind.Math? && Classify(d) == ClassifyMath(d.kind.op, d)
    ensures Execute(d, c, m) == Done(ExecMath(d.kind.op, d, c), m)
  {
    hide Classify, ExecMath, ClassifyMath;
    MathKinds(d);
  }

  method MultiplyHandler(d: Decoded, c: CpuState) returns (after: CpuState)
    requires d.kind.Math? && d.kind.op in {Mul, Mla, Mls}
    ensures after == ExecMath(d.kind.op, d, c)
  {
    hide ReadRegister, WriteRegister, Wrap;
    var op := d.kind.op;
    var left: int, right: int := ReadRegister(c, d.rn), ReadRegister(c, d.rm);
    if op == Mul {
      var value := Wrap(left * right);
      after := WriteRegister(c, d.rd, value);
      if d.setFlags { after := after.(psr := SetNz(c.psr, value)); }
      WriteKeepsPsr(c, d.rd);
    } else {
      var product: int, addend: int := Wrap(left * right), ReadRegister(c, d.ra);
      after := WriteRegister(c, d.rd, if op == Mla then Wrap(product + addend) else Wrap(addend - product));
    }
  }

  method LongMultiplyHandler(d: Decoded, c: CpuState) returns (after: CpuState)
    requires d.kind.Math? && d.kind.op in {Umull, Smull}
    ensures after == ExecMath(d.kind.op, d, c)
  {
    hide ReadRegister, WriteRegister, LongProduct, LowHalf, HighHalf;
    var bits := LongProduct(d.kind.op == Smull, ReadRegister(c, d.rn), ReadRegister(c, d.rm));
    after := WriteRegister(c, d.rd, LowHalf(bits));
    after := WriteRegister(after, d.ra, HighHalf(bits));
  }

  method DivideHandler(d: Decoded, c: CpuState) returns (after: CpuState)
    requires d.kind.Math? && d.kind.op in {Udiv, Sdiv}
    ensures after == ExecMath(d.kind.op, d, c)
  {
    hide ReadRegister, WriteRegister, Wrap, Truncate, Signed;
    if d.kind.op == Udiv {
      var divisor := ReadRegister(c, d.rm);
      var value := 0;
      if divisor != 0 {
        DivBound(ReadRegister(c, d.rn), divisor);
        value := ReadRegister(c, d.rn) / divisor;
      }
      after := WriteRegister(c, d.rd, value);
    } else {
      SignedZero(ReadRegister(c, d.rm));
      var dividend, divisor := Signed(ReadRegister(c, d.rn)), Signed(ReadRegister(c, d.rm));
      var quotient := 0;
      if divisor != 0 {
        if dividend == -0x8000_0000 && divisor == -1 { quotient := -0x8000_0000; }
        else { quotient := Truncate(dividend, divisor); }
      }
      WrapMost();
      after := WriteRegister(c, d.rd, Wrap(quotient));
    }
  }

  lemma SignedZero(x: Word)
    ensures Signed(x) == 0 <==> x == 0
  {
  }

  lemma WrapMost()
    ensures Wrap(-0x8000_0000) == 0x8000_0000 && Wrap(0) == 0
  {
  }

  method SingleHandler(d: Decoded, c: CpuState) returns (after: CpuState)
    requires d.kind.Math? && d.kind.op in {Clz, Rev, Rev16, Revsh}
    ensures after == ExecMath(d.kind.op, d, c)
  {
    hide ReadRegister, WriteRegister, ByteOf, LeadingZeros;
    var op, source := d.kind.op, ReadRegister(c, d.rm);
    if op == Clz {
      after := WriteRegister(c, d.rd, LeadingZeros(source, 32));
    } else if op == Rev {
      after := WriteRegister(c, d.rd,
        ByteOf(source, 0) * 0x100_0000 + ByteOf(source, 1) * 0x1_0000 + ByteOf(source, 2) * 0x100 + ByteOf(source, 3));
    } else if op == Rev16 {
      after := WriteRegister(c, d.rd,
        (ByteOf(source, 0) + ByteOf(source, 2) * 0x1_0000) * 0x100 + ByteOf(source, 1) + ByteOf(source, 3) * 0x1_0000);
    } else {
      var value: Word := ByteOf(source, 0) * 0x100 + ByteOf(source, 1);
      if value >= 0x8000 { value := value + 0xffff_0000; }
      after := WriteRegister(c, d.rd, value);
    }
  }

  /** The byte weight of a lane. */
  function LaneWeight(lane: nat): nat
    requires lane < 4
  {
    if lane == 0 then 1 else if lane == 1 then 0x100 else if lane == 2 then 0x1_0000 else 0x100_0000
  }

  method AddLanes(left: Word, right: Word) returns (value: Word, ge: nat)
    ensures value == LaneSums(left, right) && ge == LaneCarries(left, right)
  {
    hide ByteOf;
    var total, carries := 0, 0;
    for lane := 0 to 4
      invariant lane == 0 ==> total == 0 && carries == 0
      invariant lane == 1 ==>
                  total == LaneSum(left, right, 0) % 0x100 && carries == GeBit(LaneSum(left, right, 0) >= 0x100, 0)
      invariant lane >= 2 ==> total == LanesBelow(left, right, lane) && carries == CarriesBelow(left, right, lane)
    {
      var sum := ByteOf(left, lane) + ByteOf(right, lane);
      total := total + sum % 0x100 * LaneWeight(lane);
      if sum >= 0x100 { carries := carries + GeBit(true, lane); }
    }
    value, ge := total, carries;
  }

  /** The sums and carries of the lanes below `n`. */
  function LanesBelow(a: Word, b: Word, n: nat): nat
    requires 2 <= n <= 4
  {
    LaneSum(a, b, 0) % 0x100 + 0x100 * (LaneSum(a, b, 1) % 0x100)
    + (if n > 2 then 0x1_0000 * (LaneSum(a, b, 2) % 0x100) else 0)
    + if n > 3 then 0x100_0000 * (LaneSum(a, b, 3) % 0x100) else 0
  }

  function CarriesBelow(a: Word, b: Word, n: nat): nat
    requires 2 <= n <= 4
  {
    GeBit(LaneSum(a, b, 0) >= 0x100, 0) + GeBit(LaneSum(a, b, 1) >= 0x100, 1)
    + (if n > 2 then GeBit(LaneSum(a, b, 2) >= 0x100, 2) else 0)
    + if n > 3 then GeBit(LaneSum(a, b, 3) >= 0x100, 3) else 0
  }

  method SelectLanes(ge: int, left: Word, right: Word) returns (value: Word)
    ensures value == LaneSelect(ge, left, right)
  {
    hide ByteOf, GeSet;
    var total := 0;
    for lane := 0 to 4
      invariant lane == 0 ==> total == 0
      invariant lane == 1 ==> total == SelectLane(ge, left, right, 0)
      invariant lane == 2 ==> total == SelectLane(ge, left, right, 0) + 0x100 * SelectLane(ge, left, right, 1)
      invariant lane == 3 ==> total == SelectLane(ge, left, right, 0) + 0x100 * SelectLane(ge, left, right, 1)
                                       + 0x1_0000 * SelectLane(ge, left, right, 2)
      invariant lane == 4 ==> total == LaneSelect(ge, left, right)
    {
      var chosen: int := if GeSet(ge, lane) then ByteOf(left, lane) else ByteOf(right, lane);
      total := total + chosen * LaneWeight(lane);
    }
    value := total;
  }

  method DspHandler(d: Decoded, c: CpuState) returns (after: CpuState)
    requires d.kind.Math? && d.kind.op in {Bfc, Uadd8, Sel}
    ensures after == ExecMath(d.kind.op, d, c)
  {
    hide ReadRegister, WriteRegister, LaneSums, LaneCarries, LaneSelect, Words.And, Words.Not, FieldMask;
    if d.kind.op == Bfc {
      after := WriteRegister(c, d.rd, Words.And(ReadRegister(c, d.rd), Words.Not(FieldMask(d.shiftAmount, d.imm))));
    } else {
      var left, right := ReadRegister(c, d.rn), ReadRegister(c, d.rm);
      if d.kind.op == Uadd8 {
        var value, ge := AddLanes(left, right);
        after := WriteRegister(c, d.rd, value);
        WriteKeepsPsr(c, d.rd);
        after := after.(psr := c.psr.(ge := ge));
      } else {
        var value := SelectLanes(c.psr.ge, left, right);
        after := WriteRegister(c, d.rd, value);
      }
    }
  }

  method MathHandler(d: Decoded, c: CpuState, ghost m: Memory) returns (after: CpuState)
    requires IsMathFast(Classify(d))
    ensures Execute(d, c, m) == Done(after, m)
  {
    hide Classify, Execute, ExecMath;
    MathClass(d, c, m);
    var op := d.kind.op;
    if op in {Mul, Mla, Mls} { after := MultiplyHandler(d, c); }
    else if op in {Umull, Smull} { after := LongMultiplyHandler(d, c); }
    else if op in {Udiv, Sdiv} { after := DivideHandler(d, c); }
    else if op in {Clz, Rev, Rev16, Revsh} { after := SingleHandler(d, c); }
    else { after := DspHandler(d, c); }
  }

  // ---------------------------------------------------------------- doubleword transfers

  lemma DoubleKinds(d: Decoded)
    requires Classify(d) == LdrdStrd
    ensures d.kind.Double? && TransferForm(d)
  {
    hide PlainWord;
  }

  lemma DoubleClass(d: Decoded, pc: Word, c: CpuState, m: Memory, bus: FastBus)
    requires Classify(d) == LdrdStrd
    ensures d.kind.Double? && Execute(d, c, m) == ExecDouble(d.kind.load, d, c, m)
    ensures Accepts(d, pc, c, m, bus) <==>
            if d.kind.load then TryReadWords(bus, pc, DoubleAddress(d, c), 2, m).Some?
            else TryWriteWords(bus, pc, DoubleAddress(d, c), [ReadRegister(c, d.rd), ReadRegister(c, d.ra)], m).Some?
  {
    hide Classify, ExecDouble, TryReadWords, TryWriteWords, DoubleAddress, ReadRegister;
    DoubleKinds(d);
  }

  /** A run of two words is the two words. */
  lemma TwoWords(m: Memory, a: int, v: Word, w: Word)
    ensures LoadWords(m, a, 2) ==
            match Load(m, a, Four)
            case None => None
            case Some(first) =>
              match Load(m, a + 4, Four)
              case None => None
              case Some(second) => Some([first, second])
    ensures StoreWords(m, a, [v, w]) ==
            match Store(m, a, Four, v)
            case None => None
            case Some(m1) => Store(m1, a + 4, Four, w)
  {
    hide Load, Store, LoadWords, StoreWords;
    ConsLoad(m, a, 1);
    ConsLoad(m, a + 4, 0);
    LoadsNone(m, a + 8);
    assert forall x: Word, y: Word {:trigger [x, y]} :: [x] + ([y] + []) == [x, y];
    assert [v, w] == [v] + [w] && [w] == [w] + [];
    ConsStore(m, a, v, [w]);
    if Store(m, a, Four, v).Some? {
      var m1 := Store(m, a, Four, v).value;
      ConsStore(m1, a + 4, w, []);
      if Store(m1, a + 4, Four, w).Some? { StoresNothing(Store(m1, a + 4, Four, w).value, a + 8); }
    }
  }

  lemma StoresNothing(m: Memory, a: int)
    ensures StoreWords(m, a, []) == Some(m)
  {
  }

  method DoubleAddresses(d: Decoded, c: CpuState) returns (offsetAddress: Word, address: Word)
    ensures d.form != RegisterValue ==> offsetAddress == DoubleOffset(d, c) && address == DoubleAddress(d, c)
  {
    hide ReadRegister, ShiftC;
    var base, offset := ReadRegister(c, d.rn), d.imm;
    if d.form == RegisterValue { offset := ShiftC(ReadRegister(c, d.rm), d.shiftType, d.shiftAmount, c.psr.c).value; }
    offsetAddress := if d.add then Words.Add(base, offset) else Words.Sub(base, offset);
    address := if d.index then offsetAddress else base;
  }

  method DoubleHandler(d: Decoded, pc: Word, c: CpuState, m: Memory, bus: FastBus)
    returns (handled: bool, after: CpuState, mem: Memory)
    requires Classify(d) == LdrdStrd && FastDecoded(d)
    ensures handled <==> Accepts(d, pc, c, m, bus)
    ensures handled ==> Execute(d, c, m) == Done(after, mem)
  {
    hide Classify, Execute, Accepts, LoadWords, StoreWords, Load, Store, ReadRegister, WriteRegister, ShiftC;
    DoubleClass(d, pc, c, m, bus);
    handled, after, mem := false, c, m;
    var offsetAddress, address := DoubleAddresses(d, c);
    TwoWords(m, address, ReadRegister(c, d.rd), ReadRegister(c, d.ra));
    if d.kind.load {
      var words := TryReadWords(bus, pc, address, 2, m);
      if words.None? { return; }
      handled, after := true, WriteRegister(WriteRegister(c, d.rd, words.value[0]), d.ra, words.value[1]);
    } else {
      var written := TryWriteWords(bus, pc, address, [ReadRegister(c, d.rd), ReadRegister(c, d.ra)], m);
      if written.None? { return; }
      handled, mem := true, written.value;
    }
    if d.writeback { after := WriteRegister(after, d.rn, offsetAddress); }
  }
}
