/** The checked Cortex-M4: architectural state, byte memory, the executor and the
    single step. Every faster execution form in this project is proved against `Step`. */
module Cpu {
  import opened Words
  import opened MathOps

  // ---------------------------------------------------------------- instructions

  datatype OperandForm = NoOperand | Immediate | RegisterValue | Literal | RegisterList

  /** Operations with an executor arm in this model: `Math` groups multiply, divide, count, reverse
      and parallel byte operations, `Double` is LDRD or STRD, and `Other` stands for the rest (table
      branches, system and floating-point instructions). */
  datatype InstrKind =
    | Mov | Movw | Movt
    | Add | Adc | Sub | Sbc | Rsb | Cmp | Cmn | Tst
    | And | Orr | Eor | Bic | Mvn | Orn
    | Ubfx | Sxtb | Sxth | Uxtb | Uxth
    | Lsl | Lsr | Asr | Ror | Rrx
    | Ldr | Str | Ldrb | Strb | Ldrh | Strh | Ldrsb | Ldrsh
    | Ldm | Stm | Push | Pop
    | B | Bl | Bx | Blx | Cbz | Cbnz
    | It | Nop | Dmb | Dsb | Isb
    | Math(op: MathKind) | Double(load: bool)
    | Other

  /** A register list is its sixteen bits, index 0 for r0. */
  type RegList = s: seq<bool> | |s| == 16 witness seq(16, i => false)

  datatype Decoded = Decoded(
    kind: InstrKind, condition: Condition, form: OperandForm,
    rd: nat, rn: nat, rm: nat, ra: nat,
    imm: Word, branchOffset: int, registerList: RegList,
    shiftType: ShiftType, shiftAmount: Byte, setFlags: bool,
    index: bool, add: bool, writeback: bool,
    immediateCarryValid: bool, immediateCarry: bool,
    fpDouble: bool, is32Bit: bool, raw: Word)

  function CountFrom(list: RegList, i: nat): (n: nat)
    requires i <= 16
    ensures n <= 16 - i
    decreases 16 - i
  {
    if i == 16 then 0 else (if list[i] then 1 else 0) + CountFrom(list, i + 1)
  }

  /** std::popcount of a register list. */
  function Count(list: RegList): (n: nat)
    ensures n <= 16
  {
    CountFrom(list, 0)
  }

  predicate IsExceptionReturn(value: Word) {
    || value == 0xffff_fff1 || value == 0xffff_fff9 || value == 0xffff_fffd
    || value == 0xffff_ffe1 || value == 0xffff_ffe9 || value == 0xffff_ffed
  }

  // ---------------------------------------------------------------- state

  type Regs = s: seq<Word> | |s| == 16 witness seq(16, i => 0)

  datatype Control = Control(npriv: bool, spsel: bool, fpca: bool)

  /** Mask registers and the floating-point file, which the integer core only carries.
      S registers are opaque words. */
  datatype Extra = Extra(
    primask: Word, basepri: Word, faultmask: Word,
    s: seq<Word>, fpscr: Word, lazyActive: bool, lazyBase: Word)

  datatype CpuState = CpuState(
    r: Regs, psr: Psr, msp: Word, psp: Word, control: Control,
    thumb: bool, halted: bool,
    pendingException: Option<nat>, pendingExcReturn: Option<Word>,
    itState: Byte, instructionAddress: Word, extra: Extra)

  predicate InHandlerMode(c: CpuState) {
    c.psr.ipsr != 0
  }

  predicate UsesMsp(c: CpuState) {
    InHandlerMode(c) || !c.control.spsel
  }

  function ActiveSp(c: CpuState): Word {
    if UsesMsp(c) then c.msp else c.psp
  }

  function WithActiveSp(c: CpuState, value: Word): CpuState {
    if UsesMsp(c) then c.(msp := value) else c.(psp := value)
  }

  function PcForRead(c: CpuState): Word {
    Words.Add(c.instructionAddress, 4)
  }

  function ReadRegister(c: CpuState, i: nat): Word {
    if i == 13 then ActiveSp(c)
    else if i == 15 then PcForRead(c)
    else if i < 16 then c.r[i]
    else 0
  }

  function WriteRegister(c: CpuState, i: nat, value: Word): CpuState {
    if i >= 16 then c
    else if i == 13 then var c1 := WithActiveSp(c, value); c1.(r := c1.r[13 := value])
    else c.(r := c.r[i := value])
  }

  function WithPc(c: CpuState, value: Word): CpuState {
    c.(r := c.r[15 := value])
  }

  function WithLr(c: CpuState, value: Word): CpuState {
    c.(r := c.r[14 := value])
  }

  /** branchWritePc on a target whose Thumb bit is set. */
  function BranchWritePc(c: CpuState, target: Word): CpuState {
    WithPc(c, ClearBit0(target)).(thumb := true, psr := c.psr.(t := true))
  }

  function SetItState(c: CpuState, value: Byte): CpuState {
    c.(itState := value, psr := c.psr.(it := value))
  }

  predicate InItBlock(it: Byte) {
    it % 16 != 0
  }

  function ConditionOf(code: nat): Condition
    requires code < 16
  {
    [EQ, NE, CS, CC, MI, PL, VS, VC, HI, LS, GE, LT, GT, LE, AL, NV][code]
  }

  function CurrentItCondition(it: Byte): Condition {
    ConditionOf(it / 16)
  }

  /** `(it & 0xe0) | ((it << 1) & 0x1f)`, or zero when the last slot retires. */
  function AdvanceItState(it: Byte): Byte {
    if it % 8 == 0 then 0 else it / 32 * 32 + (it * 2) % 32
  }

  // ---------------------------------------------------------------- memory

  /** Byte-addressed memory. A missing address faults; a store also needs `writable`,
      which never holds code: instruction bytes are stable while the core runs. */
  datatype Memory = Memory(bytes: map<int, Byte>, writable: set<int>)

  predicate Readable(m: Memory, a: int, w: nat) {
    forall x | a <= x < a + w :: x in m.bytes
  }

  predicate Writable(m: Memory, a: int, w: nat) {
    Readable(m, a, w) && forall x | a <= x < a + w :: x in m.writable
  }

  datatype Width = One | Two | Four

  function Bytes(w: Width): (n: nat)
    ensures 1 <= n <= 4
  {
    match w case One => 1 case Two => 2 case Four => 4
  }

  function Join(b0: Byte, b1: Byte, b2: Byte, b3: Byte): Word {
    b0 as int + 0x100 * b1 as int + 0x1_0000 * b2 as int + 0x100_0000 * b3 as int
  }

  /** Little-endian load. */
  function Load(m: Memory, a: int, w: Width): Option<Word> {
    if !Readable(m, a, Bytes(w)) then None
    else
      match w
      case One => Some(m.bytes[a])
      case Two => Some(Join(m.bytes[a], m.bytes[a + 1], 0, 0))
      case Four => Some(Join(m.bytes[a], m.bytes[a + 1], m.bytes[a + 2], m.bytes[a + 3]))
  }

  /** Little-endian store of the low bytes of `v`. */
  function Store(m: Memory, a: int, w: Width, v: Word): Option<Memory> {
    if !Writable(m, a, Bytes(w)) then None
    else
      match w
      case One => Some(m.(bytes := m.bytes[a := v % 0x100]))
      case Two => Some(m.(bytes := m.bytes[a := v % 0x100][a + 1 := v / 0x100 % 0x100]))
      case Four => Some(m.(bytes := m.bytes[a := v % 0x100][a + 1 := v / 0x100 % 0x100]
                                    [a + 2 := v / 0x1_0000 % 0x100][a + 3 := v / 0x100_0000]))
  }

  function SignExtend(value: Word, w: Width): Word {
    match w
    case One => if value < 0x100 && value >= 0x80 then value + 0xffff_ff00 else value
    case Two => if value < 0x1_0000 && value >= 0x8000 then value + 0xffff_0000 else value
    case Four => value
  }

  // ---------------------------------------------------------------- executor

  datatype Stop = StepComplete | BusFault | InvalidState | CpuHalted | NoInstruction | Unmodelled

  datatype Exec = Exec(cpu: CpuState, mem: Memory, stop: Stop)

  function Done(c: CpuState, m: Memory): Exec {
    Exec(c, m, StepComplete)
  }

  function FailInvalid(c: CpuState, m: Memory): Exec {
    Exec(c.(halted := true), m, InvalidState)
  }

  function ShiftedOperand(d: Decoded, c: CpuState): ShiftResult {
    if d.form == Immediate then
      ShiftResult(d.imm, if d.immediateCarryValid then d.immediateCarry else c.psr.c)
    else
      ShiftC(ReadRegister(c, d.rm), d.shiftType, d.shiftAmount, c.psr.c)
  }

  /** What a data-processing instruction does: the register it writes, if any, the value,
      and xPSR afterwards. */
  datatype Alu = Alu(dest: Option<nat>, value: Word, psr: Psr)

  function ApplyAlu(e: Alu, c: CpuState): CpuState {
    (match e.dest case None => c case Some(rd) => WriteRegister(c, rd, e.value)).(psr := e.psr)
  }

  function MovAlu(d: Decoded, c: CpuState): Alu {
    var shifted := ShiftedOperand(d, c);
    Alu(Some(d.rd), shifted.value, if d.setFlags then SetNzc(c.psr, shifted.value, shifted.carry) else c.psr)
  }

  function ExecMov(d: Decoded, c: CpuState, m: Memory): Exec {
    var e := MovAlu(d, c);
    if d.rd != 15 then Done(ApplyAlu(e, c), m)
    else if e.value % 2 == 0 then FailInvalid(c, m)
    else Done(BranchWritePc(c, e.value).(psr := e.psr.(t := true)), m)
  }

  function MovHalfAlu(d: Decoded, c: CpuState): Alu {
    Alu(Some(d.rd),
        if d.kind == Movw then d.imm
        else ReadRegister(c, d.rd) % 0x1_0000 + d.imm % 0x1_0000 * 0x1_0000,
        c.psr)
  }

  function AddSubAlu(d: Decoded, c: CpuState): Alu {
    var left0 := ReadRegister(c, d.rn);
    var left := if d.rn == 15 && d.form == Immediate then AlignWord(left0) else left0;
    var right := ShiftedOperand(d, c).value;
    var subtract := d.kind == InstrKind.Sub || d.kind == Sbc;
    var carryIn := if d.kind == Adc || d.kind == Sbc then c.psr.c else subtract;
    var result := AddWithCarry(left, if subtract then Words.Not(right) else right, carryIn);
    Alu(Some(d.rd), if d.rd == 15 then ClearBit0(result.value) else result.value,
        if d.setFlags then SetNzcv(c.psr, result) else c.psr)
  }

  function RsbAlu(d: Decoded, c: CpuState): Alu {
    var left := if d.form == Immediate then d.imm else if d.is32Bit then ShiftedOperand(d, c).value else 0;
    var right := if d.form == Immediate || d.is32Bit then ReadRegister(c, d.rn) else ReadRegister(c, d.rm);
    var result := AddWithCarry(left, Words.Not(right), true);
    Alu(Some(d.rd), result.value, if d.setFlags then SetNzcv(c.psr, result) else c.psr)
  }

  function CompareAlu(d: Decoded, c: CpuState): Alu {
    var left := ReadRegister(c, d.rn);
    var right := ShiftedOperand(d, c).value;
    var result := if d.kind == Cmp then AddWithCarry(left, Words.Not(right), true)
                  else AddWithCarry(left, right, false);
    Alu(None, 0, SetNzcv(c.psr, result))
  }

  function TstAlu(d: Decoded, c: CpuState): Alu {
    var shifted := ShiftedOperand(d, c);
    Alu(None, 0, SetNzc(c.psr, Words.And(ReadRegister(c, d.rn), shifted.value), shifted.carry))
  }

  function LogicValue(kind: InstrKind, left: Word, right: Word): Word {
    match kind
    case And => Words.And(left, right)
    case Orr => Words.Or(left, right)
    case Eor => Words.Xor(left, right)
    case Bic => Words.And(left, Words.Not(right))
    case Mvn => Words.Not(right)
    case Orn => Words.Or(left, Words.Not(right))
    case _ => 0
  }

  function LogicAlu(d: Decoded, c: CpuState): Alu {
    var shifted := ShiftedOperand(d, c);
    var value := LogicValue(d.kind, ReadRegister(c, d.rn), shifted.value);
    Alu(Some(d.rd), value, if d.setFlags then SetNzc(c.psr, value, shifted.carry) else c.psr)
  }

  /** Bit-field extract of `width` bits starting at `lsb`. */
  function ExtractField(value: Word, lsb: nat, width: nat): Word {
    var field := ShiftRight(value, lsb);
    if width >= 32 then field else DivBound(field, Pow2(width)); field % Pow2(width)
  }

  function ExtendValue(kind: InstrKind, rotated: Word): Word {
    match kind
    case Uxtb => rotated % 0x100
    case Uxth => rotated % 0x1_0000
    case Sxtb => SignExtend(rotated % 0x100, One)
    case Sxth => SignExtend(rotated % 0x1_0000, Two)
    case _ => rotated
  }

  function FieldAlu(d: Decoded, c: CpuState): Alu {
    Alu(Some(d.rd),
        if d.kind == Ubfx then ExtractField(ReadRegister(c, d.rn), d.shiftAmount, d.imm)
        else ExtendValue(d.kind, RotateRight(ReadRegister(c, d.rm), d.shiftAmount)),
        c.psr)
  }

  function ShiftAlu(d: Decoded, c: CpuState): Alu {
    var value := if d.form == Immediate then ReadRegister(c, d.rm) else ReadRegister(c, d.rn);
    var amount := if d.form == Immediate then d.shiftAmount else ReadRegister(c, d.rm) % 0x100;
    var result := ShiftC(value, d.shiftType, amount, c.psr.c);
    Alu(Some(d.rd), result.value, if d.setFlags then SetNzc(c.psr, result.value, result.carry) else c.psr)
  }

  /** The effect of a data-processing instruction, MOV to the PC apart. */
  function AluOf(d: Decoded, c: CpuState): Alu {
    match d.kind
    case Mov => MovAlu(d, c)
    case Movw | Movt => MovHalfAlu(d, c)
    case Add | Adc | Sub | Sbc => AddSubAlu(d, c)
    case Rsb => RsbAlu(d, c)
    case Cmp | Cmn => CompareAlu(d, c)
    case Tst => TstAlu(d, c)
    case And | Orr | Eor | Bic | Mvn | Orn => LogicAlu(d, c)
    case Ubfx | Uxtb | Uxth | Sxtb | Sxth => FieldAlu(d, c)
    case Lsl | Lsr | Asr | Ror | Rrx => ShiftAlu(d, c)
    case _ => Alu(None, 0, c.psr)
  }

  predicate IsStore(kind: InstrKind) {
    kind == Str || kind == Strb || kind == Strh
  }

  function AccessWidth(kind: InstrKind): Width {
    match kind
    case Ldrb | Strb | Ldrsb => One
    case Ldrh | Strh | Ldrsh => Two
    case _ => Four
  }

  function OffsetAddress(d: Decoded, c: CpuState): Word {
    var base := if d.rn == 15 then AlignWord(PcForRead(c)) else ReadRegister(c, d.rn);
    var offset := if d.form == RegisterValue
                  then ShiftC(ReadRegister(c, d.rm), d.shiftType, d.shiftAmount, c.psr.c).value else d.imm;
    if d.add then Words.Add(base, offset) else Words.Sub(base, offset)
  }

  function TransferAddress(d: Decoded, c: CpuState): Word {
    if d.index then OffsetAddress(d, c)
    else if d.rn == 15 then AlignWord(PcForRead(c)) else ReadRegister(c, d.rn)
  }

  function Writeback(d: Decoded, c: CpuState, address: Word): CpuState {
    if d.writeback then WriteRegister(c, d.rn, address) else c
  }

  function ExecStore(d: Decoded, c: CpuState, m: Memory): Exec {
    match Store(m, TransferAddress(d, c), AccessWidth(d.kind), ReadRegister(c, d.rd))
    case None => Exec(c, m, BusFault)
    case Some(m1) => Done(Writeback(d, c, OffsetAddress(d, c)), m1)
  }

  function LoadedValue(kind: InstrKind, value: Word): Word {
    if kind == Ldrsb then SignExtend(value, One) else if kind == Ldrsh then SignExtend(value, Two) else value
  }

  function ExecLoad(d: Decoded, c: CpuState, m: Memory): Exec {
    match Load(m, TransferAddress(d, c), AccessWidth(d.kind))
    case None => Exec(c, m, BusFault)
    case Some(raw) =>
      var value := LoadedValue(d.kind, raw);
      if d.rd == 15 then
        if d.kind == Ldr && IsExceptionReturn(value) then
          Done(Writeback(d, c.(pendingExcReturn := Some(value)), OffsetAddress(d, c)), m)
        else if value % 2 == 0 then FailInvalid(c, m)
        else Done(Writeback(d, BranchWritePc(c, value), OffsetAddress(d, c)), m)
      else
        Done(Writeback(d, WriteRegister(c, d.rd, value), OffsetAddress(d, c)), m)
  }

  /** The store loop of STM/PUSH from register `reg` on: memory so far, and whether every
      store succeeded. A failing store leaves the earlier ones in place. */
  function StoreMultiple(c: CpuState, m: Memory, list: RegList, reg: nat, address: Word): (Memory, bool)
    requires reg <= 16
    decreases 16 - reg
  {
    if reg == 16 then (m, true)
    else if !list[reg] then StoreMultiple(c, m, list, reg + 1, address)
    else
      match Store(m, address, Four, ReadRegister(c, reg))
      case None => (m, false)
      case Some(m1) => StoreMultiple(c, m1, list, reg + 1, Words.Add(address, 4))
  }

  /** The load loop of LDM/POP: the sixteen loaded words, or a fault. */
  function LoadMultiple(m: Memory, list: RegList, reg: nat, address: Word, loaded: Regs): Option<Regs>
    requires reg <= 16
    decreases 16 - reg
  {
    if reg == 16 then Some(loaded)
    else if !list[reg] then LoadMultiple(m, list, reg + 1, address, loaded)
    else
      match Load(m, address, Four)
      case None => None
      case Some(v) => LoadMultiple(m, list, reg + 1, Words.Add(address, 4), loaded[reg := v])
  }

  function CommitLoaded(c: CpuState, list: RegList, reg: nat, loaded: Regs): CpuState
    requires reg <= 15
    decreases 15 - reg
  {
    if reg == 15 then c
    else CommitLoaded(if list[reg] then WriteRegister(c, reg, loaded[reg]) else c, list, reg + 1, loaded)
  }

  function NoWords(): Regs {
    seq(16, i => 0)
  }

  function ExecMultiple(d: Decoded, c: CpuState, m: Memory): Exec {
    var load := d.kind == Pop || d.kind == Ldm;
    var count := Count(d.registerList);
    var base := ReadRegister(c, d.rn);
    var decrementBefore := !d.add && d.index;
    var start := if decrementBefore then Words.Sub(base, count * 4) else base;
    var finalBase := if decrementBefore then start else Words.Add(base, count * 4);
    if !load then
      var (m1, ok) := StoreMultiple(c, m, d.registerList, 0, start);
      if !ok then Exec(c, m1, BusFault) else Done(Writeback(d, c, finalBase), m1)
    else
      match LoadMultiple(m, d.registerList, 0, start, NoWords())
      case None => Exec(c, m, BusFault)
      case Some(loaded) =>
        var c1 := Writeback(d, CommitLoaded(c, d.registerList, 0, loaded), finalBase);
        if !d.registerList[15] then Done(c1, m)
        else if IsExceptionReturn(loaded[15]) then Done(c1.(pendingExcReturn := Some(loaded[15])), m)
        else if loaded[15] % 2 == 0 then FailInvalid(c1, m)
        else Done(BranchWritePc(c1, loaded[15]), m)
  }

  /** Two destination registers, written one after the other. */
  function WritePair(c: CpuState, rd: nat, ra: nat, first: Word, second: Word): CpuState {
    WriteRegister(WriteRegister(c, rd, first), ra, second)
  }

  /** The multiply, divide, count, reverse and byte-lane arms. */
  function ExecMath(op: MathKind, d: Decoded, c: CpuState): CpuState {
    var left, right := ReadRegister(c, d.rn), ReadRegister(c, d.rm);
    match op
    case Mul =>
      var value := LowProduct(left, right);
      WriteRegister(c, d.rd, value).(psr := if d.setFlags then SetNz(c.psr, value) else c.psr)
    case Mla => WriteRegister(c, d.rd, Accumulate(false, left, right, ReadRegister(c, d.ra)))
    case Mls => WriteRegister(c, d.rd, Accumulate(true, left, right, ReadRegister(c, d.ra)))
    case Umull => var p := LongProduct(false, left, right); WritePair(c, d.rd, d.ra, LowHalf(p), HighHalf(p))
    case Smull => var p := LongProduct(true, left, right); WritePair(c, d.rd, d.ra, LowHalf(p), HighHalf(p))
    case Udiv => WriteRegister(c, d.rd, UnsignedQuotient(left, right))
    case Sdiv => WriteRegister(c, d.rd, SignedQuotient(left, right))
    case Clz | Rev | Rev16 | Revsh => WriteRegister(c, d.rd, SingleValue(op, right))
    case Bfc => WriteRegister(c, d.rd, ClearField(ReadRegister(c, d.rd), d.shiftAmount, d.imm))
    case Uadd8 => WriteRegister(c, d.rd, LaneSums(left, right)).(psr := c.psr.(ge := LaneCarries(left, right)))
    case Sel => WriteRegister(c, d.rd, LaneSelect(c.psr.ge, left, right))
  }

  function DoubleOffset(d: Decoded, c: CpuState): Word {
    var base := ReadRegister(c, d.rn);
    if d.add then Words.Add(base, d.imm) else Words.Sub(base, d.imm)
  }

  function DoubleAddress(d: Decoded, c: CpuState): Word {
    if d.index then DoubleOffset(d, c) else ReadRegister(c, d.rn)
  }

  /** LDRD and STRD: two words, one after the other. A store whose second word faults has stored the
      first. */
  function ExecDouble(load: bool, d: Decoded, c: CpuState, m: Memory): Exec {
    var a, b := DoubleAddress(d, c), Words.Add(DoubleAddress(d, c), 4);
    if load then
      match Load(m, a, Four)
      case None => Exec(c, m, BusFault)
      case Some(first) =>
        match Load(m, b, Four)
        case None => Exec(c, m, BusFault)
        case Some(second) => Done(Writeback(d, WritePair(c, d.rd, d.ra, first, second), DoubleOffset(d, c)), m)
    else
      match Store(m, a, Four, ReadRegister(c, d.rd))
      case None => Exec(c, m, BusFault)
      case Some(m1) =>
        match Store(m1, b, Four, ReadRegister(c, d.ra))
        case None => Exec(c, m1, BusFault)
        case Some(m2) => Done(Writeback(d, c, DoubleOffset(d, c)), m2)
  }

  function BranchTarget(c: CpuState, offset: int): Word {
    ClearBit0(Wrap(c.instructionAddress + 4 + offset))
  }

  function ExecBranchExchange(d: Decoded, c: CpuState, m: Memory): Exec {
    var target := ReadRegister(c, d.rm);
    var c1 := if d.kind == Blx then WithLr(c, SetBit0(c.r[15])) else c;
    if d.kind == Bx && IsExceptionReturn(target) then Done(c1.(pendingExcReturn := Some(target)), m)
    else if target % 2 == 0 then FailInvalid(c1, m)
    else Done(BranchWritePc(c1, target), m)
  }

  function ExecCompareBranch(d: Decoded, c: CpuState): CpuState {
    var zero := ReadRegister(c, d.rn) == 0;
    if zero == (d.kind == Cbz) then WithPc(c, ClearBit0(Words.Add(PcForRead(c), d.imm))) else c
  }

  /** CortexM4::execute for the modelled kinds. */
  function Execute(d: Decoded, c: CpuState, m: Memory): Exec {
    match d.kind
    case Mov => ExecMov(d, c, m)
    case Movw | Movt | Add | Adc | Sub | Sbc | Rsb | Cmp | Cmn | Tst
      | And | Orr | Eor | Bic | Mvn | Orn | Ubfx | Uxtb | Uxth | Sxtb | Sxth
      | Lsl | Lsr | Asr | Ror | Rrx => Done(ApplyAlu(AluOf(d, c), c), m)
    case Ldr | Ldrb | Ldrh | Ldrsb | Ldrsh => ExecLoad(d, c, m)
    case Str | Strb | Strh => ExecStore(d, c, m)
    case Ldm | Stm | Push | Pop => ExecMultiple(d, c, m)
    case B => Done(WithPc(c, BranchTarget(c, d.branchOffset)), m)
    case Bl => Done(WithPc(WithLr(c, SetBit0(c.r[15])), BranchTarget(c, d.branchOffset)), m)
    case Bx | Blx => ExecBranchExchange(d, c, m)
    case Cbz | Cbnz => Done(ExecCompareBranch(d, c), m)
    case It => if InItBlock(c.itState) then FailInvalid(c, m) else Done(SetItState(c, d.imm % 0x100), m)
    case Nop | Dmb | Dsb | Isb => Done(c, m)
    case Math(op) => Done(ExecMath(op, d, c), m)
    case Double(load) => ExecDouble(load, d, c, m)
    case Other => Exec(c, m, Unmodelled)
  }

  // ---------------------------------------------------------------- single step

  function BasePipelineCycles(d: Decoded): nat {
    match d.kind
    case Ldr | Str | Ldrb | Strb | Ldrh | Strh | Ldrsb | Ldrsh => 2
    case Ldm | Stm | Push | Pop => 1 + Count(d.registerList)
    case B | Bl | Blx | Bx => 2
    case Dmb | Dsb | Isb => 2
    case Math(op) => MathCycles(op)
    case Double(_) => 3
    case _ => 1
  }

  function MathCycles(op: MathKind): nat {
    match op
    case Mla | Mls => 2
    case Umull | Smull => 5
    case Udiv | Sdiv => 7
    case _ => 1
  }

  predicate IsDivide(kind: InstrKind) {
    kind == Math(Udiv) || kind == Math(Sdiv)
  }

  /** The pipeline cycles of an instruction whose condition passes: those of a division depend on the
      divisor, sampled before the instruction executes. */
  function LiveCycles(d: Decoded, c: CpuState): nat {
    if IsDivide(d.kind) then DivideCycles(ReadRegister(c, d.rm)) else BasePipelineCycles(d)
  }

  function TakenBranchPenalty(kind: InstrKind): nat {
    if kind == Cbz || kind == Cbnz then 1 else 2
  }

  predicate SuppressFlagsInIt(kind: InstrKind) {
    match kind
    case Mov | Add | Adc | Sub | Sbc | Rsb | And | Orr | Eor | Bic | Mvn | Orn
      | Lsl | Lsr | Asr | Ror | Rrx => true
    case Math(op) => op == Mul
    case _ => false
  }

  /** One fetched instruction: its decode and its width in bytes. */
  datatype Fetched = Fetched(decoded: Decoded, size: int)

  /** The decoded, immutable program. */
  type Code = map<int, Fetched>

  datatype StepResult = StepResult(cpu: CpuState, mem: Memory, stop: Stop, cycles: nat)

  function EffectiveCondition(d: Decoded, c: CpuState): Condition {
    if d.kind == It then AL else if InItBlock(c.itState) then CurrentItCondition(c.itState) else d.condition
  }

  /** PC fields as the executor sees them: r15 already past the instruction. */
  function Entered(c: CpuState, size: int): CpuState {
    WithPc(c, Words.Add(c.r[15], size)).(instructionAddress := c.r[15])
  }

  /** The decoded instruction at `pc`, retired: stepFastImpl after the fetch. */
  function Retire(d: Decoded, size: int, c: CpuState, m: Memory): StepResult {
    var sequential := Words.Add(c.r[15], size);
    var inIt := InItBlock(c.itState);
    var passed := ConditionPasses(EffectiveCondition(d, c), c.psr);
    var c1 := Entered(c, size);
    var d1 := if inIt && d.setFlags && SuppressFlagsInIt(d.kind) then d.(setFlags := false) else d;
    var e := if passed then Execute(d1, c1, m) else Done(c1, m);
    var c2 := if d.kind != It && inIt then SetItState(e.cpu, AdvanceItState(e.cpu.itState)) else e.cpu;
    var base := if passed then LiveCycles(d, c) else 1;
    var refill := if passed && e.stop == StepComplete && c2.r[15] != sequential
                  then TakenBranchPenalty(d.kind) else 0;
    StepResult(c2, e.mem, e.stop, base + refill)
  }

  /** CortexM4::stepFast: at most one checked instruction. */
  function Step(code: Code, c: CpuState, m: Memory): StepResult {
    var pc := c.r[15];
    if c.halted then StepResult(c, m, CpuHalted, 0)
    else if !c.thumb || !c.psr.t || pc % 2 != 0 then StepResult(c.(halted := true), m, InvalidState, 0)
    else if pc !in code then StepResult(c, m, NoInstruction, 0)
    else Retire(code[pc].decoded, code[pc].size, c, m)
  }

  datatype RunState = RunState(cpu: CpuState, mem: Memory, cycles: nat)

  /** `n` checked steps in a row, when each of them completes. */
  function Steps(code: Code, c: CpuState, m: Memory, n: nat): Option<RunState>
    decreases n
  {
    if n == 0 then Some(RunState(c, m, 0))
    else
      var s := Step(code, c, m);
      if s.stop != StepComplete then None
      else
        match Steps(code, s.cpu, s.mem, n - 1)
        case None => None
        case Some(rest) => Some(rest.(cycles := s.cycles + rest.cycles))
  }

  /** Running `a + b` steps is running `a` and then `b`. */
  lemma {:induction false} StepsCompose(code: Code, c: CpuState, m: Memory, a: nat, b: nat)
    ensures Steps(code, c, m, a + b) == (
      match Steps(code, c, m, a)
      case None => None
      case Some(mid) =>
        match Steps(code, mid.cpu, mid.mem, b)
        case None => None
        case Some(last) => Some(last.(cycles := mid.cycles + last.cycles)))
    decreases a
  {
    hide Step;
    if a > 0 {
      var s := Step(code, c, m);
      if s.stop == StepComplete {
        StepsCompose(code, s.cpu, s.mem, a - 1, b);
      }
    }
  }
}
