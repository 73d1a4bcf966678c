/** Thirty-two bit primitives shared by every execution form: AddWithCarry, the
    barrel shifter, condition evaluation and the fields of xPSR.

    A word is an integer below 2^32 and wrap-around is written out. A mask with a
    constant is division or remainder by a power of two: `x & ~1` is `x - x % 2`,
    bit 31 is `x >= 2^31`. Section A2.2.1 of the ARMv7-M Architecture Reference
    Manual gives the shift and addition pseudocode, section A7.3 the conditions. */
module Words {

  datatype Option<+T> = None | Some(value: T)

  type Word = x: int | 0 <= x < 0x1_0000_0000

  type Byte = x: int | 0 <= x < 0x100

  datatype Condition =
    | EQ | NE | CS | CC | MI | PL | VS | VC
    | HI | LS | GE | LT | GT | LE | AL | NV

  datatype ShiftType = Lsl | Lsr | Asr | Ror | Rrx

  datatype AddResult = AddResult(value: Word, n: bool, z: bool, c: bool, v: bool)

  datatype ShiftResult = ShiftResult(value: Word, carry: bool)

  /** xPSR by field. `it` mirrors the split EPSR.IT bits as one byte; `stackAlign` is
      bit 9, set only in a stacked copy. */
  datatype Psr = Psr(
    n: bool, z: bool, c: bool, v: bool, q: bool,
    t: bool, it: Byte, ge: int, stackAlign: bool, ipsr: int, reserved: int)

  function Wrap(x: int): (r: Word)
    ensures 0 <= x < 0x1_0000_0000 ==> r == x
  {
    x % 0x1_0000_0000
  }

  function Add(x: Word, y: int): Word {
    Wrap(x + y)
  }

  function Sub(x: Word, y: int): Word {
    Wrap(x - y)
  }

  /** `x & ~1`. */
  function ClearBit0(x: Word): Word {
    x - x % 2
  }

  /** `x | 1`. */
  function SetBit0(x: Word): Word {
    x - x % 2 + 1
  }

  /** `x & ~3`. */
  function AlignWord(x: Word): Word {
    x - x % 4
  }

  function Not(x: Word): Word {
    0xffff_ffff - x
  }

  predicate Negative(x: Word) {
    x >= 0x8000_0000
  }

  function Pow2(n: nat): (r: nat)
    ensures r >= 1
  {
    if n == 0 then 1 else 2 * Pow2(n - 1)
  }

  datatype Gate = AndGate | OrGate | XorGate

  predicate GateBit(g: Gate, a: bool, b: bool) {
    match g
    case AndGate => a && b
    case OrGate => a || b
    case XorGate => a != b
  }

  /** The low `n` bits of a bitwise operation. */
  function Bitwise(g: Gate, x: nat, y: nat, n: nat): (r: nat)
    ensures r < Pow2(n)
  {
    if n == 0 then 0
    else 2 * Bitwise(g, x / 2, y / 2, n - 1) + (if GateBit(g, x % 2 == 1, y % 2 == 1) then 1 else 0)
  }

  lemma Pow2Of32()
    ensures Pow2(32) == 0x1_0000_0000
  {
    assert Pow2(8) == 256;
    assert Pow2(12) == 16 * Pow2(8);
    assert Pow2(16) == 16 * Pow2(12);
    assert Pow2(20) == 16 * Pow2(16);
    assert Pow2(24) == 16 * Pow2(20);
    assert Pow2(28) == 16 * Pow2(24);
    assert Pow2(32) == 16 * Pow2(28);
  }

  function BitOp(g: Gate, x: Word, y: Word): Word {
    Pow2Of32();
    Bitwise(g, x, y, 32)
  }

  function And(x: Word, y: Word): Word { BitOp(AndGate, x, y) }
  function Or(x: Word, y: Word): Word { BitOp(OrGate, x, y) }
  function Xor(x: Word, y: Word): Word { BitOp(XorGate, x, y) }

  function AddWithCarry(x: Word, y: Word, carryIn: bool): AddResult {
    var wide := x + y + (if carryIn then 1 else 0);
    var value := Wrap(wide);
    AddResult(value, Negative(value), value == 0, wide >= 0x1_0000_0000,
              Negative(x) == Negative(y) && Negative(x) != Negative(value))
  }

  /** `value << amount` for `amount` below 32. */
  function ShiftLeft(value: Word, amount: nat): Word {
    Wrap(value * Pow2(amount))
  }

  /** `value >> amount` for `amount` below 32. */
  function ShiftRight(value: Word, amount: nat): (r: Word)
    ensures r <= value
  {
    DivBound(value, Pow2(amount));
    value / Pow2(amount)
  }

  lemma DivBound(x: nat, d: nat)
    requires d >= 1
    ensures 0 <= x / d <= x && 0 <= x % d <= x
  {
    MulBound(x / d, d);
  }

  lemma {:induction false} MulBound(q: nat, d: nat)
    requires d >= 1
    ensures q <= q * d
    decreases d
  {
    if d > 1 {
      MulBound(q, d - 1);
      assert q * d == q * (d - 1) + q;
    }
  }

  lemma SubNear(x: Word, y: nat)
    requires y <= x
    ensures Sub(x, y) == x - y
  {
  }

  lemma WrapNear(x: int)
    ensures 0 <= x < 0x1_0000_0000 ==> Wrap(x) == x
    ensures 0x1_0000_0000 <= x < 0x2_0000_0000 ==> Wrap(x) == x - 0x1_0000_0000
    ensures -0x1_0000_0000 <= x < 0 ==> Wrap(x) == x + 0x1_0000_0000
  {
  }

  function RotateRight(value: Word, amount: nat): Word {
    var rotation := amount % 32;
    if rotation == 0 then value
    else Or(ShiftRight(value, rotation), ShiftLeft(value, 32 - rotation))
  }

  function ShiftC(value: Word, kind: ShiftType, amount: nat, oldCarry: bool): ShiftResult {
    match kind
    case Lsl =>
      if amount == 0 then ShiftResult(value, oldCarry)
      else if amount < 32 then ShiftResult(ShiftLeft(value, amount), ShiftRight(value, 32 - amount) % 2 == 1)
      else if amount == 32 then ShiftResult(0, value % 2 == 1)
      else ShiftResult(0, false)
    case Lsr =>
      if amount == 0 then ShiftResult(value, oldCarry)
      else if amount < 32 then ShiftResult(ShiftRight(value, amount), ShiftRight(value, amount - 1) % 2 == 1)
      else if amount == 32 then ShiftResult(0, Negative(value))
      else ShiftResult(0, false)
    case Asr =>
      if amount == 0 then ShiftResult(value, oldCarry)
      else if amount < 32 then
        var fill := if Negative(value) then ShiftLeft(0xffff_ffff, 32 - amount) else 0;
        ShiftResult(Or(ShiftRight(value, amount), fill), ShiftRight(value, amount - 1) % 2 == 1)
      else ShiftResult(if Negative(value) then 0xffff_ffff else 0, Negative(value))
    case Ror =>
      if amount == 0 then ShiftResult(value, oldCarry)
      else if amount % 32 == 0 then ShiftResult(value, Negative(value))
      else
        var shifted := RotateRight(value, amount);
        ShiftResult(shifted, Negative(shifted))
    case Rrx =>
      ShiftResult((if oldCarry then 0x8000_0000 else 0) + value / 2, value % 2 == 1)
  }

  lemma ShiftByZero(value: Word, oldCarry: bool)
    ensures ShiftC(value, Lsl, 0, oldCarry) == ShiftResult(value, oldCarry)
  {
  }

  predicate ConditionPasses(condition: Condition, p: Psr) {
    match condition
    case EQ => p.z
    case NE => !p.z
    case CS => p.c
    case CC => !p.c
    case MI => p.n
    case PL => !p.n
    case VS => p.v
    case VC => !p.v
    case HI => p.c && !p.z
    case LS => !p.c || p.z
    case GE => p.n == p.v
    case LT => p.n != p.v
    case GT => !p.z && p.n == p.v
    case LE => p.z || p.n != p.v
    case AL => true
    case NV => false
  }

  function SetNz(p: Psr, value: Word): Psr {
    p.(n := Negative(value), z := value == 0)
  }

  function SetNzc(p: Psr, value: Word, carry: bool): Psr {
    SetNz(p, value).(c := carry)
  }

  function SetNzcv(p: Psr, r: AddResult): Psr {
    p.(n := r.n, z := r.z, c := r.c, v := r.v)
  }

  /** Two's complement reading of a word. */
  function Signed(x: Word): int {
    if Negative(x) then x - 0x1_0000_0000 else x
  }

  /** AddWithCarry returns the sum modulo 2^32; C is unsigned overflow and V signed overflow. */
  lemma AddWithCarryMeaning(x: Word, y: Word, carryIn: bool)
    ensures
      var r := AddWithCarry(x, y, carryIn);
      var extra := if carryIn then 1 else 0;
      && (r.value == x + y + extra - (if r.c then 0x1_0000_0000 else 0))
      && (r.v <==> !(-0x8000_0000 <= Signed(x) + Signed(y) + extra < 0x8000_0000))
      && (!r.v ==> Signed(r.value) == Signed(x) + Signed(y) + extra)
  {
  }

  /** CMP followed by a condition is the comparison the condition is named after. */
  lemma CompareConditions(p: Psr, x: Word, y: Word)
    ensures
      var flags := SetNzcv(p, AddWithCarry(x, Not(y), true));
      && (ConditionPasses(EQ, flags) <==> x == y)
      && (ConditionPasses(CS, flags) <==> x >= y)
      && (ConditionPasses(HI, flags) <==> x > y)
      && (ConditionPasses(GE, flags) <==> Signed(x) >= Signed(y))
      && (ConditionPasses(GT, flags) <==> Signed(x) > Signed(y))
  {
  }
}
