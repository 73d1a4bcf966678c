/** Multiply, divide, count, reverse and parallel byte arithmetic: the operand arithmetic of the
    corresponding arms of CortexM4::execute, and what it means. */
module MathOps {
  import opened Arithmetic
  import opened Words

  datatype MathKind =
    | Mul | Mla | Mls | Umull | Smull | Udiv | Sdiv
    | Clz | Rev | Rev16 | Revsh | Bfc | Uadd8 | Sel

  // ---------------------------------------------------------------- products

  /** `a * b` in 32 bits. */
  function LowProduct(a: Word, b: Word): Word {
    Wrap(a * b)
  }

  /** MLA adds the product to the addend, MLS subtracts it. */
  function Accumulate(subtract: bool, a: Word, b: Word, addend: Word): Word {
    if subtract then Words.Sub(addend, LowProduct(a, b)) else Words.Add(LowProduct(a, b), addend)
  }

  const TWO64: int := 0x1_0000_0000_0000_0000

  /** The 64 product bits of UMULL or SMULL, as an unsigned number. */
  function LongProduct(signed: bool, a: Word, b: Word): (r: int)
    ensures 0 <= r < TWO64
  {
    (if signed then Signed(a) * Signed(b) else a * b) % TWO64
  }

  function LowHalf(p: int): Word
    requires 0 <= p < TWO64
  {
    p % 0x1_0000_0000
  }

  function HighHalf(p: int): Word
    requires 0 <= p < TWO64
  {
    p / 0x1_0000_0000
  }

  lemma {:induction false} ProductBound(x: nat, y: nat, k: nat)
    requires y <= k
    ensures x * y <= x * k
    decreases k - y
  {
    if y < k {
      ProductBound(x, y + 1, k);
      assert x * (y + 1) == x * y + x;
    }
  }

  lemma ProductRange(x: int, y: int, k: int)
    requires k >= 0 && -k <= x <= k && -k <= y <= k
    ensures -(k * k) <= x * y <= k * k
  {
    var a: nat, b: nat := if x >= 0 then x else -x, if y >= 0 then y else -y;
    ProductBound(a, b, k);
    ProductBound(k, a, k);
    assert a * k == k * a;
    assert x * y == a * b || x * y == -(a * b) by { SignedProduct(x, y); }
  }

  lemma SignedProduct(x: int, y: int)
    ensures (-x) * y == -(x * y) && x * (-y) == -(x * y) && (-x) * (-y) == x * y
  {
  }

  /** Two's complement reading of 64 bits. */
  function Signed64(p: int): int {
    if p >= 0x8000_0000_0000_0000 then p - TWO64 else p
  }

  /** The halves written by UMULL and SMULL read back as the exact product. */
  lemma LongProductMeaning(signed: bool, a: Word, b: Word)
    ensures
      var p := LongProduct(signed, a, b);
      && p == LowHalf(p) + 0x1_0000_0000 * HighHalf(p)
      && (if signed then Signed64(p) == Signed(a) * Signed(b) else p == a * b)
  {
    if signed {
      var x, y := Signed(a), Signed(b);
      ProductRange(x, y, 0x8000_0000);
      Mod64(x * y);
    } else {
      ProductBound(a, b, 0x1_0000_0000);
      Mod64(a * b);
    }
  }

  lemma Mod64(p: int)
    requires -0x8000_0000_0000_0000 <= p < TWO64
    ensures p % TWO64 == if p >= 0 then p else p + TWO64
  {
  }

  // ---------------------------------------------------------------- quotients

  /** Division that truncates toward zero. */
  function Truncate(a: int, b: int): int
    requires b != 0
  {
    if a >= 0 then if b > 0 then a / b else -(a / -b)
    else if b > 0 then -(-a / b) else -a / -b
  }

  /** UDIV: zero for a zero divisor. */
  function UnsignedQuotient(a: Word, b: Word): Word {
    if b == 0 then 0 else DivBound(a, b); a / b
  }

  /** SDIV: zero for a zero divisor, and the most negative number over -1 is itself. */
  function SignedQuotient(a: Word, b: Word): Word {
    if b == 0 then 0
    else if Signed(a) == -0x8000_0000 && Signed(b) == -1 then 0x8000_0000
    else Wrap(Truncate(Signed(a), Signed(b)))
  }

  /** The overflowing quotient is no exception: SDIV is the truncated quotient modulo 2^32, for every
      non-zero divisor, and reads back as the true quotient unless that is 2^31. */
  lemma SignedQuotientMeaning(a: Word, b: Word)
    requires b != 0
    ensures SignedQuotient(a, b) == Wrap(Truncate(Signed(a), Signed(b)))
    ensures Truncate(Signed(a), Signed(b)) != 0x8000_0000 ==>
              Signed(SignedQuotient(a, b)) == Truncate(Signed(a), Signed(b))
    ensures Truncate(Signed(a), Signed(b)) == 0x8000_0000 <==> Signed(a) == -0x8000_0000 && Signed(b) == -1
  {
    QuotientRange(Signed(a), Signed(b));
    WrapNear(Truncate(Signed(a), Signed(b)));
  }

  lemma QuotientRange(a: int, b: int)
    requires -0x8000_0000 <= a < 0x8000_0000 && -0x8000_0000 <= b < 0x8000_0000 && b != 0
    ensures
      var q := Truncate(a, b);
      -0x8000_0000 <= q <= 0x8000_0000 && (q == 0x8000_0000 <==> a == -0x8000_0000 && b == -1)
  {
    var x, y := if a >= 0 then a else -a, if b > 0 then b else -b;
    DivBound(x, y);
    if y >= 2 { HalfBound(x, y); }
  }

  lemma HalfBound(x: nat, y: nat)
    requires y >= 2
    ensures 2 * (x / y) <= x
  {
    var q := x / y;
    assert x == q * y + x % y;
    MulBound(q, y - 1);
    assert q * y == q * (y - 1) + q;
  }

  /** The pipeline cycles of a division by `divisor`: divideCycles. */
  function DivideCycles(divisor: Word): (r: nat)
    ensures 2 <= r <= 12
  {
    if divisor == 0 then 2
    else
      LeadingBound(divisor);
      12 - LeadingZeros(divisor, 32) * 10 / 32
  }

  // ---------------------------------------------------------------- counting and reversing

  /** Leading zeros of the low `n` bits of `v`. */
  function LeadingZeros(v: nat, n: nat): (r: nat)
    ensures r <= n
  {
    if n == 0 || v >= Pow2(n - 1) then 0 else 1 + LeadingZeros(v, n - 1)
  }

  lemma {:induction false} LeadingExact(v: nat, n: nat)
    requires v < Pow2(n)
    ensures v < Pow2(n - LeadingZeros(v, n))
    ensures v != 0 ==> LeadingZeros(v, n) < n && Pow2(n - LeadingZeros(v, n) - 1) <= v
    decreases n
  {
    if n > 0 && v < Pow2(n - 1) { LeadingExact(v, n - 1); }
  }

  lemma LeadingBound(v: Word)
    requires v != 0
    ensures LeadingZeros(v, 32) < 32
  {
    Pow2Of32();
    LeadingExact(v, 32);
  }

  /** Byte `i` of a word, least significant first. */
  function ByteOf(v: Word, i: nat): Byte
    requires i < 4
  {
    (if i == 0 then v else if i == 1 then v / 0x100 else if i == 2 then v / 0x1_0000 else v / 0x100_0000) % 0x100
  }

  function FromBytes(b0: Byte, b1: Byte, b2: Byte, b3: Byte): Word {
    b0 + 0x100 * b1 + 0x1_0000 * b2 + 0x100_0000 * b3
  }

  lemma BytesOf(b0: Byte, b1: Byte, b2: Byte, b3: Byte)
    ensures
      var v := FromBytes(b0, b1, b2, b3);
      ByteOf(v, 0) == b0 && ByteOf(v, 1) == b1 && ByteOf(v, 2) == b2 && ByteOf(v, 3) == b3
  {
    var v := FromBytes(b0, b1, b2, b3);
    assert v / 0x100 == b1 + 0x100 * b2 + 0x1_0000 * b3 && v % 0x100 == b0;
    var v1 := b1 + 0x100 * b2 + 0x1_0000 * b3;
    assert v1 % 0x100 == b1;
    assert v / 0x1_0000 == b2 + 0x100 * b3;
    assert (b2 + 0x100 * b3) % 0x100 == b2;
    assert v / 0x100_0000 == b3;
  }

  function Reversed(kind: MathKind, v: Word): Word {
    match kind
    case Rev => FromBytes(ByteOf(v, 3), ByteOf(v, 2), ByteOf(v, 1), ByteOf(v, 0))
    case Rev16 => FromBytes(ByteOf(v, 1), ByteOf(v, 0), ByteOf(v, 3), ByteOf(v, 2))
    case _ =>
      // REVSH: the swapped low halfword, sign-extended.
      var fill: Byte := if ByteOf(v, 0) >= 0x80 then 0xff else 0;
      FromBytes(ByteOf(v, 1), ByteOf(v, 0), fill, fill)
  }

  /** CLZ, REV, REV16 and REVSH of one operand. */
  function SingleValue(kind: MathKind, v: Word): Word {
    if kind == Clz then LeadingZeros(v, 32) else Reversed(kind, v)
  }

  /** Reversing twice gives the word back. */
  lemma ReverseTwice(v: Word)
    ensures Reversed(Rev, Reversed(Rev, v)) == v && Reversed(Rev16, Reversed(Rev16, v)) == v
  {
    hide ByteOf;
    var b0, b1, b2, b3 := ByteOf(v, 0), ByteOf(v, 1), ByteOf(v, 2), ByteOf(v, 3);
    BytesOf(b3, b2, b1, b0);
    BytesOf(b1, b0, b3, b2);
    Rejoin(v);
  }

  lemma Rejoin(v: Word)
    ensures FromBytes(ByteOf(v, 0), ByteOf(v, 1), ByteOf(v, 2), ByteOf(v, 3)) == v
  {
    FourBytes(v);
    assert v / 0x100_0000 % 0x100 == v / 0x100_0000;
    JoinsTo(v, v % 0x100, v / 0x100 % 0x100, v / 0x1_0000 % 0x100, v / 0x100_0000);
  }

  lemma JoinsTo(v: Word, b0: Byte, b1: Byte, b2: Byte, b3: Byte)
    requires b0 == ByteOf(v, 0) && b1 == ByteOf(v, 1) && b2 == ByteOf(v, 2) && b3 == ByteOf(v, 3)
    requires v == b0 + 0x100 * b1 + 0x1_0000 * b2 + 0x100_0000 * b3
    ensures FromBytes(ByteOf(v, 0), ByteOf(v, 1), ByteOf(v, 2), ByteOf(v, 3)) == v
  {
    hide ByteOf;
  }

  // ---------------------------------------------------------------- fields and lanes

  /** `width` ones from bit `lsb` on. */
  function FieldMask(lsb: nat, width: nat): Word {
    if width == 32 then 0xffff_ffff else ShiftLeft(Wrap(Pow2(width) - 1), lsb)
  }

  function ClearField(v: Word, lsb: nat, width: nat): Word {
    Words.And(v, Words.Not(FieldMask(lsb, width)))
  }

  function LaneSum(a: Word, b: Word, lane: nat): nat
    requires lane < 4
  {
    ByteOf(a, lane) + ByteOf(b, lane)
  }

  /** UADD8: four byte sums. */
  function LaneSums(a: Word, b: Word): Word {
    FromBytes(LaneSum(a, b, 0) % 0x100, LaneSum(a, b, 1) % 0x100, LaneSum(a, b, 2) % 0x100, LaneSum(a, b, 3) % 0x100)
  }

  function GeBit(carried: bool, lane: nat): nat
    requires lane < 4
  {
    if !carried then 0 else if lane == 0 then 1 else if lane == 1 then 2 else if lane == 2 then 4 else 8
  }

  /** The carries out of the four lanes, as the GE field. */
  function LaneCarries(a: Word, b: Word): (r: nat)
    ensures r < 16
  {
    GeBit(LaneSum(a, b, 0) >= 0x100, 0) + GeBit(LaneSum(a, b, 1) >= 0x100, 1)
    + GeBit(LaneSum(a, b, 2) >= 0x100, 2) + GeBit(LaneSum(a, b, 3) >= 0x100, 3)
  }

  predicate GeSet(ge: int, lane: nat)
    requires lane < 4
  {
    (if lane == 0 then ge else if lane == 1 then ge / 2 else if lane == 2 then ge / 4 else ge / 8) % 2 == 1
  }

  function SelectLane(ge: int, a: Word, b: Word, lane: nat): Byte
    requires lane < 4
  {
    ByteOf(if GeSet(ge, lane) then a else b, lane)
  }

  /** SEL: each byte from `a` where its GE bit is set, else from `b`. */
  function LaneSelect(ge: int, a: Word, b: Word): Word {
    FromBytes(SelectLane(ge, a, b, 0), SelectLane(ge, a, b, 1), SelectLane(ge, a, b, 2), SelectLane(ge, a, b, 3))
  }

  /** SEL after UADD8 takes a byte from `x` exactly where the byte addition carried. */
  lemma SelectsCarries(a: Word, b: Word, x: Word, y: Word, lane: nat)
    requires lane < 4
    ensures ByteOf(LaneSelect(LaneCarries(a, b), x, y), lane)
            == if LaneSum(a, b, lane) >= 0x100 then ByteOf(x, lane) else ByteOf(y, lane)
  {
    hide ByteOf, LaneSum;
    var ge := LaneCarries(a, b);
    CarriesSet(a, b, lane);
    BytesOf(SelectLane(ge, x, y, 0), SelectLane(ge, x, y, 1), SelectLane(ge, x, y, 2), SelectLane(ge, x, y, 3));
  }

  lemma CarriesSet(a: Word, b: Word, lane: nat)
    requires lane < 4
    ensures GeSet(LaneCarries(a, b), lane) <==> LaneSum(a, b, lane) >= 0x100
  {
    hide LaneSum;
  }
}
