/** Quotients and remainders. */
module Arithmetic {
  lemma SmallMod(x: nat, p: nat)
    requires x < p
    ensures x % p == x
  {
  }

  /** Quotient and remainder are unique. */
  lemma ModUnique(y: nat, p: nat, k: nat, r: nat)
    requires p > 0 && r < p && y == k * p + r
    ensures y % p == r
  {
    var q, s := y / p, y % p;
    assert y == q * p + s;
    assert (k - q) * p == k * p - q * p;
    Multiples(k - q, p);
  }

  lemma Multiples(x: int, p: nat)
    ensures x >= 1 ==> x * p >= p
    ensures x <= -1 ==> x * p + p <= 0
  {
  }

  lemma ModShift(x: nat, p: nat, k: nat)
    requires p > 0
    ensures (k * p + x) % p == x % p
  {
    var q, r := x / p, x % p;
    assert x == q * p + r;
    assert (k + q) * p == k * p + q * p;
    ModUnique(k * p + x, p, k + q, r);
  }

  /** The digits of a mixed-radix number. */
  lemma Digit(d: nat, k: nat, rest: nat)
    requires d < k
    ensures (d + k * rest) % k == d && (d + k * rest) / k == rest
  {
    var y := d + k * rest;
    assert k * rest == rest * k;
    ModUnique(y, k, rest, d);
    assert y == y / k * k + y % k;
    assert (y / k - rest) * k == 0;
    Multiples(y / k - rest, k);
  }

  /** A 32-bit number is its four bytes. */
  lemma FourBytes(v: nat)
    requires v < 0x1_0000_0000
    ensures v == v % 0x100 + 0x100 * (v / 0x100 % 0x100) + 0x1_0000 * (v / 0x1_0000 % 0x100)
            + 0x100_0000 * (v / 0x100_0000)
    ensures v / 0x100_0000 < 0x100
  {
    var a := v / 0x100;
    var b := a / 0x100;
    assert v == v % 0x100 + 0x100 * a;
    assert a == a % 0x100 + 0x100 * b;
    assert b == b % 0x100 + 0x100 * (b / 0x100);
    assert v / 0x1_0000 == b;
    assert v / 0x100_0000 == b / 0x100;
  }
}
