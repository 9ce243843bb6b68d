/**
 The machine's integers: what the conversions to `uint64_t` and to `int` keep of a number.
 */
module MachineInts {

  const TWO31: nat := 0x8000_0000
  const TWO32: nat := 0x1_0000_0000
  const TWO63: nat := 0x8000_0000_0000_0000
  const TWO64: nat := 0x1_0000_0000_0000_0000

  /** Conversion to uint64_t. */
  function U64(x: int): nat { x % TWO64 }

  /** Conversion to int. */
  function Int32(x: int): int {
    var y := x % TWO32;
    if y >= TWO31 then y - TWO32 else y
  }

  /** The conversion keeps what fits, and goes by the remainder modulo 2^32. */
  lemma Int32Keeps(x: nat, p: nat)
    ensures Int32(x) == p <==> p < TWO31 && x % TWO32 == p
  {}

  /** On its way to `int`, a sum may wrap around in 64 bits without a difference. */
  lemma Int32OfU64(x: nat)
    ensures Int32(U64(x)) == Int32(x)
  {
    var q := x / TWO64;
    assert x == U64(x) + TWO32 * (TWO32 * q);
    ModShift(U64(x), TWO32, TWO32 * q);
  }

  // ----- Remainders ------------------------------------------------------------------------------

  lemma ModShift(x: int, n: nat, q: int)
    requires n > 0
    ensures (x + n * q) % n == x % n
  {
    var d := (x + n * q) / n - x / n;
    assert (x + n * q) % n - x % n == n * (q - d) by {
      assert x + n * q == n * ((x + n * q) / n) + (x + n * q) % n;
      assert x == n * (x / n) + x % n;
      assert n * ((x + n * q) / n) - n * (x / n) == n * d;
    }
    SmallMultiple(n, q - d);
  }

  lemma SmallMultiple(n: nat, k: int)
    requires n > 0 && n * k < n && 0 < n * k + n
    ensures k == 0
  {
    assert k >= 1 ==> n * k >= n;
    assert k <= -1 ==> n * k + n <= 0;
  }

  lemma SmallRemainder(x: nat, n: nat)
    requires x < n
    ensures x % n == x
  {}

  /** Adding `c` on both sides keeps apart what differs modulo `n`. */
  lemma SameRemainder(c: nat, d: nat, i: nat, n: nat)
    requires i < n
    ensures (c + d) % n == (c + i) % n <==> d % n == i
  {
    var a := c % n;
    ModShift(a + d, n, c / n);
    ModShift(a + i, n, c / n);
    assert c == a + n * (c / n);
    var b := d % n;
    ModShift(a + b, n, d / n);
    assert d == b + n * (d / n);
    assert (c + d) % n == (a + b) % n;
    assert (c + i) % n == (a + i) % n;
    Wrap(a + b, n);
    Wrap(a + i, n);
  }

  lemma Wrap(x: nat, n: nat)
    requires n > 0 && x < 2 * n
    ensures x % n == if x < n then x else x - n
  {
    if x >= n {
      ModShift(x - n, n, 1);
      SmallRemainder(x - n, n);
    } else {
      SmallRemainder(x, n);
    }
  }
}
