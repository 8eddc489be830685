/**
  Powers of two and bitwise "and" on naturals, as the hash table uses them to pick a bucket:
  a table of 2^B buckets is indexed by `hash & (2^B - 1)`.
 */
module Bits {

  function Pow2(n: nat): (p: nat)
    ensures p >= 1
  {
    if n == 0 then 1 else 2 * Pow2(n - 1)
  }

  /** The mask 2^B - 1 of a table with 2^B buckets. */
  function BucketMask(B: nat): nat {
    Pow2(B) - 1
  }

  /** Bitwise "and", bit by bit from the low end. */
  function And(x: nat, y: nat): nat {
    if x == 0 || y == 0 then 0
    else (if x % 2 == 1 && y % 2 == 1 then 1 else 0) + 2 * And(x / 2, y / 2)
  }

  /** A shift right by one. */
  function ShiftRight(x: nat): nat {
    x / 2
  }

  /** Masking with 2^B - 1 is the remainder modulo 2^B, so it always names one of the 2^B buckets. */
  lemma {:induction false} MaskIsRemainder(hash: nat, B: nat)
    ensures And(hash, BucketMask(B)) == hash % Pow2(B)
    ensures And(hash, BucketMask(B)) < Pow2(B)
  {
    if B == 0 {
    } else if hash == 0 {
    } else {
      MaskIsRemainder(hash / 2, B - 1);
      assert BucketMask(B) % 2 == 1 && BucketMask(B) / 2 == BucketMask(B - 1);
      HalvedRemainder(hash, Pow2(B - 1));
    }
  }

  lemma HalvedRemainder(x: nat, m: nat)
    requires m >= 1
    ensures x % (2 * m) == x % 2 + 2 * ((x / 2) % m)
  {
    var q, r := x / 2 / m, (x / 2) % m;
    assert x / 2 == q * m + r;
    assert x == q * (2 * m) + (x % 2 + 2 * r) by {
      assert 2 * (q * m) == q * (2 * m);
    }
    RemainderUnique(x, 2 * m, q, x % 2 + 2 * r);
  }

  lemma RemainderUnique(x: nat, m: nat, q: nat, r: nat)
    requires m >= 1 && r < m && x == q * m + r
    ensures x % m == r
  {
    var d := q - x / m;
    assert d * m == x % m - r by {
      assert x == (x / m) * m + x % m;
      assert (q - x / m) * m == q * m - (x / m) * m;
    }
    assert d == 0;
  }

  /** Shifting the mask of a doubled table gives back the mask of the table before doubling. */
  lemma {:induction false} ShiftedMask(B: nat)
    ensures ShiftRight(BucketMask(B + 1)) == BucketMask(B)
  {
    assert Pow2(B + 1) == 2 * Pow2(B);
  }
}
