/** A 64-bit word read as a set of 64 bit positions: the vocabulary shared by
    the attack tables of build.rs and by BitMap64. */
module Bits {

  /** A bit position 0..63. build.rs numbers squares with a `u8`, so the
      position is a `bv8`. */
  type Index = b: bv8 | b < 64

  const AllOnes: bv64 := 0xFFFF_FFFF_FFFF_FFFF

  /** The word with exactly bit `k` set: `1u64 << k`. */
  function Single(k: Index): bv64 {
    (1 as bv64) << k
  }

  /** Is bit `k` of `x` set? */
  predicate Bit(x: bv64, k: Index) {
    x & Single(k) != 0
  }

  lemma BitSingle(k: Index, j: Index)
    ensures Bit(Single(k), j) <==> j == k
  {}

  lemma BitZero(j: Index)
    ensures !Bit(0, j)
  {}

  lemma OrDistributes(x: bv64, y: bv64, s: bv64)
    ensures (x | y) & s == (x & s) | (y & s)
  {}

  lemma OrNonZero(a: bv64, b: bv64)
    ensures a | b != 0 <==> a != 0 || b != 0
  {}

  lemma BitOr(x: bv64, y: bv64, j: Index)
    ensures Bit(x | y, j) <==> Bit(x, j) || Bit(y, j)
  {
    OrDistributes(x, y, Single(j));
    OrNonZero(x & Single(j), y & Single(j));
  }

  lemma BitAnd(x: bv64, y: bv64, j: Index)
    ensures Bit(x & y, j) <==> Bit(x, j) && Bit(y, j)
  {}

  lemma BitXor(x: bv64, y: bv64, j: Index)
    ensures Bit(x ^ y, j) <==> Bit(x, j) != Bit(y, j)
  {}

  lemma BitNot(x: bv64, j: Index)
    ensures Bit(!x, j) <==> !Bit(x, j)
  {}

  /** Setting bit `k` sets bit `k` and leaves every other bit as it was. */
  lemma BitSet(x: bv64, k: Index, j: Index)
    ensures Bit(x | Single(k), j) <==> j == k || Bit(x, j)
  {
    BitOr(x, Single(k), j);
    BitSingle(k, j);
  }

  /** `if c { m |= 1 << k }`: the guarded update every mask generator of
      build.rs is made of. The shift amount only has to be a bit position when
      the guard holds. */
  function SetIf(m: bv64, c: bool, k: bv8): bv64
    requires c ==> k < 64
  {
    if c then m | Single(k) else m
  }

  /** The guarded update sets bit `k` when `c` holds and changes no other bit. */
  lemma BitSetIf(m: bv64, c: bool, k: bv8, j: Index)
    requires c ==> k < 64
    ensures Bit(SetIf(m, c, k), j) <==> Bit(m, j) || (c && j == k)
  {
    if c {
      BitSet(m, k, j);
    }
  }

  /** The number of set bits of `x` below position `n`. */
  function CountBelow(x: bv64, n: bv8): nat
    requires n <= 64
    decreases n
  {
    if n == 0 then 0 else CountBelow(x, n - 1) + (if Bit(x, n - 1) then 1 else 0)
  }

  /** `count_ones`: the number of set bits. */
  function PopCount(x: bv64): nat {
    CountBelow(x, 64)
  }

  lemma {:induction false} CountBelowBound(x: bv64, n: bv8)
    requires n <= 64
    ensures CountBelow(x, n) <= n as int
    decreases n
  {
    if n > 0 {
      CountBelowBound(x, n - 1);
    }
  }

  lemma PopCountBound(x: bv64)
    ensures PopCount(x) <= 64
  {
    CountBelowBound(x, 64);
  }

  /** No bit of `x` below `n` is set exactly when the count below `n` is zero. */
  lemma {:induction false} CountBelowZero(x: bv64, n: bv8)
    requires n <= 64
    ensures CountBelow(x, n) == 0 <==> forall j: Index :: j < n ==> !Bit(x, j)
    decreases n
  {
    if n > 0 {
      CountBelowZero(x, n - 1);
    }
  }

  /** The empty word has no set bit. */
  lemma PopCountOfZero()
    ensures PopCount(0) == 0
  {
    forall j: Index ensures !Bit(0, j) {
      BitZero(j);
    }
    CountBelowZero(0, 64);
  }

  /** Setting bit `k` adds one to the count below `n` when the bit was clear
      and lies below `n`, and nothing otherwise. */
  lemma {:induction false} CountBelowSet(x: bv64, k: Index, n: bv8)
    requires n <= 64
    ensures CountBelow(x | Single(k), n) == CountBelow(x, n) + (if k < n && !Bit(x, k) then 1 else 0)
    decreases n
  {
    if n > 0 {
      CountBelowSet(x, k, n - 1);
      BitSet(x, k, n - 1);
    }
  }

  lemma PopCountSet(x: bv64, k: Index)
    ensures PopCount(x | Single(k)) == PopCount(x) + (if Bit(x, k) then 0 else 1)
  {
    CountBelowSet(x, k, 64);
  }

  /** The guarded update adds at most one set bit, and none when `c` fails. */
  lemma PopCountSetIf(m: bv64, c: bool, k: bv8)
    requires c ==> k < 64
    ensures PopCount(SetIf(m, c, k)) <= PopCount(m) + (if c then 1 else 0)
  {
    if c {
      PopCountSet(m, k);
    }
  }

  /** It adds exactly one when it sets a bit that was clear. */
  lemma PopCountSetIfClear(m: bv64, c: bool, k: bv8)
    requires c ==> k < 64 && !Bit(m, k)
    ensures PopCount(SetIf(m, c, k)) == PopCount(m) + (if c then 1 else 0)
  {
    if c {
      PopCountSet(m, k);
    }
  }
}
