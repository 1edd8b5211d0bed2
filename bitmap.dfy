/** BitMap64 (board/bitmap.rs): a set of 64 squares kept in an `i64`.
    The field holds the `i64`'s two's-complement bit pattern as a `bv64`, so
    the `i64` value -1 is `AllOnes` and a set bit 63 makes the value negative.
    Bit positions and shift amounts are `Index` (0..63): a Rust shift by 64 or
    more panics in a debug build. */
module BitMaps {
  import opened Bits

  /** `>>` on an `i64`: an arithmetic shift, which copies the sign bit (bit
      63) into the vacated high positions. */
  function ArithShr(v: bv64, n: Index): bv64 {
    if Bit(v, 63) then !((!v) >> n) else v >> n
  }

  /** A square shifted left by `n` moves `n` squares up, or off the board. */
  lemma SingleShl(k: Index, n: Index)
    ensures Single(k) << n == if k + n < 64 then Single(k + n) else 0
  {}

  /** A square shifted logically right by `n` moves `n` squares down, or off
      the board. */
  lemma SingleShr(k: Index, n: Index)
    ensures Single(k) >> n == if n <= k then Single(k - n) else 0
  {}

  /** Below the sign bit the arithmetic shift moves a square as the logical
      one does. */
  lemma SingleArithShr(k: Index, n: Index)
    requires k < 63
    ensures ArithShr(Single(k), n) == if n <= k then Single(k - n) else 0
  {
    BitSingle(k, 63);
    SingleShr(k, n);
  }

  /** Shifting square 63, the sign bit, right by `n` fills bits `63 - n`..63. */
  lemma SignBitArithShr(n: Index, j: Index)
    ensures Bit(ArithShr(Single(63), n), j) <==> j >= 63 - n
  {
    BitSingle(63, 63);
  }

  /** Masking with a single bit keeps that bit or nothing. */
  lemma AndSingle(x: bv64, k: Index)
    ensures x & Single(k) == if Bit(x, k) then Single(k) else 0
  {}

  lemma ClearBitExact(x: bv64, k: Index, j: Index)
    ensures Bit(x & !Single(k), j) <==> j != k && Bit(x, j)
  {
    BitAnd(x, !Single(k), j);
    BitNot(Single(k), j);
    BitSingle(k, j);
  }

  lemma ClearBitAll(x: bv64, k: Index)
    ensures forall j: Index :: Bit(x & !Single(k), j) <==> j != k && Bit(x, j)
  {
    forall j: Index {
      ClearBitExact(x, k, j);
    }
  }

  lemma SetBitAll(x: bv64, k: Index)
    ensures forall j: Index :: Bit(x | Single(k), j) <==> j == k || Bit(x, j)
  {
    forall j: Index {
      BitSet(x, k, j);
    }
  }

  /** The arithmetic shift keeps the sign bit. */
  lemma ArithShrSign(v: bv64, n: Index)
    ensures Bit(ArithShr(v, n), 63) <==> Bit(v, 63)
  {
    if Bit(v, 63) {
      assert !Bit(!v, 63);
      assert !Bit((!v) >> n, 63);
    } else {
      assert !Bit(v >> n, 63);
    }
  }

  lemma XorTwice(x: bv64, y: bv64)
    ensures (x ^ y) ^ y == x
  {}

  class BitMap64 {
    var raw: bv64

    /** `BitMap64::default()`: the empty set. */
    constructor Default()
      ensures raw == 0
      ensures CountOnes() == 0
      ensures forall j: Index :: !GetBit(j)
    {
      raw := 0;
      new;
      PopCountOfZero();
      forall j: Index ensures !GetBit(j) {
        BitZero(j);
      }
    }

    /** `BitMap64::new(num)`, with `num` given as its bit pattern. */
    constructor New(num: bv64)
      ensures raw == num
    {
      raw := num;
    }

    /** `set_bit`: adds square `bit` and keeps every other square. */
    method SetBit(bit: Index)
      modifies this
      ensures raw == old(raw) | Single(bit)
      ensures GetBit(bit)
      ensures forall j: Index :: j != bit ==> GetBit(j) == old(GetBit(j))
    {
      SetBitAll(raw, bit);
      raw := raw | Single(bit);
    }

    /** `clear_bit`: removes square `bit` and keeps every other square. */
    method ClearBit(bit: Index)
      modifies this
      ensures raw == old(raw) & !Single(bit)
      ensures !GetBit(bit)
      ensures forall j: Index :: j != bit ==> GetBit(j) == old(GetBit(j))
    {
      ghost var before := raw;
      raw := raw & !Single(bit);
      ClearBitAll(before, bit);
      assert !Bit(raw, bit);
    }

    /** `get_bit`: whether square `bit` is in the map; a map holding a
        square is not empty. */
    predicate GetBit(bit: Index)
      reads this
      ensures GetBit(bit) ==> CountOnes() >= 1
    {
      Bit(raw, bit)
    }

    /** `get_bit_value`: `(self.0 & (1 << bit)) >> bit` on an `i64`. It is 0
        for a clear bit and 1 for a set bit, except that bit 63 is the sign
        bit: the arithmetic shift spreads it, and the value is -1. */
    function GetBitValue(bit: Index): (r: bv64)
      reads this
      ensures !GetBit(bit) ==> r == 0
      ensures GetBit(bit) && bit < 63 ==> r == 1
      ensures GetBit(bit) && bit == 63 ==> r == AllOnes
    {
      AndSingle(raw, bit);
      BitSingle(bit, 63);
      ArithShr(raw & Single(bit), bit)
    }

    /** `contains` is `get_bit` under another name: it holds exactly when
        `get_bit_value` is not zero. */
    predicate Contains(bit: Index)
      reads this
      ensures Contains(bit) <==> GetBitValue(bit) != 0
    {
      GetBit(bit)
    }

    /** `count_ones`, which is at most 64 and so fits the `u8` it is cast to. */
    function CountOnes(): (r: nat)
      reads this
      ensures r <= 64
      ensures r == 0 <==> forall j: Index :: !Bit(raw, j)
    {
      PopCountBound(raw);
      CountBelowZero(raw, 64);
      PopCount(raw)
    }

    /** `&self >> rhs`: the implementation shifts LEFT. */
    function Shr(rhs: Index): (r: bv64)
      reads this
      ensures r & (Single(rhs) - 1) == 0
    {
      raw << rhs
    }

    /** `self << rhs`: the implementation shifts RIGHT, arithmetically. */
    function Shl(rhs: Index): (r: bv64)
      reads this
      ensures Bit(r, 63) <==> Bit(raw, 63)
    {
      ArithShrSign(raw, rhs);
      ArithShr(raw, rhs)
    }

    /** `>>=` shifts right, arithmetically: it stores what `<<` returns. */
    method ShrAssign(rhs: Index)
      modifies this
      ensures raw == old(Shl(rhs))
    {
      raw := ArithShr(raw, rhs);
    }

    /** `<<=` also shifts right: it is the same update as `>>=`. */
    method ShlAssign(rhs: Index)
      modifies this
      ensures raw == old(Shl(rhs))
    {
      raw := ArithShr(raw, rhs);
    }

    /** `self & rhs` for a BitMap64 operand: the squares in both, so the
        result lies inside each operand. */
    function And(rhs: BitMap64): (r: bv64)
      reads this, rhs
      ensures r | raw == raw && r | rhs.raw == rhs.raw
    {
      raw & rhs.raw
    }

    /** `self | rhs` for a BitMap64 operand: the squares in either, so no
        square of an operand is missing from the result. */
    function Or(rhs: BitMap64): (r: bv64)
      reads this, rhs
      ensures raw & !r == 0 && rhs.raw & !r == 0
    {
      raw | rhs.raw
    }

    /** `self ^ rhs` for a BitMap64 operand: the squares in exactly one, so
        xor-ing the operand back in restores the map. */
    function Xor(rhs: BitMap64): (r: bv64)
      reads this, rhs
      ensures r ^ rhs.raw == raw
    {
      raw ^ rhs.raw
    }

    /** `self & rhs` for an `i64` operand, given as its bit pattern. */
    function AndI64(rhs: bv64): (r: bv64)
      reads this
      ensures r | raw == raw && r | rhs == rhs
    {
      raw & rhs
    }

    function OrI64(rhs: bv64): (r: bv64)
      reads this
      ensures raw & !r == 0 && rhs & !r == 0
    {
      raw | rhs
    }

    function XorI64(rhs: bv64): (r: bv64)
      reads this
      ensures r ^ rhs == raw
    {
      raw ^ rhs
    }

    /** `&=`, `|=` and `^=` store what the matching operator returns. */
    method AndAssign(rhs: BitMap64)
      modifies this
      ensures raw == old(And(rhs))
    {
      raw := raw & rhs.raw;
    }

    method OrAssign(rhs: BitMap64)
      modifies this
      ensures raw == old(Or(rhs))
    {
      raw := raw | rhs.raw;
    }

    method XorAssign(rhs: BitMap64)
      modifies this
      ensures raw == old(Xor(rhs))
    {
      raw := raw ^ rhs.raw;
    }

    method AndAssignI64(rhs: bv64)
      modifies this
      ensures raw == old(AndI64(rhs))
    {
      raw := raw & rhs;
    }

    method OrAssignI64(rhs: bv64)
      modifies this
      ensures raw == old(OrI64(rhs))
    {
      raw := raw | rhs;
    }

    method XorAssignI64(rhs: bv64)
      modifies this
      ensures raw == old(XorI64(rhs))
    {
      raw := raw ^ rhs;
    }
  }

  /** `>>` on a map holding one square moves that square `n` squares UP. */
  lemma ShrMovesUp(b: BitMap64, k: Index, n: Index)
    requires b.raw == Single(k)
    ensures b.Shr(n) == if k + n < 64 then Single(k + n) else 0
  {
    SingleShl(k, n);
  }

  /** `<<` on a map holding one square below 63 moves it `n` squares DOWN. */
  lemma ShlMovesDown(b: BitMap64, k: Index, n: Index)
    requires b.raw == Single(k) && k < 63
    ensures b.Shl(n) == if n <= k then Single(k - n) else 0
  {
    SingleArithShr(k, n);
  }

  /** `<<` on the map holding only square 63 (the `i64` minimum) copies the
      sign bit: it holds squares `63 - n`..63. */
  lemma ShlSpreadsSign(b: BitMap64, n: Index, j: Index)
    requires b.raw == Single(63)
    ensures Bit(b.Shl(n), j) <==> j >= 63 - n
  {
    SignBitArithShr(n, j);
  }

  /** `^` with the same operand twice gives back the map. */
  lemma XorUndoes(b: BitMap64, c: BitMap64)
    ensures b.Xor(c) ^ c.raw == b.raw
  {
    XorTwice(b.raw, c.raw);
  }
}
