/** The attack masks that build.rs computes for every square and writes out as
    the 64-entry tables of movetables.rs.

    Square `s` (0..63) has row `s / 8` and column `s % 8`; bit `s` of a mask
    stands for square `s`. Each generator panics with "Invalid position" on a
    square above 63. */
module MoveTables {
  import opened Bits
  import opened Types

  function SquareRow(s: Index): bv8 { s / 8 }
  function SquareCol(s: Index): bv8 { s % 8 }

  /** Distance between two coordinates. */
  function Dist(a: bv8, b: bv8): bv8 {
    if a >= b then a - b else b - a
  }

  const InvalidPosition := "Invalid position"

  // ---------------------------------------------------------------- king

  /** The king mask as build.rs accumulates it: right, down, down-right. */
  function KingMask(pos: Index): bv64 {
    var m0: bv64 := 0;
    var m1 := SetIf(m0, pos % 8 != 7, pos + 1);
    var m2 := SetIf(m1, pos < 56, pos + 8);
    SetIf(m2, pos < 56 && pos % 8 != 7, pos + 9)
  }

  /** The three neighbours the king mask covers: one column to the right, one
      row down, and diagonally down-right. The other five neighbours are not
      in the mask. */
  predicate KingReach(pos: Index, sq: Index) {
    (SquareRow(sq) == SquareRow(pos) && SquareCol(sq) == SquareCol(pos) + 1)
    || (SquareRow(sq) == SquareRow(pos) + 1 && SquareCol(sq) == SquareCol(pos))
    || (SquareRow(sq) == SquareRow(pos) + 1 && SquareCol(sq) == SquareCol(pos) + 1)
  }

  lemma KingGeometry(pos: Index, sq: Index)
    ensures ((pos % 8 != 7 && sq == pos + 1)
      || (pos < 56 && sq == pos + 8)
      || (pos < 56 && pos % 8 != 7 && sq == pos + 9))
      <==> KingReach(pos, sq)
  {}

  lemma KingMaskExact(pos: Index, sq: Index)
    ensures Bit(KingMask(pos), sq) <==> KingReach(pos, sq)
  {
    var m0: bv64 := 0;
    var m1 := SetIf(m0, pos % 8 != 7, pos + 1);
    var m2 := SetIf(m1, pos < 56, pos + 8);
    BitZero(sq);
    BitSetIf(m0, pos % 8 != 7, pos + 1, sq);
    BitSetIf(m1, pos < 56, pos + 8, sq);
    BitSetIf(m2, pos < 56 && pos % 8 != 7, pos + 9, sq);
    KingGeometry(pos, sq);
  }

  /** At most three squares, and none at all from the last square. */
  lemma KingMaskCount(pos: Index)
    ensures PopCount(KingMask(pos)) <= 3
    ensures KingMask(63) == 0
  {
    var m0: bv64 := 0;
    var m1 := SetIf(m0, pos % 8 != 7, pos + 1);
    var m2 := SetIf(m1, pos < 56, pos + 8);
    PopCountOfZero();
    PopCountSetIf(m0, pos % 8 != 7, pos + 1);
    PopCountSetIf(m1, pos < 56, pos + 8);
    PopCountSetIf(m2, pos < 56 && pos % 8 != 7, pos + 9);
  }

  /** king_moves_bitmask. */
  method KingMovesBitmask(pos: bv8) returns (r: Outcome<bv64>)
    ensures pos > 63 ==> r == Panic(InvalidPosition)
    ensures pos <= 63 ==> r == Value(KingMask(pos))
    ensures pos <= 63 ==> forall sq: Index :: Bit(r.value, sq) <==> KingReach(pos, sq)
  {
    if pos > 63 {
      return Panic(InvalidPosition);
    }
    var moves: bv64 := 0;
    if pos % 8 != 7 {
      moves := moves | Single(pos + 1);
    }
    if pos < 56 {
      moves := moves | Single(pos + 8);
    }
    if pos < 56 && pos % 8 != 7 {
      moves := moves | Single(pos + 9);
    }
    forall sq: Index ensures Bit(moves, sq) <==> KingReach(pos, sq) {
      KingMaskExact(pos, sq);
    }
    return Value(moves);
  }

  // -------------------------------------------------------------- knight

  /** The knight mask as build.rs accumulates it, in the source's order. */
  function KnightMask(pos: Index): bv64 {
    var m0: bv64 := 0;
    var m1 := SetIf(m0, pos < 48 && pos % 8 != 7, pos + 17);
    var m2 := SetIf(m1, pos < 48 && pos % 8 != 0, pos + 15);
    var m3 := SetIf(m2, pos >= 16 && pos % 8 != 7, pos - 15);
    var m4 := SetIf(m3, pos >= 16 && pos % 8 != 0, pos - 17);
    var m5 := SetIf(m4, pos < 56 && pos % 8 < 6, pos + 10);
    var m6 := SetIf(m5, pos >= 8 && pos % 8 < 6, pos - 6);
    var m7 := SetIf(m6, pos < 56 && pos % 8 > 1, pos + 6);
    SetIf(m7, pos >= 8 && pos % 8 > 1, pos - 10)
  }

  /** A knight's jump: rows and columns differ by one and two, in some order. */
  predicate KnightReach(pos: Index, sq: Index) {
    (Dist(SquareRow(pos), SquareRow(sq)) == 2 && Dist(SquareCol(pos), SquareCol(sq)) == 1)
    || (Dist(SquareRow(pos), SquareRow(sq)) == 1 && Dist(SquareCol(pos), SquareCol(sq)) == 2)
  }

  /** The eight guarded offsets of build.rs reach exactly the knight's jumps
      that stay on the board: none of them wraps from one edge to the other. */
  lemma KnightGeometry(pos: Index, sq: Index)
    ensures ((pos < 48 && pos % 8 != 7 && sq == pos + 17)
      || (pos < 48 && pos % 8 != 0 && sq == pos + 15)
      || (pos >= 16 && pos % 8 != 7 && sq == pos - 15)
      || (pos >= 16 && pos % 8 != 0 && sq == pos - 17)
      || (pos < 56 && pos % 8 < 6 && sq == pos + 10)
      || (pos >= 8 && pos % 8 < 6 && sq == pos - 6)
      || (pos < 56 && pos % 8 > 1 && sq == pos + 6)
      || (pos >= 8 && pos % 8 > 1 && sq == pos - 10))
      <==> KnightReach(pos, sq)
  {}

  lemma KnightMaskExact(pos: Index, sq: Index)
    ensures Bit(KnightMask(pos), sq) <==> KnightReach(pos, sq)
  {
    var m0: bv64 := 0;
    var m1 := SetIf(m0, pos < 48 && pos % 8 != 7, pos + 17);
    var m2 := SetIf(m1, pos < 48 && pos % 8 != 0, pos + 15);
    var m3 := SetIf(m2, pos >= 16 && pos % 8 != 7, pos - 15);
    var m4 := SetIf(m3, pos >= 16 && pos % 8 != 0, pos - 17);
    var m5 := SetIf(m4, pos < 56 && pos % 8 < 6, pos + 10);
    var m6 := SetIf(m5, pos >= 8 && pos % 8 < 6, pos - 6);
    var m7 := SetIf(m6, pos < 56 && pos % 8 > 1, pos + 6);
    BitZero(sq);
    BitSetIf(m0, pos < 48 && pos % 8 != 7, pos + 17, sq);
    BitSetIf(m1, pos < 48 && pos % 8 != 0, pos + 15, sq);
    BitSetIf(m2, pos >= 16 && pos % 8 != 7, pos - 15, sq);
    BitSetIf(m3, pos >= 16 && pos % 8 != 0, pos - 17, sq);
    BitSetIf(m4, pos < 56 && pos % 8 < 6, pos + 10, sq);
    BitSetIf(m5, pos >= 8 && pos % 8 < 6, pos - 6, sq);
    BitSetIf(m6, pos < 56 && pos % 8 > 1, pos + 6, sq);
    BitSetIf(m7, pos >= 8 && pos % 8 > 1, pos - 10, sq);
    KnightGeometry(pos, sq);
  }

  lemma KnightMaskCount(pos: Index)
    ensures PopCount(KnightMask(pos)) <= 8
  {
    var m0: bv64 := 0;
    var m1 := SetIf(m0, pos < 48 && pos % 8 != 7, pos + 17);
    var m2 := SetIf(m1, pos < 48 && pos % 8 != 0, pos + 15);
    var m3 := SetIf(m2, pos >= 16 && pos % 8 != 7, pos - 15);
    var m4 := SetIf(m3, pos >= 16 && pos % 8 != 0, pos - 17);
    var m5 := SetIf(m4, pos < 56 && pos % 8 < 6, pos + 10);
    var m6 := SetIf(m5, pos >= 8 && pos % 8 < 6, pos - 6);
    var m7 := SetIf(m6, pos < 56 && pos % 8 > 1, pos + 6);
    PopCountOfZero();
    PopCountSetIf(m0, pos < 48 && pos % 8 != 7, pos + 17);
    PopCountSetIf(m1, pos < 48 && pos % 8 != 0, pos + 15);
    PopCountSetIf(m2, pos >= 16 && pos % 8 != 7, pos - 15);
    PopCountSetIf(m3, pos >= 16 && pos % 8 != 0, pos - 17);
    PopCountSetIf(m4, pos < 56 && pos % 8 < 6, pos + 10);
    PopCountSetIf(m5, pos >= 8 && pos % 8 < 6, pos - 6);
    PopCountSetIf(m6, pos < 56 && pos % 8 > 1, pos + 6);
    PopCountSetIf(m7, pos >= 8 && pos % 8 > 1, pos - 10);
  }

  /** knight_moves_bitmask. */
  method KnightMovesBitmask(pos: bv8) returns (r: Outcome<bv64>)
    ensures pos > 63 ==> r == Panic(InvalidPosition)
    ensures pos <= 63 ==> r == Value(KnightMask(pos))
    ensures pos <= 63 ==> forall sq: Index :: Bit(r.value, sq) <==> KnightReach(pos, sq)
    ensures pos <= 63 ==> !Bit(r.value, pos)
  {
    if pos > 63 {
      return Panic(InvalidPosition);
    }
    var moves: bv64 := 0;
    if pos < 48 && pos % 8 != 7 {
      moves := moves | Single(pos + 17);
    }
    if pos < 48 && pos % 8 != 0 {
      moves := moves | Single(pos + 15);
    }
    if pos >= 16 && pos % 8 != 7 {
      moves := moves | Single(pos - 15);
    }
    if pos >= 16 && pos % 8 != 0 {
      moves := moves | Single(pos - 17);
    }
    if pos < 56 && pos % 8 < 6 {
      moves := moves | Single(pos + 10);
    }
    if pos >= 8 && pos % 8 < 6 {
      moves := moves | Single(pos - 6);
    }
    if pos < 56 && pos % 8 > 1 {
      moves := moves | Single(pos + 6);
    }
    if pos >= 8 && pos % 8 > 1 {
      moves := moves | Single(pos - 10);
    }
    forall sq: Index ensures Bit(moves, sq) <==> KnightReach(pos, sq) {
      KnightMaskExact(pos, sq);
    }
    return Value(moves);
  }

  // --------------------------------------------------------------- pawns

  const WhitePawnAssertion := "assertion failed: square < 64 && square / 8 != 7"
  const BlackPawnAssertion := "assertion failed: square <= 64 && square / 8 != 0"

  /** The (move, attack) pair of white_pawn_moves for a square its assertion
      admits. */
  function WhitePawnMasks(square: Index): (bv64, bv64)
    requires square / 8 != 7
  {
    var move0: bv64 := 0;
    var attack0: bv64 := 0;
    var move1 := SetIf(move0, square / 8 != 7, square + 8);
    var attack1 := SetIf(attack0, square % 8 != 0, square + 7);
    var attack2 := SetIf(attack1, (square + 1) % 8 != 0, square + 9);
    (move1, attack2)
  }

  /** A white pawn advances to the next row: one square straight ahead, and
      attacks the squares diagonally ahead. */
  lemma WhitePawnMasksExact(square: Index, sq: Index)
    requires square / 8 != 7
    ensures WhitePawnMasks(square).0 == Single(square + 8)
    ensures Bit(WhitePawnMasks(square).0, sq) <==> SquareRow(sq) == SquareRow(square) + 1 && SquareCol(sq) == SquareCol(square)
    ensures Bit(WhitePawnMasks(square).1, sq) <==>
      SquareRow(sq) == SquareRow(square) + 1 && Dist(SquareCol(sq), SquareCol(square)) == 1
  {
    var attack0: bv64 := 0;
    var attack1 := SetIf(attack0, square % 8 != 0, square + 7);
    BitSingle(square + 8, sq);
    BitZero(sq);
    BitSetIf(attack0, square % 8 != 0, square + 7, sq);
    BitSetIf(attack1, (square + 1) % 8 != 0, square + 9, sq);
  }

  /** white_pawn_moves. */
  method WhitePawnMoves(square: bv8) returns (r: Outcome<(bv64, bv64)>)
    ensures !(square < 64 && square / 8 != 7) ==> r == Panic(WhitePawnAssertion)
    ensures square < 64 && square / 8 != 7 ==> r == Value(WhitePawnMasks(square))
  {
    if !(square < 64 && square / 8 != 7) {
      return Panic(WhitePawnAssertion);
    }
    var moveMask: bv64 := 0;
    var attackMask: bv64 := 0;
    if square / 8 != 7 {
      moveMask := moveMask | Single(square + 8);
    }
    if square % 8 != 0 {
      attackMask := attackMask | Single(square + 7);
    }
    if (square + 1) % 8 != 0 {
      attackMask := attackMask | Single(square + 9);
    }
    return Value((moveMask, attackMask));
  }

  /** The (move, attack) pair of black_pawn_moves for a square its assertion
      admits; the assertion admits 64, one past the last square. */
  function BlackPawnMasks(square: bv8): (bv64, bv64)
    requires square <= 64 && square / 8 != 0
  {
    var move0: bv64 := 0;
    var attack0: bv64 := 0;
    var move1 := SetIf(move0, square / 8 != 0, square - 8);
    var attack1 := SetIf(attack0, square % 8 != 0, square - 9);
    var attack2 := SetIf(attack1, (square + 1) % 8 != 0, square - 7);
    (move1, attack2)
  }

  /** A black pawn advances to the previous row. */
  lemma BlackPawnMasksExact(square: Index, sq: Index)
    requires square / 8 != 0
    ensures BlackPawnMasks(square).0 == Single(square - 8)
    ensures Bit(BlackPawnMasks(square).0, sq) <==> SquareRow(sq) + 1 == SquareRow(square) && SquareCol(sq) == SquareCol(square)
    ensures Bit(BlackPawnMasks(square).1, sq) <==>
      SquareRow(sq) + 1 == SquareRow(square) && Dist(SquareCol(sq), SquareCol(square)) == 1
  {
    var attack0: bv64 := 0;
    var attack1 := SetIf(attack0, square % 8 != 0, square - 9);
    BitSingle(square - 8, sq);
    BitZero(sq);
    BitSetIf(attack0, square % 8 != 0, square - 9, sq);
    BitSetIf(attack1, (square + 1) % 8 != 0, square - 7, sq);
  }

  /** The assertion of black_pawn_moves lets square 64, which is not on the
      board, through, and the function then reports a move to square 56 and an
      attack on square 57. */
  lemma BlackPawnMasksOffBoard()
    ensures BlackPawnMasks(64) == (Single(56), Single(57))
  {}

  /** black_pawn_moves as written, with `square <= 64`. */
  method BlackPawnMoves(square: bv8) returns (r: Outcome<(bv64, bv64)>)
    ensures !(square <= 64 && square / 8 != 0) ==> r == Panic(BlackPawnAssertion)
    ensures square <= 64 && square / 8 != 0 ==> r == Value(BlackPawnMasks(square))
  {
    if !(square <= 64 && square / 8 != 0) {
      return Panic(BlackPawnAssertion);
    }
    var moveMask: bv64 := 0;
    var attackMask: bv64 := 0;
    if square / 8 != 0 {
      moveMask := moveMask | Single(square - 8);
    }
    if square % 8 != 0 {
      attackMask := attackMask | Single(square - 9);
    }
    if (square + 1) % 8 != 0 {
      attackMask := attackMask | Single(square - 7);
    }
    return Value((moveMask, attackMask));
  }

  const BlackPawnCheckedAssertion := "assertion failed: square < 64 && square / 8 != 0"

  /** black_pawn_moves with the evidently intended bound `square < 64`: every
      square it accepts is on the board and gets the mirror image of the white
      pawn's masks. */
  method BlackPawnMovesChecked(square: bv8) returns (r: Outcome<(bv64, bv64)>)
    ensures !(square < 64 && square / 8 != 0) ==> r == Panic(BlackPawnCheckedAssertion)
    ensures square < 64 && square / 8 != 0 ==> r == Value(BlackPawnMasks(square))
    ensures square < 64 && square / 8 != 0 ==> forall sq: Index ::
      (Bit(r.value.0, sq) <==> SquareRow(sq) + 1 == SquareRow(square) && SquareCol(sq) == SquareCol(square))
      && (Bit(r.value.1, sq) <==> SquareRow(sq) + 1 == SquareRow(square) && Dist(SquareCol(sq), SquareCol(square)) == 1)
  {
    if !(square < 64 && square / 8 != 0) {
      return Panic(BlackPawnCheckedAssertion);
    }
    var moveMask: bv64 := 0;
    var attackMask: bv64 := 0;
    if square / 8 != 0 {
      moveMask := moveMask | Single(square - 8);
    }
    if square % 8 != 0 {
      attackMask := attackMask | Single(square - 9);
    }
    if (square + 1) % 8 != 0 {
      attackMask := attackMask | Single(square - 7);
    }
    forall sq: Index
      ensures (Bit(moveMask, sq) <==> SquareRow(sq) + 1 == SquareRow(square) && SquareCol(sq) == SquareCol(square))
      ensures (Bit(attackMask, sq) <==> SquareRow(sq) + 1 == SquareRow(square) && Dist(SquareCol(sq), SquareCol(square)) == 1)
    {
      BlackPawnMasksExact(square, sq);
    }
    return Value((moveMask, attackMask));
  }
}
