/** The seven 64-entry tables that `main` in build.rs generates into
    movetables.rs, as values: entry `i` belongs to square `i`. The text
    formatting and the file they are written to are not modelled. */
module Tables {
  import opened Bits
  import opened MoveTables
  import opened SlidingMoves

  /** A piece table as `main` writes it: entry `i` pairs the mask of square
      `i` with itself. */
  function PieceTable(mask: Index -> bv64): seq<(bv64, bv64)> {
    seq(64, i requires 0 <= i < 64 => (mask(i as bv8), mask(i as bv8)))
  }

  function KingTable(): seq<(bv64, bv64)> { PieceTable(KingMask) }
  function KnightTable(): seq<(bv64, bv64)> { PieceTable(KnightMask) }
  function RookTable(): seq<(bv64, bv64)> { PieceTable(RookMask) }
  function BishopTable(): seq<(bv64, bv64)> { PieceTable(BishopMask) }
  function QueenTable(): seq<(bv64, bv64)> { PieceTable(QueenMask) }

  /** The white pawn table: squares 0..55, then eight empty pairs for the
      last row. */
  function WhitePawnTable(): seq<(bv64, bv64)> {
    seq(56, i requires 0 <= i < 56 => WhitePawnMasks(i as bv8)) + seq(8, _ => (0, 0))
  }

  /** The black pawn table: eight empty pairs for the first row, then squares
      8..63. */
  function BlackPawnTable(): seq<(bv64, bv64)> {
    seq(8, _ => (0, 0)) + seq(56, i requires 0 <= i < 56 => BlackPawnMasks((i + 8) as bv8))
  }

  lemma PieceTableLayout(mask: Index -> bv64, i: Index)
    ensures |PieceTable(mask)| == 64
    ensures PieceTable(mask)[i as int] == (mask(i), mask(i))
  {}

  /** Entry `i` of the king table holds the king mask of square `i` twice. */
  lemma KingTableEntry(i: Index, sq: Index)
    ensures |KingTable()| == 64
    ensures KingTable()[i as int].0 == KingTable()[i as int].1
    ensures Bit(KingTable()[i as int].0, sq) <==> KingReach(i, sq)
  {
    PieceTableLayout(KingMask, i);
    KingMaskExact(i, sq);
  }

  lemma KnightTableEntry(i: Index, sq: Index)
    ensures |KnightTable()| == 64
    ensures KnightTable()[i as int].0 == KnightTable()[i as int].1
    ensures Bit(KnightTable()[i as int].0, sq) <==> KnightReach(i, sq)
  {
    PieceTableLayout(KnightMask, i);
    KnightMaskExact(i, sq);
  }

  /** Every rook entry has fourteen squares. */
  lemma RookTableEntry(i: Index, sq: Index)
    ensures |RookTable()| == 64
    ensures RookTable()[i as int].0 == RookTable()[i as int].1
    ensures Bit(RookTable()[i as int].0, sq) <==> RookReach(i, sq)
    ensures PopCount(RookTable()[i as int].0) == 14
  {
    PieceTableLayout(RookMask, i);
    RookMaskExact(i, sq);
    RookMaskCount(i);
  }

  lemma BishopTableEntry(i: Index, sq: Index)
    ensures |BishopTable()| == 64
    ensures BishopTable()[i as int].0 == BishopTable()[i as int].1
    ensures Bit(BishopTable()[i as int].0, sq) <==> BishopReach(i, sq)
  {
    PieceTableLayout(BishopMask, i);
    BishopMaskExact(i, sq);
  }

  /** Each queen entry is the union of the rook and bishop entries. */
  lemma QueenTableEntry(i: Index)
    ensures |QueenTable()| == 64
    ensures QueenTable()[i as int] == (RookTable()[i as int].0 | BishopTable()[i as int].0, RookTable()[i as int].0 | BishopTable()[i as int].0)
  {
    PieceTableLayout(QueenMask, i);
    PieceTableLayout(RookMask, i);
    PieceTableLayout(BishopMask, i);
  }

  lemma WhitePawnTableEntry(i: Index, sq: Index)
    ensures |WhitePawnTable()| == 64
    ensures i >= 56 ==> WhitePawnTable()[i as int] == (0, 0)
    ensures i < 56 ==> WhitePawnTable()[i as int] == WhitePawnMasks(i)
    ensures i < 56 ==> (Bit(WhitePawnTable()[i as int].1, sq) <==>
      SquareRow(sq) == SquareRow(i) + 1 && Dist(SquareCol(sq), SquareCol(i)) == 1)
  {
    if i < 56 {
      WhitePawnMasksExact(i, sq);
    }
  }

  lemma BlackPawnTableEntry(i: Index, sq: Index)
    ensures |BlackPawnTable()| == 64
    ensures i < 8 ==> BlackPawnTable()[i as int] == (0, 0)
    ensures i >= 8 ==> BlackPawnTable()[i as int] == BlackPawnMasks(i)
    ensures i >= 8 ==> (Bit(BlackPawnTable()[i as int].1, sq) <==>
      SquareRow(sq) + 1 == SquareRow(i) && Dist(SquareCol(sq), SquareCol(i)) == 1)
  {
    if i >= 8 {
      BlackPawnMasksExact(i, sq);
    }
  }
}
