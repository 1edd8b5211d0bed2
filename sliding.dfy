/** The sliding pieces of build.rs: rook_moves_bitmask (two `for` loops),
    bishop_moves_bitmask (four `while` loops) and queen_moves_bitmask (their
    union). Each mask is specified by a function that follows the loops pass
    by pass; lemmas then say which squares the mask holds and how many. */
module SlidingMoves {
  import opened Bits
  import opened Types
  import opened MoveTables

  // ---------------------------------------------------------------- rook

  /** Every other square of the same row or the same column. */
  predicate RookReach(pos: Index, sq: Index) {
    (SquareCol(sq) == SquareCol(pos) && SquareRow(sq) != SquareRow(pos))
    || (SquareRow(sq) == SquareRow(pos) && SquareCol(sq) != SquareCol(pos))
  }

  /** The body of the vertical loop for row `i`:
      `if pos / 8 != i { moves |= 1u64 << (pos % 8 + i * 8); }`. */
  function ColumnPass(m: bv64, pos: Index, i: bv8): bv64
    requires i < 8
  {
    SetIf(m, pos / 8 != i, pos % 8 + i * 8)
  }

  /** The body of the horizontal loop for column `i`:
      `if pos % 8 != i { moves |= 1u64 << (i + (pos / 8) * 8); }`. */
  function RowPass(m: bv64, pos: Index, i: bv8): bv64
    requires i < 8
  {
    SetIf(m, pos % 8 != i, i + (pos / 8) * 8)
  }

  /** The mask once the vertical loop has run for rows `0..n-1`. */
  function RookColumn(pos: Index, n: bv8): bv64
    requires n <= 8
    decreases n
  {
    if n == 0 then 0 else ColumnPass(RookColumn(pos, n - 1), pos, n - 1)
  }

  /** The mask once the horizontal loop has also run for columns `0..n-1`. */
  function RookRow(pos: Index, n: bv8): bv64
    requires n <= 8
    decreases n
  {
    if n == 0 then RookColumn(pos, 8) else RowPass(RookRow(pos, n - 1), pos, n - 1)
  }

  /** The rook mask: both loops run to the end. */
  function RookMask(pos: Index): bv64 {
    RookRow(pos, 8)
  }

  /** What the vertical loop has set once it has handled rows `0..n-1`. */
  ghost predicate ColumnSoFar(m: bv64, pos: Index, n: bv8) {
    forall sq: Index :: Bit(m, sq) <==> SquareCol(sq) == SquareCol(pos) && SquareRow(sq) < n && SquareRow(sq) != SquareRow(pos)
  }

  /** What the horizontal loop has set once it has handled columns `0..n-1`. */
  ghost predicate RowSoFar(m: bv64, pos: Index, n: bv8) {
    forall sq: Index :: Bit(m, sq) <==>
      (SquareCol(sq) == SquareCol(pos) && SquareRow(sq) != SquareRow(pos))
      || (SquareRow(sq) == SquareRow(pos) && SquareCol(sq) < n && SquareCol(sq) != SquareCol(pos))
  }

  lemma ColumnGeometry(pos: Index, i: bv8, sq: Index)
    requires i < 8
    ensures (SquareCol(sq) == SquareCol(pos) && SquareRow(sq) < i + 1 && SquareRow(sq) != SquareRow(pos)) <==>
      (SquareCol(sq) == SquareCol(pos) && SquareRow(sq) < i && SquareRow(sq) != SquareRow(pos))
      || (pos / 8 != i && sq == pos % 8 + i * 8)
  {}

  /** One pass of the vertical loop: row `i` is added unless it is `pos`'s own,
      and the square it adds was not set before. */
  lemma ColumnStep(m: bv64, pos: Index, i: bv8)
    requires i < 8 && ColumnSoFar(m, pos, i)
    ensures ColumnSoFar(ColumnPass(m, pos, i), pos, i + 1)
  {
    forall sq: Index
      ensures Bit(ColumnPass(m, pos, i), sq) <==>
        SquareCol(sq) == SquareCol(pos) && SquareRow(sq) < i + 1 && SquareRow(sq) != SquareRow(pos)
    {
      BitSetIf(m, pos / 8 != i, pos % 8 + i * 8, sq);
      ColumnGeometry(pos, i, sq);
    }
  }

  lemma ColumnCount(m: bv64, pos: Index, i: bv8)
    requires i < 8 && ColumnSoFar(m, pos, i)
    ensures PopCount(ColumnPass(m, pos, i))
      == PopCount(m) + (if pos / 8 != i then 1 else 0)
  {
    if pos / 8 != i {
      var k: Index := pos % 8 + i * 8;
      assert !Bit(m, k);
    }
    PopCountSetIfClear(m, pos / 8 != i, pos % 8 + i * 8);
  }

  lemma RowGeometry(pos: Index, i: bv8, sq: Index)
    requires i < 8
    ensures ((SquareCol(sq) == SquareCol(pos) && SquareRow(sq) != SquareRow(pos))
      || (SquareRow(sq) == SquareRow(pos) && SquareCol(sq) < i + 1 && SquareCol(sq) != SquareCol(pos))) <==>
      ((SquareCol(sq) == SquareCol(pos) && SquareRow(sq) != SquareRow(pos))
      || (SquareRow(sq) == SquareRow(pos) && SquareCol(sq) < i && SquareCol(sq) != SquareCol(pos)))
      || (pos % 8 != i && sq == i + (pos / 8) * 8)
  {}

  /** One pass of the horizontal loop. */
  lemma RowStep(m: bv64, pos: Index, i: bv8)
    requires i < 8 && RowSoFar(m, pos, i)
    ensures RowSoFar(RowPass(m, pos, i), pos, i + 1)
  {
    forall sq: Index
      ensures Bit(RowPass(m, pos, i), sq) <==>
        (SquareCol(sq) == SquareCol(pos) && SquareRow(sq) != SquareRow(pos))
        || (SquareRow(sq) == SquareRow(pos) && SquareCol(sq) < i + 1 && SquareCol(sq) != SquareCol(pos))
    {
      BitSetIf(m, pos % 8 != i, i + (pos / 8) * 8, sq);
      RowGeometry(pos, i, sq);
    }
  }

  lemma RowCount(m: bv64, pos: Index, i: bv8)
    requires i < 8 && RowSoFar(m, pos, i)
    ensures PopCount(RowPass(m, pos, i))
      == PopCount(m) + (if pos % 8 != i then 1 else 0)
  {
    if pos % 8 != i {
      var k: Index := i + (pos / 8) * 8;
      assert !Bit(m, k);
    }
    PopCountSetIfClear(m, pos % 8 != i, i + (pos / 8) * 8);
  }

  lemma ColumnStart(pos: Index)
    ensures ColumnSoFar(0, pos, 0) && PopCount(0) == 0
  {
    forall sq: Index ensures !Bit(0, sq) {
      BitZero(sq);
    }
    PopCountOfZero();
  }

  lemma {:induction false} RookColumnExact(pos: Index, n: bv8)
    requires n <= 8
    ensures ColumnSoFar(RookColumn(pos, n), pos, n)
    decreases n
  {
    if n == 0 {
      ColumnStart(pos);
    } else {
      RookColumnExact(pos, n - 1);
      ColumnStep(RookColumn(pos, n - 1), pos, n - 1);
    }
  }

  lemma {:induction false} RookRowExact(pos: Index, n: bv8)
    requires n <= 8
    ensures RowSoFar(RookRow(pos, n), pos, n)
    decreases n
  {
    if n == 0 {
      RookColumnExact(pos, 8);
    } else {
      RookRowExact(pos, n - 1);
      RowStep(RookRow(pos, n - 1), pos, n - 1);
    }
  }

  /** The rook mask holds exactly the other squares of `pos`'s row and column. */
  lemma RookMaskExact(pos: Index, sq: Index)
    ensures Bit(RookMask(pos), sq) <==> RookReach(pos, sq)
  {
    RookRowExact(pos, 8);
  }

  lemma {:induction false} RookColumnCount(pos: Index, n: bv8)
    requires n <= 8
    ensures PopCount(RookColumn(pos, n)) == if pos / 8 < n then n as int - 1 else n as int
    decreases n
  {
    if n == 0 {
      ColumnStart(pos);
    } else {
      RookColumnCount(pos, n - 1);
      RookColumnExact(pos, n - 1);
      ColumnCount(RookColumn(pos, n - 1), pos, n - 1);
    }
  }

  lemma {:induction false} RookRowCount(pos: Index, n: bv8)
    requires n <= 8
    ensures PopCount(RookRow(pos, n)) == if pos % 8 < n then 6 + n as int else 7 + n as int
    decreases n
  {
    if n == 0 {
      RookColumnCount(pos, 8);
    } else {
      RookRowCount(pos, n - 1);
      RookRowExact(pos, n - 1);
      RowCount(RookRow(pos, n - 1), pos, n - 1);
    }
  }

  lemma RookMaskCount(pos: Index)
    ensures PopCount(RookMask(pos)) == 14
  {
    RookRowCount(pos, 8);
  }

  /** rook_moves_bitmask. Each `for i in 0..8` loop is a `while` loop over a
      `bv8` counter whose body is the guarded update named above. */
  method RookMovesBitmask(pos: bv8) returns (r: Outcome<bv64>)
    ensures pos > 63 ==> r == Panic(InvalidPosition)
    ensures pos <= 63 ==> r == Value(RookMask(pos))
  {
    if pos > 63 {
      return Panic(InvalidPosition);
    }
    var moves: bv64 := 0;
    var i: bv8 := 0;
    while i < 8
      invariant i <= 8 && moves == RookColumn(pos, i)
    {
      moves := ColumnPass(moves, pos, i);
      i := i + 1;
    }
    i := 0;
    while i < 8
      invariant i <= 8 && moves == RookRow(pos, i)
    {
      moves := RowPass(moves, pos, i);
      i := i + 1;
    }
    return Value(moves);
  }

  // -------------------------------------------------------------- bishop

  datatype Diagonal = UpRight | UpLeft | DownRight | DownLeft {
    predicate Up() { this == UpRight || this == UpLeft }
    predicate Right() { this == UpRight || this == DownRight }
  }

  predicate CanStep(row: bv8, col: bv8, d: Diagonal) {
    (if d.Up() then row < 7 else row > 0) && (if d.Right() then col < 7 else col > 0)
  }

  function NextRow(row: bv8, d: Diagonal): bv8 {
    if d.Up() then row + 1 else row - 1
  }

  function NextCol(col: bv8, d: Diagonal): bv8 {
    if d.Right() then col + 1 else col - 1
  }

  /** `moves |= 1u64 << (row * 8 + col)`. */
  function Mark(moves: bv64, row: bv8, col: bv8): bv64
    requires row < 8 && col < 8
  {
    moves | Single(row * 8 + col)
  }

  lemma BitMark(moves: bv64, row: bv8, col: bv8, sq: Index)
    requires row < 8 && col < 8
    ensures Bit(Mark(moves, row, col), sq) <==> Bit(moves, sq) || sq == row * 8 + col
  {
    BitSet(moves, row * 8 + col, sq);
  }

  function Walk(row: bv8, col: bv8, d: Diagonal, moves: bv64): bv64
    requires row < 8 && col < 8
    decreases if d.Up() then 7 - row else row
  {
    if CanStep(row, col, d) then
      Walk(NextRow(row, d), NextCol(col, d), d, Mark(moves, NextRow(row, d), NextCol(col, d)))
    else
      moves
  }

  predicate OnRay(row: bv8, col: bv8, d: Diagonal, sq: Index) {
    (if d.Up() then SquareRow(sq) > row else SquareRow(sq) < row)
    && (if d.Right() then SquareCol(sq) > col else SquareCol(sq) < col)
    && Dist(SquareRow(sq), row) == Dist(SquareCol(sq), col)
  }

  lemma RayStep(row: bv8, col: bv8, d: Diagonal, sq: Index)
    requires row < 8 && col < 8 && CanStep(row, col, d)
    ensures OnRay(row, col, d, sq) <==>
      sq == NextRow(row, d) * 8 + NextCol(col, d) || OnRay(NextRow(row, d), NextCol(col, d), d, sq)
  {
    match d
    case UpRight => RayStepUpRight(row, col, sq);
    case UpLeft => RayStepUpLeft(row, col, sq);
    case DownRight => RayStepDownRight(row, col, sq);
    case DownLeft => RayStepDownLeft(row, col, sq);
  }

  lemma RayStepUpRight(row: bv8, col: bv8, sq: Index)
    requires row < 7 && col < 7
    ensures OnRay(row, col, UpRight, sq) <==>
      sq == NextRow(row, UpRight) * 8 + NextCol(col, UpRight) || OnRay(NextRow(row, UpRight), NextCol(col, UpRight), UpRight, sq)
  {}

  lemma RayStepUpLeft(row: bv8, col: bv8, sq: Index)
    requires row < 7 && 0 < col < 8
    ensures OnRay(row, col, UpLeft, sq) <==>
      sq == NextRow(row, UpLeft) * 8 + NextCol(col, UpLeft) || OnRay(NextRow(row, UpLeft), NextCol(col, UpLeft), UpLeft, sq)
  {}

  lemma RayStepDownRight(row: bv8, col: bv8, sq: Index)
    requires 0 < row < 8 && col < 7
    ensures OnRay(row, col, DownRight, sq) <==>
      sq == NextRow(row, DownRight) * 8 + NextCol(col, DownRight) || OnRay(NextRow(row, DownRight), NextCol(col, DownRight), DownRight, sq)
  {}

  lemma RayStepDownLeft(row: bv8, col: bv8, sq: Index)
    requires 0 < row < 8 && 0 < col < 8
    ensures OnRay(row, col, DownLeft, sq) <==>
      sq == NextRow(row, DownLeft) * 8 + NextCol(col, DownLeft) || OnRay(NextRow(row, DownLeft), NextCol(col, DownLeft), DownLeft, sq)
  {}

  lemma RayEnd(row: bv8, col: bv8, d: Diagonal, sq: Index)
    requires row < 8 && col < 8 && !CanStep(row, col, d)
    ensures !OnRay(row, col, d, sq)
  {}

  lemma {:induction false} WalkExact(row: bv8, col: bv8, d: Diagonal, moves: bv64, sq: Index)
    requires row < 8 && col < 8
    ensures Bit(Walk(row, col, d, moves), sq) <==> Bit(moves, sq) || OnRay(row, col, d, sq)
    decreases if d.Up() then 7 - row else row
  {
    if CanStep(row, col, d) {
      WalkExact(NextRow(row, d), NextCol(col, d), d, Mark(moves, NextRow(row, d), NextCol(col, d)), sq);
      BitMark(moves, NextRow(row, d), NextCol(col, d), sq);
      RayStep(row, col, d, sq);
    } else {
      RayEnd(row, col, d, sq);
    }
  }

  function BishopMask(pos: Index): bv64 {
    var row, col := pos / 8, pos % 8;
    Walk(row, col, DownLeft, Walk(row, col, DownRight, Walk(row, col, UpLeft, Walk(row, col, UpRight, 0))))
  }

  lemma WalkStepUpRight(row: bv8, col: bv8, moves: bv64)
    requires row < 7 && col < 7
    ensures Walk(row, col, UpRight, moves) == Walk(row + 1, col + 1, UpRight, Mark(moves, row + 1, col + 1))
  {}

  lemma WalkStepUpLeft(row: bv8, col: bv8, moves: bv64)
    requires row < 7 && 0 < col < 8
    ensures Walk(row, col, UpLeft, moves) == Walk(row + 1, col - 1, UpLeft, Mark(moves, row + 1, col - 1))
  {}

  lemma WalkStepDownRight(row: bv8, col: bv8, moves: bv64)
    requires 0 < row < 8 && col < 7
    ensures Walk(row, col, DownRight, moves) == Walk(row - 1, col + 1, DownRight, Mark(moves, row - 1, col + 1))
  {}

  lemma WalkStepDownLeft(row: bv8, col: bv8, moves: bv64)
    requires 0 < row < 8 && 0 < col < 8
    ensures Walk(row, col, DownLeft, moves) == Walk(row - 1, col - 1, DownLeft, Mark(moves, row - 1, col - 1))
  {}

  lemma WalkEndUpRight(row: bv8, col: bv8, moves: bv64)
    requires row < 8 && col < 8 && !(row < 7 && col < 7)
    ensures Walk(row, col, UpRight, moves) == moves
  {}

  lemma WalkEndUpLeft(row: bv8, col: bv8, moves: bv64)
    requires row < 8 && col < 8 && !(row < 7 && col > 0)
    ensures Walk(row, col, UpLeft, moves) == moves
  {}

  lemma WalkEndDownRight(row: bv8, col: bv8, moves: bv64)
    requires row < 8 && col < 8 && !(row > 0 && col < 7)
    ensures Walk(row, col, DownRight, moves) == moves
  {}

  lemma WalkEndDownLeft(row: bv8, col: bv8, moves: bv64)
    requires row < 8 && col < 8 && !(row > 0 && col > 0)
    ensures Walk(row, col, DownLeft, moves) == moves
  {}

  predicate BishopReach(pos: Index, sq: Index) {
    sq != pos && Dist(SquareRow(pos), SquareRow(sq)) == Dist(SquareCol(pos), SquareCol(sq))
  }

  /** A square off `pos` on one of its diagonals differs from it in both row
      and column, so it lies in exactly one of the four quadrants. */
  lemma BishopQuadrants(pos: Index, sq: Index)
    ensures BishopReach(pos, sq) <==>
      Dist(SquareRow(pos), SquareRow(sq)) == Dist(SquareCol(pos), SquareCol(sq)) && SquareRow(sq) != SquareRow(pos) && SquareCol(sq) != SquareCol(pos)
  {}

  lemma RayUpRightFromPos(pos: Index, sq: Index)
    ensures OnRay(pos / 8, pos % 8, UpRight, sq) <==>
      SquareRow(sq) > SquareRow(pos) && SquareCol(sq) > SquareCol(pos) && Dist(SquareRow(pos), SquareRow(sq)) == Dist(SquareCol(pos), SquareCol(sq))
  {}

  lemma RayUpLeftFromPos(pos: Index, sq: Index)
    ensures OnRay(pos / 8, pos % 8, UpLeft, sq) <==>
      SquareRow(sq) > SquareRow(pos) && SquareCol(sq) < SquareCol(pos) && Dist(SquareRow(pos), SquareRow(sq)) == Dist(SquareCol(pos), SquareCol(sq))
  {}

  lemma RayDownRightFromPos(pos: Index, sq: Index)
    ensures OnRay(pos / 8, pos % 8, DownRight, sq) <==>
      SquareRow(sq) < SquareRow(pos) && SquareCol(sq) > SquareCol(pos) && Dist(SquareRow(pos), SquareRow(sq)) == Dist(SquareCol(pos), SquareCol(sq))
  {}

  lemma RayDownLeftFromPos(pos: Index, sq: Index)
    ensures OnRay(pos / 8, pos % 8, DownLeft, sq) <==>
      SquareRow(sq) < SquareRow(pos) && SquareCol(sq) < SquareCol(pos) && Dist(SquareRow(pos), SquareRow(sq)) == Dist(SquareCol(pos), SquareCol(sq))
  {}

  lemma BishopGeometry(pos: Index, sq: Index)
    ensures (OnRay(pos / 8, pos % 8, UpRight, sq) || OnRay(pos / 8, pos % 8, UpLeft, sq)
      || OnRay(pos / 8, pos % 8, DownRight, sq) || OnRay(pos / 8, pos % 8, DownLeft, sq))
      <==> BishopReach(pos, sq)
  {
    BishopQuadrants(pos, sq);
    RayUpRightFromPos(pos, sq);
    RayUpLeftFromPos(pos, sq);
    RayDownRightFromPos(pos, sq);
    RayDownLeftFromPos(pos, sq);
  }

  lemma BishopMaskExact(pos: Index, sq: Index)
    ensures Bit(BishopMask(pos), sq) <==> BishopReach(pos, sq)
  {
    var row, col := pos / 8, pos % 8;
    var m1 := Walk(row, col, UpRight, 0);
    var m2 := Walk(row, col, UpLeft, m1);
    var m3 := Walk(row, col, DownRight, m2);
    BitZero(sq);
    WalkExact(row, col, UpRight, 0, sq);
    WalkExact(row, col, UpLeft, m1, sq);
    WalkExact(row, col, DownRight, m2, sq);
    WalkExact(row, col, DownLeft, m3, sq);
    BishopGeometry(pos, sq);
  }

  method BishopMovesBitmask(pos: bv8) returns (r: Outcome<bv64>)
    ensures pos > 63 ==> r == Panic(InvalidPosition)
    ensures pos <= 63 ==> r == Value(BishopMask(pos))
  {
    if pos > 63 {
      return Panic(InvalidPosition);
    }
    var moves: bv64 := 0;
    var row, col := pos / 8, pos % 8;
    while row < 7 && col < 7
      invariant row < 8 && col < 8
      invariant Walk(row, col, UpRight, moves) == Walk(pos / 8, pos % 8, UpRight, 0)
      decreases 7 - row
    {
      WalkStepUpRight(row, col, moves);
      row := row + 1;
      col := col + 1;
      moves := Mark(moves, row, col);
    }
    WalkEndUpRight(row, col, moves);
    row, col := pos / 8, pos % 8;
    ghost var m1 := moves;
    while row < 7 && col > 0
      invariant row < 8 && col < 8
      invariant Walk(row, col, UpLeft, moves) == Walk(pos / 8, pos % 8, UpLeft, m1)
      decreases 7 - row
    {
      WalkStepUpLeft(row, col, moves);
      row := row + 1;
      col := col - 1;
      moves := Mark(moves, row, col);
    }
    WalkEndUpLeft(row, col, moves);
    row, col := pos / 8, pos % 8;
    ghost var m2 := moves;
    while row > 0 && col < 7
      invariant row < 8 && col < 8
      invariant Walk(row, col, DownRight, moves) == Walk(pos / 8, pos % 8, DownRight, m2)
      decreases row
    {
      WalkStepDownRight(row, col, moves);
      row := row - 1;
      col := col + 1;
      moves := Mark(moves, row, col);
    }
    WalkEndDownRight(row, col, moves);
    row, col := pos / 8, pos % 8;
    ghost var m3 := moves;
    while row > 0 && col > 0
      invariant row < 8 && col < 8
      invariant Walk(row, col, DownLeft, moves) == Walk(pos / 8, pos % 8, DownLeft, m3)
      decreases row
    {
      WalkStepDownLeft(row, col, moves);
      row := row - 1;
      col := col - 1;
      moves := Mark(moves, row, col);
    }
    WalkEndDownLeft(row, col, moves);
    return Value(moves);
  }

  // --------------------------------------------------------------- queen

  function QueenMask(pos: Index): bv64 {
    RookMask(pos) | BishopMask(pos)
  }

  /** The queen reaches what the rook or the bishop reaches. */
  lemma QueenMaskExact(pos: Index, sq: Index)
    ensures Bit(QueenMask(pos), sq) <==> RookReach(pos, sq) || BishopReach(pos, sq)
  {
    BitOr(RookMask(pos), BishopMask(pos), sq);
    RookMaskExact(pos, sq);
    BishopMaskExact(pos, sq);
  }

  /** queen_moves_bitmask: the rook mask is computed first, so its panic is
      the one reported for a square above 63. */
  method QueenMovesBitmask(pos: bv8) returns (r: Outcome<bv64>)
    ensures pos > 63 ==> r == Panic(InvalidPosition)
    ensures pos <= 63 ==> r == Value(QueenMask(pos))
  {
    var rook := RookMovesBitmask(pos);
    if rook.Panic? {
      return rook;
    }
    var bishop := BishopMovesBitmask(pos);
    if bishop.Panic? {
      return bishop;
    }
    return Value(rook.value | bishop.value);
  }
}
