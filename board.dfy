/** `Board` (board/board.rs): an 8×8 array of optional pieces and the colour
    to move. Indexing uses a rank's or a file's ordinal (1..8) directly as the
    array index, so row 0 and column 0 are never reached and rank Eight or
    file H runs past the end of the array and panics. */
module Boards {
  import opened Types
  import Files
  import Ranks
  import opened Positions

  const RankPanic := "Rank is bigger than board"
  const FilePanic := "File is bigger than board"
  const NoPiece := "There is no piece on that place"
  const NotYours := "Not your piece"

  /** The cells of a board as a value: eight rows of eight cells. */
  type Grid = seq<seq<Option<Piece>>>

  predicate IsGrid(g: Grid) {
    |g| == 8 && forall i :: 0 <= i < 8 ==> |g[i]| == 8
  }

  /** Grids with the same cells are equal. */
  lemma GridsEqual(g: Grid, h: Grid)
    requires IsGrid(g) && IsGrid(h)
    requires forall i, j :: 0 <= i < 8 && 0 <= j < 8 ==> g[i][j] == h[i][j]
    ensures g == h
  {
    forall i | 0 <= i < 8
      ensures g[i] == h[i]
    {
    }
  }

  /** The state of a board: its cells and the colour to move. */
  datatype BoardState = BoardState(grid: Grid, turn: Color)

  /** The array row a rank indexes (`Into<i8> as usize`). */
  function Row(r: Ranks.Rank): int {
    Ranks.Ordinal(r) as int
  }

  /** The array column a file indexes. */
  function Column(f: Files.File): int {
    Files.Ordinal(f) as int
  }

  /** `board[rank]` (`Index<Rank>`, `Index<&Rank>`, `IndexMut<Rank>`): the
      row the ordinal indexes; `.get(8)` on the 8 rows finds nothing and the
      `.expect` panics. */
  function RankRow(g: Grid, r: Ranks.Rank): (row: Outcome<seq<Option<Piece>>>)
    requires IsGrid(g)
    ensures row.Panic? <==> r == Ranks.Eight
    ensures row.Panic? ==> row.message == RankPanic
    ensures row.Value? ==> 1 <= Row(r) < 8 && row.value == g[Row(r)]
  {
    if Row(r) < |g| then Value(g[Row(r)]) else Panic(RankPanic)
  }

  /** `row[file]` (`Index<File>`, `Index<&File>`, `IndexMut<File>` on a
      `BoardRank`), with the same off-by-one. */
  function FileCell(row: seq<Option<Piece>>, f: Files.File): (r: Outcome<Option<Piece>>)
    requires |row| == 8
    ensures r.Panic? <==> f == Files.H
    ensures r.Panic? ==> r.message == FilePanic
    ensures r.Value? ==> 1 <= Column(f) < 8 && r.value == row[Column(f)]
  {
    if Column(f) < |row| then Value(row[Column(f)]) else Panic(FilePanic)
  }

  /** `board[&pos]`, that is `board[pos.rank][pos.file]`: the rank is
      indexed first, so its panic wins. */
  function CellAt(g: Grid, pos: BoardPosition): (r: Outcome<Option<Piece>>)
    requires IsGrid(g)
    ensures r.Panic? <==> pos.rank == Ranks.Eight || pos.file == Files.H
    ensures pos.rank == Ranks.Eight ==> r == Panic(RankPanic)
    ensures pos.rank != Ranks.Eight && pos.file == Files.H ==> r == Panic(FilePanic)
    ensures r.Value? ==> 1 <= Row(pos.rank) < 8 && 1 <= Column(pos.file) < 8 &&
                         r.value == g[Row(pos.rank)][Column(pos.file)]
  {
    match RankRow(g, pos.rank)
    case Panic(m) => Panic(m)
    case Value(row) => FileCell(row, pos.file)
  }

  /** Two grids that differ only in row 0 and column 0 look the same through
      every position. */
  lemma CellAtIgnoresRowAndColumnZero(g: Grid, h: Grid, pos: BoardPosition)
    requires IsGrid(g) && IsGrid(h)
    requires forall i, j :: 1 <= i < 8 && 1 <= j < 8 ==> g[i][j] == h[i][j]
    ensures CellAt(g, pos) == CellAt(h, pos)
  {}

  /** Every cell in rows and columns 1..7 is read through the position whose
      ordinals are those row and column numbers. */
  lemma CellAtReaches(g: Grid, i: int, j: int)
    requires IsGrid(g) && 1 <= i < 8 && 1 <= j < 8
    ensures CellAt(g, BoardPosition(FileAt(j), RankAt(i))) == Value(g[i][j])
  {}

  function FileAt(j: int): (f: Files.File)
    requires 1 <= j <= 8
    ensures Column(f) == j
  {
    Files.TryFromI8(j as i8).value
  }

  function RankAt(i: int): (r: Ranks.Rank)
    requires 1 <= i <= 8
    ensures Row(r) == i
  {
    Ranks.TryFromI8(i as i8).value
  }

  /** `has_piece`: whether the indexed cell holds a piece; it panics
      wherever indexing does. */
  function HasPieceIn(g: Grid, pos: BoardPosition): (r: Outcome<bool>)
    requires IsGrid(g)
    ensures r.Panic? <==> pos.rank == Ranks.Eight || pos.file == Files.H
    ensures r.Panic? ==> r == Panic(CellAt(g, pos).message)
    ensures r.Value? ==> (r.value <==> CellAt(g, pos).value.Some?)
  {
    match CellAt(g, pos)
    case Panic(m) => Panic(m)
    case Value(cell) => Value(cell.Some?)
  }

  /** The pieces of a back rank, from column 0 to column 7. */
  function BackRank(j: int): PieceType
    requires 0 <= j < 8
  {
    [Rook, Knight, Bishop, Queen, King, Bishop, Knight, Rook][j]
  }

  /** `Board::new`: black in rows 0 and 1, white in rows 6 and 7. */
  function StartCell(i: int, j: int): Option<Piece>
    requires 0 <= i < 8 && 0 <= j < 8
  {
    if i == 0 then Some(Piece(BackRank(j), Black))
    else if i == 1 then Some(Piece(Pawn, Black))
    else if i == 6 then Some(Piece(Pawn, White))
    else if i == 7 then Some(Piece(BackRank(j), White))
    else None
  }

  function StartGrid(): (g: Grid)
    ensures IsGrid(g)
    ensures forall i, j :: 0 <= i < 8 && 0 <= j < 8 ==> g[i][j] == StartCell(i, j)
  {
    seq(8, i requires 0 <= i < 8 => seq(8, j requires 0 <= j < 8 => StartCell(i, j)))
  }

  /** The start is symmetric: row `7 - i` holds row `i`'s pieces in the
      other colour; rows 2..5 are empty; white is to move. */
  lemma StartLayout(i: int, j: int)
    requires 0 <= i < 8 && 0 <= j < 8
    ensures StartCell(i, j).Some? <==> i <= 1 || i >= 6
    ensures StartCell(i, j).Some? ==> (StartCell(i, j).value.color == Black <==> i <= 1)
    ensures StartCell(i, j).Some? ==> StartCell(7 - i, j).value.kind == StartCell(i, j).value.kind
    ensures StartCell(i, j).Some? && (i == 1 || i == 6) ==> StartCell(i, j).value.kind == Pawn
  {}

  /** Through the shifted indexing the white king (row 7, column 4) is read
      at d7, and a1 reads a black pawn. */
  lemma StartSeenThroughIndexing()
    ensures CellAt(StartGrid(), BoardPosition(Files.D, Ranks.Seven)) == Value(Some(Piece(King, White)))
    ensures CellAt(StartGrid(), BoardPosition(Files.A, Ranks.One)) == Value(Some(Piece(Pawn, Black)))
  {}

  /** The indexing the board evidently intends: file a..h is column 0..7,
      and rank 8..1 is row 0..7, so that the first row printed is rank 8. */
  function IntendedRow(r: Ranks.Rank): (i: int)
    ensures 0 <= i < 8
  {
    8 - Ranks.Ordinal(r) as int
  }

  function IntendedColumn(f: Files.File): (j: int)
    ensures 0 <= j < 8
  {
    Files.Ordinal(f) as int - 1
  }

  /** `board[&pos]` with the intended indexing: it never panics. */
  function IntendedCellAt(g: Grid, pos: BoardPosition): Option<Piece>
    requires IsGrid(g)
  {
    g[IntendedRow(pos.rank)][IntendedColumn(pos.file)]
  }

  /** With the intended indexing every cell of the grid belongs to exactly
      one position. */
  lemma IntendedIndexingExact(i: int, j: int, pos: BoardPosition)
    requires 0 <= i < 8 && 0 <= j < 8
    ensures IntendedRow(RankAt(8 - i)) == i && IntendedColumn(FileAt(j + 1)) == j
    ensures IntendedRow(pos.rank) == i && IntendedColumn(pos.file) == j <==>
              pos == BoardPosition(FileAt(j + 1), RankAt(8 - i))
  {
    if IntendedRow(pos.rank) == i && IntendedColumn(pos.file) == j {
      Ranks.OrdinalInjective(pos.rank, RankAt(8 - i));
      Files.OrdinalInjective(pos.file, FileAt(j + 1));
    }
  }

  /** With the intended indexing the layout of `Board::new` is the usual
      start position: white on ranks 1 and 2, black on ranks 7 and 8, pawns
      on ranks 2 and 7, and the back ranks from file a to file h. */
  lemma IntendedStartPosition(pos: BoardPosition)
    ensures IntendedCellAt(StartGrid(), pos).Some? <==>
              pos.rank == Ranks.One || pos.rank == Ranks.Two || pos.rank == Ranks.Seven || pos.rank == Ranks.Eight
    ensures pos.rank == Ranks.One ==>
              IntendedCellAt(StartGrid(), pos) == Some(Piece(BackRank(IntendedColumn(pos.file)), White))
    ensures pos.rank == Ranks.Two ==> IntendedCellAt(StartGrid(), pos) == Some(Piece(Pawn, White))
    ensures pos.rank == Ranks.Seven ==> IntendedCellAt(StartGrid(), pos) == Some(Piece(Pawn, Black))
    ensures pos.rank == Ranks.Eight ==>
              IntendedCellAt(StartGrid(), pos) == Some(Piece(BackRank(IntendedColumn(pos.file)), Black))
  {}

  /** In particular the kings start on e1 and e8 and the white queen on d1. */
  lemma IntendedKingsAndQueen()
    ensures IntendedCellAt(StartGrid(), BoardPosition(Files.E, Ranks.One)) == Some(Piece(King, White))
    ensures IntendedCellAt(StartGrid(), BoardPosition(Files.E, Ranks.Eight)) == Some(Piece(King, Black))
    ensures IntendedCellAt(StartGrid(), BoardPosition(Files.D, Ranks.One)) == Some(Piece(Queen, White))
  {
    IntendedStartPosition(BoardPosition(Files.E, Ranks.One));
    IntendedStartPosition(BoardPosition(Files.E, Ranks.Eight));
    IntendedStartPosition(BoardPosition(Files.D, Ranks.One));
  }

  /** The grid with `p` written at `pos`'s cell. */
  function Put(g: Grid, pos: BoardPosition, p: Piece): (h: Grid)
    requires IsGrid(g) && pos.rank != Ranks.Eight && pos.file != Files.H
    ensures IsGrid(h)
  {
    g[Row(pos.rank) := g[Row(pos.rank)][Column(pos.file) := Some(p)]]
  }

  /** `move_to(from, to)`: read `from`, refuse an empty cell or a piece of
      the colour not to move, write the piece into `to` (which panics on rank
      Eight or file H) and hand the turn over. `from` keeps its piece. */
  function MoveToSpec(s: BoardState, from: BoardPosition, to: BoardPosition): (Outcome<Result<(), string>>, BoardState)
    requires IsGrid(s.grid)
  {
    match CellAt(s.grid, from)
    case Panic(m) => (Panic(m), s)
    case Value(None) => (Value(Err(NoPiece)), s)
    case Value(Some(p)) =>
      if p.color != s.turn then (Value(Err(NotYours)), s)
      else if to.rank == Ranks.Eight then (Panic(RankPanic), s)
      else if to.file == Files.H then (Panic(FilePanic), s)
      else (Value(Ok(())), BoardState(Put(s.grid, to, p), Flip(s.turn)))
  }

  /** A move succeeds exactly when `from` and `to` can be indexed and `from`
      holds a piece of the colour to move. */
  lemma MoveToSucceeds(s: BoardState, from: BoardPosition, to: BoardPosition)
    requires IsGrid(s.grid)
    ensures MoveToSpec(s, from, to).0 == Value(Ok(())) <==>
              CellAt(s.grid, from).Value? && CellAt(s.grid, from).value.Some? &&
              CellAt(s.grid, from).value.value.color == s.turn &&
              CellAt(s.grid, to).Value?
  {}

  /** The errors of `move_to`, in the order they are checked. */
  lemma MoveToErrors(s: BoardState, from: BoardPosition, to: BoardPosition)
    requires IsGrid(s.grid)
    ensures CellAt(s.grid, from).Panic? ==> MoveToSpec(s, from, to).0 == Panic(CellAt(s.grid, from).message)
    ensures CellAt(s.grid, from) == Value(None) ==> MoveToSpec(s, from, to).0 == Value(Err(NoPiece))
    ensures CellAt(s.grid, from).Value? && CellAt(s.grid, from).value.Some? &&
            CellAt(s.grid, from).value.value.color != s.turn ==>
              MoveToSpec(s, from, to).0 == Value(Err(NotYours))
  {}

  /** A move that does not succeed changes nothing. */
  lemma MoveToFailureUnchanged(s: BoardState, from: BoardPosition, to: BoardPosition)
    requires IsGrid(s.grid)
    ensures MoveToSpec(s, from, to).0 != Value(Ok(())) ==> MoveToSpec(s, from, to).1 == s
  {}

  /** A successful move puts the moved piece at `to`, leaves every other
      position (`from` included) as it was, and hands the turn over. */
  lemma MoveToSuccessState(s: BoardState, from: BoardPosition, to: BoardPosition, pos: BoardPosition)
    requires IsGrid(s.grid)
    requires MoveToSpec(s, from, to).0 == Value(Ok(()))
    ensures IsGrid(MoveToSpec(s, from, to).1.grid)
    ensures MoveToSpec(s, from, to).1.turn == Flip(s.turn)
    ensures CellAt(MoveToSpec(s, from, to).1.grid, to) == CellAt(s.grid, from)
    ensures pos != to ==> CellAt(MoveToSpec(s, from, to).1.grid, pos) == CellAt(s.grid, pos)
  {
    var h := MoveToSpec(s, from, to).1.grid;
    if pos != to && pos.rank != Ranks.Eight && pos.file != Files.H {
      if Row(pos.rank) == Row(to.rank) {
        Ranks.OrdinalInjective(pos.rank, to.rank);
        Files.OrdinalInjective(pos.file, to.file);
      }
    }
  }

  /** Two successful moves give the turn back to the colour that began. */
  lemma TwoMovesRestoreTurn(s: BoardState, a: BoardPosition, b: BoardPosition, c: BoardPosition, d: BoardPosition)
    requires IsGrid(s.grid)
    requires MoveToSpec(s, a, b).0 == Value(Ok(()))
    requires IsGrid(MoveToSpec(s, a, b).1.grid)
    requires MoveToSpec(MoveToSpec(s, a, b).1, c, d).0 == Value(Ok(()))
    ensures MoveToSpec(MoveToSpec(s, a, b).1, c, d).1.turn == s.turn
  {
    FlipTwice(s.turn);
  }

  /** `move_piece(from, offset)`: `from + offset` (whose error text is
      passed on), then `move_to`. */
  function MovePieceSpec(s: BoardState, from: BoardPosition, off: MoveOffset): (Outcome<Result<(), string>>, BoardState)
    requires IsGrid(s.grid) && NoOverflow(from, off)
  {
    match Add(from, off)
    case Err(e) => (Value(Err(e.text)), s)
    case Ok(to) => MoveToSpec(s, from, to)
  }

  /** An offset that leaves the board fails, with the text of `from +
      offset`'s error, before anything changes; any other is `move_to` to
      the target. */
  lemma MovePieceIsMoveTo(s: BoardState, from: BoardPosition, off: MoveOffset)
    requires IsGrid(s.grid) && NoOverflow(from, off)
    ensures Add(from, off).Err? ==>
              Add(from, off).error.Message? &&
              MovePieceSpec(s, from, off) == (Value(Err(Add(from, off).error.text)), s)
    ensures Add(from, off).Ok? ==> MovePieceSpec(s, from, off) == MoveToSpec(s, from, Add(from, off).value)
  {}

  class Board {
    var cells: array2<Option<Piece>>
    var turn: Color

    ghost predicate Valid()
      reads this
    {
      cells.Length0 == 8 && cells.Length1 == 8
    }

    /** The cells and the turn as a value. */
    function State(): (s: BoardState)
      requires Valid()
      reads this, cells
      ensures IsGrid(s.grid) && s.turn == turn
      ensures forall i, j :: 0 <= i < 8 && 0 <= j < 8 ==> s.grid[i][j] == cells[i, j]
    {
      var a := cells;
      BoardState(seq(8, i requires 0 <= i < 8 reads a => seq(8, j requires 0 <= j < 8 reads a => a[i, j])), turn)
    }

    /** `Board::new`. */
    constructor New()
      ensures Valid() && fresh(cells)
      ensures State() == BoardState(StartGrid(), White)
    {
      cells := new Option<Piece>[8, 8]((i, j) requires 0 <= i < 8 && 0 <= j < 8 => StartCell(i, j));
      turn := White;
      new;
      GridsEqual(State().grid, StartGrid());
    }

    /** `board[&pos]`. */
    function At(pos: BoardPosition): (r: Outcome<Option<Piece>>)
      requires Valid()
      reads this, cells
      ensures r == CellAt(State().grid, pos)
    {
      if pos.rank == Ranks.Eight then Panic(RankPanic)
      else if pos.file == Files.H then Panic(FilePanic)
      else Value(cells[Row(pos.rank), Column(pos.file)])
    }

    /** `has_piece(&pos)`. */
    function HasPiece(pos: BoardPosition): (r: Outcome<bool>)
      requires Valid()
      reads this, cells
      ensures r == HasPieceIn(State().grid, pos)
    {
      if pos.rank == Ranks.Eight then Panic(RankPanic)
      else if pos.file == Files.H then Panic(FilePanic)
      else Value(cells[Row(pos.rank), Column(pos.file)].Some?)
    }

    /** `move_to(from, to)`. */
    method MoveTo(from: BoardPosition, to: BoardPosition) returns (r: Outcome<Result<(), string>>)
      requires Valid()
      modifies this, cells
      ensures Valid() && cells == old(cells)
      ensures (r, State()) == MoveToSpec(old(State()), from, to)
    {
      if from.rank == Ranks.Eight {
        return Panic(RankPanic);
      }
      if from.file == Files.H {
        return Panic(FilePanic);
      }
      var cell := cells[Row(from.rank), Column(from.file)];
      if cell.None? {
        return Value(Err(NoPiece));
      }
      var piece := cell.value;
      if piece.color != turn {
        return Value(Err(NotYours));
      }
      if to.rank == Ranks.Eight {
        return Panic(RankPanic);
      }
      if to.file == Files.H {
        return Panic(FilePanic);
      }
      ghost var before := State();
      cells[Row(to.rank), Column(to.file)] := Some(piece);
      turn := match turn case Black => White case White => Black;
      GridsEqual(State().grid, Put(before.grid, to, piece));
      return Value(Ok(()));
    }

    /** `move_piece(from, offset)`. */
    method MovePiece(from: BoardPosition, off: MoveOffset) returns (r: Outcome<Result<(), string>>)
      requires Valid() && NoOverflow(from, off)
      modifies this, cells
      ensures Valid() && cells == old(cells)
      ensures (r, State()) == MovePieceSpec(old(State()), from, off)
    {
      var target := Add(from, off);
      if target.Err? {
        return Value(Err(target.error.text));
      }
      r := MoveTo(from, target.value);
    }
  }
}
