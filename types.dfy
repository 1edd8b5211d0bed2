/** The plain type declarations the core is built from: Rust's `i8`, `Option`,
    `Result`, a panic outcome, the colours and kinds of pieces
    (pieces/mod.rs), `MoveOffset` (board/mod.rs) and the error enums
    (errors/mod.rs). */
module Types {

  /** Rust's `i8`. */
  newtype i8 = x: int | -128 <= x < 128

  datatype Option<T> = None | Some(value: T)

  datatype Result<T, E> = Ok(value: T) | Err(error: E)

  /** What a Rust function does when it may panic: it returns a value, or it
      panics with a message (`panic!`, `assert!`, `.expect`, `unreachable!`). */
  datatype Outcome<T> = Value(value: T) | Panic(message: string)

  datatype Color = Black | White

  /** The colour whose turn it is after `c` has moved (board.rs, `move_to`). */
  function Flip(c: Color): (r: Color)
    ensures r != c
  {
    match c
    case Black => White
    case White => Black
  }

  lemma FlipTwice(c: Color)
    ensures Flip(Flip(c)) == c
  {}

  /** `PieceType`, whose discriminants 0..5 index per-kind tables. */
  datatype PieceType = Pawn | Rook | Knight | Bishop | King | Queen

  /** Pieces are not part of this model beyond their kind and colour. */
  datatype Piece = Piece(kind: PieceType, color: Color)

  /** `MoveOffset(rank_delta, file_delta)`. */
  datatype MoveOffset = MoveOffset(rankDelta: i8, fileDelta: i8)

  /** `MoveOffset::from((a, b))`: the first component is the rank delta. */
  function OffsetFrom(pair: (i8, i8)): MoveOffset {
    MoveOffset(pair.0, pair.1)
  }

  /** The `ExpectedOneOf` payloads of `ParsingError` carry only text for
      display, so they are left out. */
  datatype ParsingError =
    | UnbalancedBraces
    | ExpectedOneOf
    | CharOverflow
    | CharUnderflow
    | NotAFile
    | NotARank

  datatype BoardError = PieceMissing | PieceWhereMoving | PieceNotInPlay | SameColor

  /** `Error`, plus `Message` for the `String` errors of File, Rank and
      `move_to`: the `?` operators that turn those strings into an `Error`
      (board_position.rs) and back (board.rs, `move_piece`) have no `From`
      implementation behind them, so the model carries the text unchanged. */
  datatype Error =
    | Parsing(parsing: ParsingError)
    | Board(board: BoardError)
    | Message(text: string)

  /** Decimal text of an integer, as `format!("{}", n)` writes it. */
  function DecimalString(n: int): (s: string)
    ensures |s| >= 1
    decreases if n < 0 then 1 - n else n
  {
    if n < 0 then "-" + DecimalString(-n)
    else if n < 10 then [DigitChar(n)]
    else DecimalString(n / 10) + [DigitChar(n % 10)]
  }

  function DigitChar(d: int): (c: char)
    requires 0 <= d < 10
    ensures '0' <= c <= '9'
  {
    ['0', '1', '2', '3', '4', '5', '6', '7', '8', '9'][d]
  }
}
