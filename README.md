# rust_chess_engine: a Dafny model of the board core

This project models the core of barbariand/rust_chess_engine, a chess engine
written in Rust, and proves properties of that model.

- **Attack tables.** `build.rs` generates the attack bitmasks for the king,
  knight, rook, bishop and queen for every square 0..63, and for the pawns
  of each colour on the squares they can stand on before promotion: white
  on 0..55 followed by eight empty pairs, black on eight empty pairs
  followed by 8..63. It writes them out as tables of `BitMap64` pairs.
- **`BitMap64`.** A 64-square set kept in an `i64`, with its bit operations
  and shifts.
- **Coordinates.** `File` and `Rank` are the columns a..h and rows 1..8, with
  ordinals 1..8 and checked arithmetic. `BoardPosition` is a file and a rank;
  it can be moved by a `MoveOffset` and parsed from text such as `"e4"`.
- **`Board`.** An 8×8 array of optional pieces plus the colour to move, with
  `has_piece`, `move_to` and `move_piece`.
- **Move lists.** The king's and the knight's lists are built from fixed
  offset tables.
- **`History`.** The log of actions played.

A panic is modelled as a value: `Outcome.Panic(message)`. This covers
`panic!`, `assert!`, `.expect` and `unreachable!`. Rust's `Result` is
`Result`. A `u64` bitmask is a `bv64`.

An `i64` bitmap is held as its two's-complement bit pattern in a `bv64`.
Signed operations are written out: `>>` on an `i64` is the arithmetic shift
`BitMaps.ArithShr`.

The `build.rs` generators, the board and the history are state-changing Rust
code. They are modelled as methods:

- `MoveTables`, `SlidingMoves`: the generators, with the source's `if` chains
  and loops.
- `Boards.Board`: a class over an `array2`.
- `BitMaps.BitMap64`: a class whose field the `*Assign` operators and
  `set_bit`/`clear_bit` update.
- `Histories.History`: a class over a `seq`.

Each such method is proved against a pure specification, such as `KingMask`,
`RookMask`, `BishopMask` or `MoveToSpec`. The properties are then proved
about that specification:

- exact geometric descriptions of the attack masks;
- bit counts;
- `move_to`'s error order and "nothing else changes";
- the round trip of position names through `from_str`.

All source paths below are relative to the repository root.

Indexing a board uses a rank's or a file's ordinal (1..8) directly as an
index into 8 cells. The model keeps this as written:

- `board[pos]` panics for every position on rank 8 or file h;
- row 0 and column 0 of the array are never read.

The corrected indexing and its properties are in `Boards`; see "## Findings".

## Model

| member | source | states |
|---|---|---|
| Types.Flip | src/chess_engine/board/board.rs:71-74 | handing over the turn always gives the other colour |
| Types.FlipTwice | src/chess_engine/board/board.rs:71-74 | handing the turn over twice gives the colour back |
| Bits.BitSet | build.rs:75-77 | or-ing `1 << k` into a mask sets bit `k` and leaves every other bit as it was |
| Bits.BitSetIf | build.rs:75-87 | a guarded update (`if c`, or `1 << k` into the mask) sets bit `k` exactly when `c` holds and changes no other bit |
| Bits.BitAnd | src/chess_engine/board/bitmap.rs:57-67 | a bit of `x & y` is set exactly when it is set in both |
| Bits.BitOr | src/chess_engine/board/bitmap.rs:68-78 | a bit of the bitwise or of `x` and `y` is set exactly when it is set in either |
| Bits.BitXor | src/chess_engine/board/bitmap.rs:79-89 | a bit of `x ^ y` is set exactly when it is set in one of them but not both |
| Bits.BitNot | src/chess_engine/board/bitmap.rs:18-20 | a bit of `!x` is set exactly when it is clear in `x` |
| Bits.PopCountBound | src/chess_engine/board/bitmap.rs:31-33 | the number of set bits is at most 64, so it fits the `u8` it is cast to |
| Bits.CountBelowZero | src/chess_engine/board/bitmap.rs:31-33 | the count below `n` is zero exactly when no bit below `n` is set |
| Bits.PopCountOfZero | src/chess_engine/board/bitmap.rs:5-9 | the empty word has no set bit |
| Bits.CountBelowSet | src/chess_engine/board/bitmap.rs:14-16 | setting bit `k` adds one to the count below `n` exactly when `k` is below `n` and was clear |
| Bits.PopCountSet | src/chess_engine/board/bitmap.rs:14-16 | setting a bit adds one to the count when the bit was clear, and nothing otherwise |
| Bits.PopCountSetIf | build.rs:75-87 | a guarded update adds at most one set bit, and none when its guard fails |
| Bits.PopCountSetIfClear | build.rs:150-161 | a guarded update of a clear bit adds exactly one set bit when its guard holds |
| MoveTables.KingGeometry | build.rs:74-87 | the three guarded offsets +1, +8, +9 reach exactly the squares one column right, one row down and one step diagonally down-right that stay on the board |
| MoveTables.KingMaskExact | build.rs:67-92 | a square is in the king mask exactly when it is right of, below, or diagonally below-right of the square |
| MoveTables.KingMaskCount | build.rs:67-92 | the king mask has at most three squares, and square 63 has none |
| MoveTables.KingMovesBitmask | build.rs:67-92 | it panics with "Invalid position" above 63 and otherwise returns the king mask, with its squares described exactly |
| MoveTables.KnightGeometry | build.rs:100-138 | the eight guarded offsets reach exactly the knight jumps that stay on the board; none wraps from one edge to the other |
| MoveTables.KnightMaskExact | build.rs:93-141 | a square is in the knight mask exactly when its row and column differ from the square's by two and one |
| MoveTables.KnightMaskCount | build.rs:93-141 | the knight mask has at most eight squares |
| MoveTables.KnightMovesBitmask | build.rs:93-141 | it panics with "Invalid position" above 63; otherwise it returns the knight mask, whose squares are exactly the knight jumps, and which never holds the square itself |
| MoveTables.WhitePawnMasksExact | build.rs:215-239 | the move mask is the single square straight ahead; the attacks are exactly the squares diagonally ahead that stay on the board |
| MoveTables.WhitePawnMoves | build.rs:215-239 | the assertion panics outside `square < 64 && square / 8 != 7`; otherwise the result is the white pawn masks |
| MoveTables.BlackPawnMasksExact | build.rs:240-264 | on squares 8..63 the move mask is the square one row back, and the attacks are exactly the squares diagonally behind |
| MoveTables.BlackPawnMasksOffBoard | build.rs:240-264 | the assertion admits square 64, and the function then returns a move to square 56 and an attack on square 57 |
| MoveTables.BlackPawnMoves | build.rs:240-264 | the assertion panics outside `square <= 64 && square / 8 != 0` (as written); otherwise the result is the black pawn masks |
| MoveTables.BlackPawnMovesChecked | build.rs:240-264 | with the bound `square < 64` every accepted square is on the board, and its masks are exactly the squares one row back and diagonally behind |
| SlidingMoves.ColumnGeometry | build.rs:150-154 | extending the column part from rows below `i` to rows below `i + 1` adds exactly the square that pass `i` of the vertical loop sets, and nothing when `i` is the square's own row |
| SlidingMoves.ColumnStep | build.rs:150-154 | each pass of the vertical loop adds row `i` of the square's column, unless it is the square's own row |
| SlidingMoves.RowGeometry | build.rs:157-161 | extending the row part from columns below `i` to columns below `i + 1` adds exactly the square that pass `i` of the horizontal loop sets, and nothing when `i` is the square's own column |
| SlidingMoves.RowStep | build.rs:157-161 | each pass of the horizontal loop adds column `i` of the square's row, unless it is the square's own column |
| SlidingMoves.ColumnCount | build.rs:150-154 | a pass of the vertical loop adds one square, except in the square's own row |
| SlidingMoves.RowCount | build.rs:157-161 | a pass of the horizontal loop adds one square, except in the square's own column |
| SlidingMoves.ColumnStart | build.rs:147 | the empty mask is where both loops start, with no square |
| SlidingMoves.RookColumnExact | build.rs:150-154 | after `n` passes the mask is exactly the square's column in rows below `n`, without the square |
| SlidingMoves.RookRowExact | build.rs:150-161 | after the vertical loop and `n` horizontal passes the mask is the whole column plus the square's row in columns below `n`, without the square |
| SlidingMoves.RookMaskExact | build.rs:142-164 | a square is in the rook mask exactly when it shares the row or the column and is not the square itself |
| SlidingMoves.RookColumnCount | build.rs:150-154 | after `n` passes the column part has `n` squares, or `n - 1` once the square's own row is passed |
| SlidingMoves.RookRowCount | build.rs:157-161 | with the column done, `n` horizontal passes bring the count to `7 + n`, or `6 + n` once the square's own column is passed |
| SlidingMoves.RookMaskCount | build.rs:142-164 | every rook mask has exactly fourteen squares |
| SlidingMoves.RookMovesBitmask | build.rs:142-164 | it panics with "Invalid position" above 63 and otherwise returns the rook mask |
| SlidingMoves.BitMark | build.rs:177 | marking `(row, col)` sets square `row * 8 + col` and no other |
| SlidingMoves.RayStep | build.rs:174-208 | one step of a diagonal walk: the ray from a square is the next square plus the ray from there |
| SlidingMoves.RayEnd | build.rs:174-208 | at the edge a walk stops: the ray beyond it is empty |
| SlidingMoves.WalkExact | build.rs:173-208 | a diagonal walk adds to the mask exactly the squares of its ray up to the board's edge |
| SlidingMoves.WalkStepUpRight | build.rs:174-178 | one pass of the up-right loop is one step of the walk |
| SlidingMoves.WalkStepUpLeft | build.rs:184-188 | one pass of the up-left loop is one step of the walk |
| SlidingMoves.WalkStepDownRight | build.rs:194-198 | one pass of the down-right loop is one step of the walk |
| SlidingMoves.WalkStepDownLeft | build.rs:204-208 | one pass of the down-left loop is one step of the walk |
| SlidingMoves.WalkEndUpRight | build.rs:174 | the up-right loop ends where its guard fails and the walk adds nothing more |
| SlidingMoves.WalkEndUpLeft | build.rs:184 | the up-left loop ends where its guard fails and the walk adds nothing more |
| SlidingMoves.WalkEndDownRight | build.rs:194 | the down-right loop ends where its guard fails and the walk adds nothing more |
| SlidingMoves.WalkEndDownLeft | build.rs:204 | the down-left loop ends where its guard fails and the walk adds nothing more |
| SlidingMoves.BishopQuadrants | build.rs:173-208 | a square on a diagonal through the square, other than the square itself, differs from it in both row and column, so it lies in one of the four directions the loops walk |
| SlidingMoves.BishopGeometry | build.rs:173-208 | the four rays together are exactly the other squares on the square's two diagonals |
| SlidingMoves.BishopMaskExact | build.rs:165-211 | a square is in the bishop mask exactly when it is on a diagonal through the square and is not the square itself |
| SlidingMoves.BishopMovesBitmask | build.rs:165-211 | it panics with "Invalid position" above 63; otherwise its four loops return the bishop mask |
| SlidingMoves.QueenMaskExact | build.rs:212-214 | a square is in the queen mask exactly when a rook or a bishop on the square reaches it |
| SlidingMoves.QueenMovesBitmask | build.rs:212-214 | it panics with "Invalid position" above 63 and otherwise returns the union of the rook and bishop masks |
| Tables.PieceTableLayout | build.rs:8-36 | a piece table has 64 entries, and entry `i` pairs square `i`'s mask with itself |
| Tables.KingTableEntry | build.rs:8-12 | entry `i` of the king table holds the mask of the king's reach from square `i` |
| Tables.KnightTableEntry | build.rs:13-18 | entry `i` of the knight table holds the knight jumps from square `i` |
| Tables.RookTableEntry | build.rs:19-24 | entry `i` of the rook table holds square `i`'s row and column, fourteen squares |
| Tables.BishopTableEntry | build.rs:25-30 | entry `i` of the bishop table holds square `i`'s diagonals |
| Tables.QueenTableEntry | build.rs:31-36 | each queen entry is the union of the rook and bishop entries |
| Tables.WhitePawnTableEntry | build.rs:37-48 | squares 0..55 hold their white pawn masks, with attacks diagonally ahead; the last row holds empty pairs |
| Tables.BlackPawnTableEntry | build.rs:49-60 | the first row holds empty pairs; squares 8..63 hold their black pawn masks, with attacks diagonally behind |
| BitMaps.SingleShl | src/chess_engine/board/bitmap.rs:35-40 | a single square shifted left by `n` moves `n` squares up, or off the board |
| BitMaps.SingleShr | src/chess_engine/board/bitmap.rs:51-56 | a single square shifted logically right by `n` moves `n` squares down, or off the board |
| BitMaps.SingleArithShr | src/chess_engine/board/bitmap.rs:51-56 | below the sign bit, the `i64` arithmetic shift moves a square as the logical shift does |
| BitMaps.SignBitArithShr | src/chess_engine/board/bitmap.rs:51-56 | shifting the sign bit right by `n` fills bits `63 - n`..63 |
| BitMaps.AndSingle | src/chess_engine/board/bitmap.rs:22-27 | masking with one bit keeps that bit or nothing |
| BitMaps.ClearBitExact | src/chess_engine/board/bitmap.rs:18-20 | `x & !(1 << k)` holds exactly the bits of `x` other than `k` |
| BitMaps.ClearBitAll | src/chess_engine/board/bitmap.rs:18-20 | the same, for every bit at once |
| BitMaps.SetBitAll | src/chess_engine/board/bitmap.rs:14-16 | or-ing `1 << k` into `x` gives exactly `k` and the bits of `x`, for every bit at once |
| BitMaps.XorTwice | src/chess_engine/board/bitmap.rs:79-89 | xor with the same word twice gives the word back |
| BitMaps.BitMap64.Default | src/chess_engine/board/bitmap.rs:5-9 | the default map is empty: no square, count zero |
| BitMaps.BitMap64.New | src/chess_engine/board/bitmap.rs:11-13 | `new` keeps the given bit pattern |
| BitMaps.BitMap64.SetBit | src/chess_engine/board/bitmap.rs:14-16 | `set_bit` adds the square and keeps every other square |
| BitMaps.BitMap64.ClearBit | src/chess_engine/board/bitmap.rs:18-20 | `clear_bit` removes the square and keeps every other square |
| BitMaps.BitMap64.GetBitValue | src/chess_engine/board/bitmap.rs:25-27 | `get_bit_value` is 0 for a clear bit, 1 for a set bit below 63, and -1 (all ones) for a set bit 63, because the `i64` shift copies the sign |
| BitMaps.BitMap64.GetBit | src/chess_engine/board/bitmap.rs:22-24 | `get_bit` holding for some square means the map is not empty (count at least one); what it says square by square is stated on SetBit, ClearBit and Default |
| BitMaps.BitMap64.Contains | src/chess_engine/board/bitmap.rs:28-30 | `contains` holds exactly when `get_bit_value` of the square is non-zero |
| BitMaps.BitMap64.CountOnes | src/chess_engine/board/bitmap.rs:31-33 | `count_ones` is at most 64, and it is zero exactly when the map is empty |
| BitMaps.BitMap64.Shr | src/chess_engine/board/bitmap.rs:35-40 | `>>` shifts LEFT: the low `rhs` squares of the result are empty; ShrMovesUp states what it does to one square |
| BitMaps.BitMap64.Shl | src/chess_engine/board/bitmap.rs:51-56 | `<<` shifts RIGHT arithmetically: square 63 (the sign) of the result is in it exactly when it was in the map; ShlMovesDown and ShlSpreadsSign state what it does to one square |
| BitMaps.ArithShrSign | src/chess_engine/board/bitmap.rs:51-56 | the `i64` arithmetic right shift keeps the sign bit |
| BitMaps.BitMap64.And | src/chess_engine/board/bitmap.rs:57-62 | `&` gives squares lying inside both operands; Bits.BitAnd states it square by square |
| BitMaps.BitMap64.Or | src/chess_engine/board/bitmap.rs:68-73 | `\|` gives a map containing every square of both operands; Bits.BitOr states it square by square |
| BitMaps.BitMap64.Xor | src/chess_engine/board/bitmap.rs:79-84 | `^` gives a map that, xor-ed with the operand again, is the original map; Bits.BitXor states it square by square |
| BitMaps.BitMap64.AndI64 | src/chess_engine/board/bitmap.rs:91-96 | `&` with an `i64` gives squares lying inside both the map and the `i64`'s bits |
| BitMaps.BitMap64.OrI64 | src/chess_engine/board/bitmap.rs:102-107 | `\|` with an `i64` gives a map containing every square of the map and every set bit of the `i64` |
| BitMaps.BitMap64.XorI64 | src/chess_engine/board/bitmap.rs:113-118 | `^` with an `i64` gives a map that, xor-ed with the same `i64` again, is the original map |
| BitMaps.BitMap64.ShrAssign | src/chess_engine/board/bitmap.rs:41-45 | `>>=` stores the arithmetic right shift |
| BitMaps.BitMap64.ShlAssign | src/chess_engine/board/bitmap.rs:46-50 | `<<=` stores the same arithmetic right shift as `>>=` |
| BitMaps.BitMap64.AndAssign | src/chess_engine/board/bitmap.rs:63-67 | `&=` stores what `&` returns |
| BitMaps.BitMap64.OrAssign | src/chess_engine/board/bitmap.rs:74-78 | the or-assignment stores what the bitwise or returns |
| BitMaps.BitMap64.XorAssign | src/chess_engine/board/bitmap.rs:85-89 | `^=` stores what `^` returns |
| BitMaps.BitMap64.AndAssignI64 | src/chess_engine/board/bitmap.rs:97-101 | `&=` with an `i64` stores what `&` with that `i64` returns |
| BitMaps.BitMap64.OrAssignI64 | src/chess_engine/board/bitmap.rs:108-112 | the or-assignment with an `i64` stores what the bitwise or with that `i64` returns |
| BitMaps.BitMap64.XorAssignI64 | src/chess_engine/board/bitmap.rs:119-123 | `^=` with an `i64` stores what `^` with that `i64` returns |
| BitMaps.ShrMovesUp | src/chess_engine/board/bitmap.rs:35-40 | `>>` on a single square moves it up (the implementation shifts left) |
| BitMaps.ShlMovesDown | src/chess_engine/board/bitmap.rs:51-56 | `<<` on a single square below 63 moves it down (the implementation shifts right) |
| BitMaps.ShlSpreadsSign | src/chess_engine/board/bitmap.rs:51-56 | `<<` on square 63 alone fills squares `63 - n`..63 with the sign |
| BitMaps.XorUndoes | src/chess_engine/board/bitmap.rs:79-89 | `^` with the same map twice gives the map back |
| Files.Ordinal | src/chess_engine/board/file.rs:54-83 | a file's ordinal lies in 1..8 |
| Files.FromChar | src/chess_engine/board/file.rs:15-35 | exactly a..h and A..H parse, to the file whose ordinal is the letter's place, and anything else gives "Could not parse c to a file" |
| Files.TryFromI8 | src/chess_engine/board/file.rs:38-53 | exactly 1..8 convert, to the file with that ordinal, and anything else gives "v is not a valid file" |
| Files.OrdinalInjective | src/chess_engine/board/file.rs:54-83 | different files have different ordinals |
| Files.OrdinalRoundTrip | src/chess_engine/board/file.rs:38-83 | converting a file to its ordinal and back gives the file |
| Files.Add | src/chess_engine/board/file.rs:84-92 | `f + g` succeeds exactly when the ordinals sum to at most 8, and then has the sum as its ordinal |
| Files.Sub | src/chess_engine/board/file.rs:93-100 | `f - g` succeeds exactly when `f`'s ordinal is the larger, and then has the difference as its ordinal |
| Files.AddI8 | src/chess_engine/board/file.rs:101-107 | `f + n` succeeds exactly when the sum lies in 1..8, with the sum as its ordinal and the conversion's error text otherwise |
| Files.SubI8 | src/chess_engine/board/file.rs:108-114 | `f - n` succeeds exactly when the difference lies in 1..8, with the difference as its ordinal and the conversion's error text otherwise |
| Files.SubSelf | src/chess_engine/board/file.rs:93-100 | a file minus itself is an error |
| Files.AddToH | src/chess_engine/board/file.rs:84-92 | nothing can be added to H |
| Files.AddAA | src/chess_engine/board/file.rs:84-92 | A + A is B |
| Files.AddZero | src/chess_engine/board/file.rs:101-107 | adding 0 gives the file back |
| Ranks.Ordinal | src/chess_engine/board/rank.rs:29-58 | a rank's ordinal lies in 1..8 |
| Ranks.FromChar | src/chess_engine/board/rank.rs:15-27 | exactly '1'..'8' parse, to the rank with that ordinal, and anything else gives "Could not parse c to a rank" |
| Ranks.TryFromI8 | src/chess_engine/board/rank.rs:59-74 | exactly 1..8 convert, to the rank with that ordinal, and anything else gives "v is not a valid file" (the source's text) |
| Ranks.OrdinalInjective | src/chess_engine/board/rank.rs:29-58 | different ranks have different ordinals |
| Ranks.OrdinalRoundTrip | src/chess_engine/board/rank.rs:29-74 | converting a rank to its ordinal and back gives the rank |
| Ranks.Add | src/chess_engine/board/rank.rs:75-83 | `r + s` succeeds exactly when the ordinals sum to at most 8, and then has the sum as its ordinal |
| Ranks.Sub | src/chess_engine/board/rank.rs:84-91 | `r - s` succeeds exactly when `r`'s ordinal is the larger, and then has the difference as its ordinal |
| Ranks.AddI8 | src/chess_engine/board/rank.rs:92-98 | `r + n` succeeds exactly when the sum lies in 1..8, with the sum as its ordinal and the conversion's error text otherwise |
| Ranks.SubI8 | src/chess_engine/board/rank.rs:99-105 | `r - n` succeeds exactly when the difference lies in 1..8, with the difference as its ordinal and the conversion's error text otherwise |
| Ranks.SubSelf | src/chess_engine/board/rank.rs:84-91 | a rank minus itself is an error |
| Ranks.AddToEight | src/chess_engine/board/rank.rs:75-83 | nothing can be added to rank Eight |
| Ranks.AddZero | src/chess_engine/board/rank.rs:92-98 | adding 0 gives the rank back |
| Positions.Add | src/chess_engine/board/board_position.rs:17-24 | `pos + offset` succeeds exactly when both the rank and the file stay in 1..8, and moves each ordinal by its delta. The rank is checked first, so its error wins when both fail |
| Positions.AddZeroOffset | src/chess_engine/board/board_position.rs:49-56 | the zero offset leaves a position where it is |
| Positions.AddThenNegate | src/chess_engine/board/board_position.rs:17-24 | moving by an offset and then by its negation comes back to the start |
| Positions.Utf8LenAtLeast | src/chess_engine/board/board_position.rs:29-34 | a string has at least as many UTF-8 bytes as characters |
| Positions.FromStr | src/chess_engine/board/board_position.rs:25-48 | `from_str` never reaches its `unreachable!`; more than two bytes is `CharOverflow` and fewer is `CharUnderflow`; it succeeds exactly on two one-byte characters that name a file and a rank, and gives that position; otherwise a two-byte string fails with the `from_char` error text of the file character, or, when that is a file, of the rank character |
| Positions.Name | src/chess_engine/board/board_position.rs:25-48 | a reference definition with no counterpart in the source (which has no function naming a square): a square's name is its file letter then its rank digit, two characters; FromStrName proves `from_str` inverts it |
| Positions.FromStrName | src/chess_engine/board/board_position.rs:25-48 | every square's name parses back to that square |
| Positions.FromStrE4 | src/chess_engine/board/board_position.rs:25-48 | "e4" parses to file E, rank Four |
| Boards.GridsEqual | src/chess_engine/board/board.rs:11-17 | two boards with the same cells are the same board |
| Boards.RankRow | src/chess_engine/board/board.rs:78-92 | indexing by a rank panics with "Rank is bigger than board" exactly for rank Eight, and otherwise reads the row at the rank's ordinal |
| Boards.FileCell | src/chess_engine/board/board.rs:93-107 | indexing a row by a file panics with "File is bigger than board" exactly for file H, and otherwise reads the cell at the file's ordinal |
| Boards.CellAt | src/chess_engine/board/board.rs:124-129 | `board[&pos]` panics exactly on rank Eight or file H, the rank's panic first, and otherwise reads the cell at the two ordinals |
| Boards.CellAtIgnoresRowAndColumnZero | src/chess_engine/board/board.rs:78-129 | row 0 and column 0 are never read: boards that differ only there look the same through every position |
| Boards.CellAtReaches | src/chess_engine/board/board.rs:78-129 | every cell in rows and columns 1..7 is read through the position with those ordinals |
| Boards.FileAt | src/chess_engine/board/file.rs:38-53 | the file with ordinal `j` indexes column `j` |
| Boards.RankAt | src/chess_engine/board/rank.rs:59-74 | the rank with ordinal `i` indexes row `i` |
| Boards.HasPieceIn | src/chess_engine/board/board.rs:20-22 | `has_piece` panics where indexing does, and otherwise answers whether the cell holds a piece |
| Boards.StartGrid | src/chess_engine/board/board.rs:23-56 | the start layout is an 8×8 grid, with the cells that `Board::new` lists |
| Boards.StartLayout | src/chess_engine/board/board.rs:23-56 | black fills rows 0 and 1 and white rows 6 and 7, pawns on rows 1 and 6; rows 2..5 are empty, and row `7 - i` has row `i`'s pieces |
| Boards.StartSeenThroughIndexing | src/chess_engine/board/board.rs:23-56 | through the shifted indexing, d7 reads the white king and a1 reads a black pawn |
| Boards.IntendedRow | src/chess_engine/board/board.rs:78-92 | the corrected row index lies in 0..7 |
| Boards.IntendedColumn | src/chess_engine/board/board.rs:93-107 | the corrected column index lies in 0..7 |
| Boards.IntendedIndexingExact | src/chess_engine/board/board.rs:78-129 | with the corrected indexing every cell of the array belongs to exactly one position |
| Boards.IntendedStartPosition | src/chess_engine/board/board.rs:23-56 | with the corrected indexing the start layout is the usual start position: white on ranks 1-2, black on ranks 7-8, pawns on 2 and 7 |
| Boards.IntendedKingsAndQueen | src/chess_engine/board/board.rs:23-56 | with the corrected indexing the kings start on e1 and e8 and the white queen on d1 |
| Boards.Put | src/chess_engine/board/board.rs:70 | writing a piece into a cell keeps the board 8×8 |
| Boards.MoveToSucceeds | src/chess_engine/board/board.rs:61-76 | `move_to` succeeds exactly when both positions can be indexed and `from` holds a piece of the colour to move |
| Boards.MoveToErrors | src/chess_engine/board/board.rs:61-68 | the failures come in the source's order: the panic of indexing `from`, then "There is no piece on that place", then "Not your piece" |
| Boards.MoveToFailureUnchanged | src/chess_engine/board/board.rs:61-76 | a `move_to` that fails or panics changes neither the cells nor the turn |
| Boards.MoveToSuccessState | src/chess_engine/board/board.rs:61-76 | after a successful move `to` holds the moved piece, every other position (`from` too) is unchanged, and the turn is the other colour's |
| Boards.TwoMovesRestoreTurn | src/chess_engine/board/board.rs:71-74 | two successful moves give the turn back to the colour that began |
| Boards.MovePieceIsMoveTo | src/chess_engine/board/board.rs:57-60 | an offset that leaves the board returns `Err` carrying exactly the text of `from + offset`'s error and leaves the board unchanged; any other offset is `move_to` to the target |
| Boards.Board.State | src/chess_engine/board/board.rs:14-17 | the board's value holds its 8×8 cells and its turn |
| Boards.Board.New | src/chess_engine/board/board.rs:23-56 | `Board::new` holds the start layout, with white to move |
| Boards.Board.At | src/chess_engine/board/board.rs:124-129 | reading a position agrees with `CellAt` on the board's value |
| Boards.Board.HasPiece | src/chess_engine/board/board.rs:20-22 | `has_piece` agrees with `HasPieceIn` on the board's value |
| Boards.Board.MoveTo | src/chess_engine/board/board.rs:61-76 | the result and the new cells and turn are those of `MoveToSpec` on the old board |
| Boards.Board.MovePiece | src/chess_engine/board/board.rs:57-60 | the result and the new cells and turn are those of `MovePieceSpec` on the old board |
| Pieces.ShiftExact | src/chess_engine/pieces/king.rs:28 | `pos + offset` reaches `t` exactly when `t`'s ordinals are `pos`'s moved by the offset |
| Pieces.Targets | src/chess_engine/pieces/king.rs:26-36 | there are at most as many targets as offsets |
| Pieces.Step | src/chess_engine/pieces/king.rs:28 | one offset gives at most one target |
| Pieces.TargetsExact | src/chess_engine/pieces/king.rs:26-36 | a position is a target exactly when some offset of the table leads there |
| Pieces.SmallOffsetsNoOverflow | src/chess_engine/board/board_position.rs:49-56 | every offset of a table within ±100 (the king's stays within 1, the knight's within 3) meets the `i8` no-overflow requirement of `pos + offset` from every position |
| Pieces.TargetsAppend | src/chess_engine/pieces/king.rs:26-36 | targets keep table order: two tables in a row give the first table's targets, then the second's |
| Pieces.TargetsAvoidStart | src/chess_engine/pieces/king.rs:4-13 | a table without the zero offset never targets the starting square |
| Pieces.OptionsSkip | src/chess_engine/pieces/king.rs:28-35 | an offset that leaves the board adds nothing to the list |
| Pieces.DescribesCons | src/chess_engine/pieces/king.rs:29-34 | one more target in front of a described list gives a described list: the panic of `has_piece` on that target comes first, if any |
| Pieces.OptionsExact | src/chess_engine/pieces/king.rs:26-36 | the list panics exactly when a target cannot be indexed, with the indexing message of the first such target in table order; otherwise it has one action per target in order, a `Take` exactly where there is a piece |
| Pieces.OptionsBound | src/chess_engine/pieces/king.rs:26-36 | a move list is no longer than the offset table |
| Kings.PotentialMovesShape | src/chess_engine/pieces/king.rs:4-13 | the table has eight nonzero offsets |
| Kings.MovementOptions | src/chess_engine/pieces/king.rs:17-40 | the king's list is described by the table's targets; it has at most eight actions and never targets the king's own square |
| Kings.ColourIgnored | src/chess_engine/pieces/king.rs:20 | the colour argument does not change the list |
| Kings.OffsetReachesNeighbour | src/chess_engine/pieces/king.rs:4-13 | every offset of the table leads to a neighbouring square |
| Kings.NeighbourReachedByOffset | src/chess_engine/pieces/king.rs:4-13 | every neighbouring square is reached by some offset of the table |
| Kings.TargetsAreNeighbours | src/chess_engine/pieces/king.rs:17-40 | the king's targets are exactly the on-board squares next to it |
| Kings.PanicsNextToFileH | src/chess_engine/pieces/king.rs:30-33 | from g1 the list cannot be built: `has_piece` on h1 panics with "File is bigger than board" |
| Knights.Jumps | src/chess_engine/pieces/knight.rs:4-13 | the table pattern for a one-by-`n` jump has eight small offsets |
| Knights.PotentialMovesShape | src/chess_engine/pieces/knight.rs:4-13 | the table has eight nonzero offsets |
| Knights.PotentialMovesAreLongJumps | src/chess_engine/pieces/knight.rs:4-13 | the table is the one-by-three pattern |
| Knights.MovementOptions | src/chess_engine/pieces/knight.rs:17-37 | the knight's list (as written) is described by the table's targets; it has at most eight actions and never targets the knight's own square |
| Knights.ColourIgnored | src/chess_engine/pieces/knight.rs:20 | the colour argument does not change the list |
| Knights.OffsetReachesJump | src/chess_engine/pieces/knight.rs:4-13 | every offset of a one-by-`n` table leads one square one way and `n` the other |
| Knights.JumpReachedByOffset | src/chess_engine/pieces/knight.rs:4-13 | every on-board square one by `n` away is reached by some offset of the table |
| Knights.TargetsAreJumps | src/chess_engine/pieces/knight.rs:17-37 | the targets of the one-by-`n` table are exactly the on-board squares one by `n` away |
| Knights.TargetsAreLongJumps | src/chess_engine/pieces/knight.rs:4-37 | as written, the targets are exactly the on-board squares one by three away |
| Knights.AsWrittenReachesE2FromB1 | src/chess_engine/pieces/knight.rs:4-13 | as written, e2 is a target from b1, although no knight jump leads there |
| Knights.CorrectedOptions | src/chess_engine/pieces/knight.rs:17-37 | with the knight's offsets, the list is described by the targets of the one-by-two table, with at most eight actions |
| Knights.CorrectedTargetsAreKnightJumps | src/chess_engine/pieces/knight.rs:4-37 | with the knight's offsets, the targets are exactly the on-board squares a knight's jump away |
| Histories.History.Default | src/chess_engine/history/mod.rs:5-6 | the default history is empty |
| Histories.History.Add | src/chess_engine/history/mod.rs:8-10 | `add` appends the action at the end and keeps every earlier entry where it was |
| Histories.History.Iterate | src/chess_engine/history/mod.rs:13-19 | iterating over `&history` yields the entries, oldest first |

## Left out

- The text `build.rs` writes is not modelled: the `format!` of each table, `println!`, `OUT_DIR` and `fs::write`. The tables are modelled as 64-entry sequences of mask pairs (`Tables`).
- The generated tables write each mask as an `i64` binary literal. Masks with bit 63 set (the rook's table from square 7, for example) do not fit that literal; the model does not reach the Rust compiler.
- The `Display` implementations of `Board`, `BoardRank` and the errors are not modelled (text formatting only).
- `move_to` calls `piece.get_movement_options(self)` (board.rs:69) with one argument and drops the result. Neither board.rs nor pieces/mod.rs defines `Piece` or such a method, and none of the `get_movement_options` definitions (king.rs:17, knight.rs:17, bishop.rs:13, queen.rs:17, rook.rs:13, pawn.rs:11) takes `self`: the king's, knight's, bishop's and queen's take a position, a board and a colour, the rook's a piece, a position, a board and a colour, and the pawn's a position, a board and a piece. So this call is not modelled. If it dispatched to the king's list, it would panic for a king next to file H (see `Kings.PanicsNextToFileH`).
- `move_to` compares `a.color == self.turn` (board.rs:65), but `Color` derives only `Debug`, `Clone` and `Copy` (pieces/mod.rs:38), with no `PartialEq`, so that comparison would not compile as written. The model compares the colours as values.
- The rook, bishop, queen and pawn piece files, the action types under `board/actions`, `actions`, the Bevy front end, `main.rs` and the Python asset scripts are not part of this model.
- Files.AddI8: an `i8` sum that overflows panics in a debug build. This is a precondition here rather than a modelled panic. The same holds for Files.SubI8, Ranks.AddI8 and Ranks.SubI8.
- Positions.Add: requires that the `i8` additions do not overflow (the same debug panic). Its error is `Error.Message` with the conversion's text. The source's `?` needs a `From<String> for Error` that does not exist.
- Positions.FromStr: the source calls `File::try_from(char)` and `Rank::try_from(char)`, which the repository does not define next to `from_char`; the model uses `from_char`. The source's `BoardPositionError` is not defined in errors/mod.rs; `ParsingError`'s `CharOverflow`/`CharUnderflow` are used.
- Boards.Board.MovePiece: `move_piece` turns an `Error` back into a `String` with `?`, and no such conversion exists either; the model passes the text on. It also requires `NoOverflow(from, off)`, inherited from Positions.Add: an offset whose `i8` addition overflows panics in a debug build of `from.clone() + to` (board.rs:58), and that panic is not modelled. Boards.MovePieceSpec and Boards.MovePieceIsMoveTo carry the same precondition.
- BitMaps.BitMap64.And, Or, Xor, AndI64, OrI64, XorI64: state containment (And, Or) and the undoing xor (Xor) on the bit pattern they return, not the square-by-square meaning, which Bits.BitAnd, Bits.BitOr and Bits.BitXor state; a square-by-square `ensures` on the class made the proofs too large. Each of these impls declares `type Output = Self` on `&BitMap64` (bitmap.rs:58, 69, 80, 92, 103, 114) while its body returns an owned `BitMap64`, which would not compile as written; the model returns the bit pattern.
- BitMaps.BitMap64.Shr, Shl: state only the emptied low squares (Shr) and the kept sign (Shl) on the class; what they do to single squares is stated by ShrMovesUp, ShlMovesDown and ShlSpreadsSign. The source's `Output = Self` on `&BitMap64` (bitmap.rs:36, 52) would not compile as written, since the body returns an owned `BitMap64`; the model returns the bit pattern.
- Bit positions and shift amounts are restricted to 0..63 (`Bits.Index`). A Rust shift by 64 or more, or by a negative `i64`, panics in a debug build; that panic is not modelled.
- `History` stores `Box<dyn Action>`; the model's entries are of an arbitrary type `A`. The iterator is modelled by the sequence it yields, not as a lazy iterator.
- `Piece` is modelled by its kind and colour only.
- Kings.MovementOptions and Knights.MovementOptions: the board argument is modelled by its cells (`Grid`), the only part the list reads.

## Findings

| source | as written | input that shows it | evidently intended | confidence | as-written member | corrected member |
|---|---|---|---|---|---|---|
| build.rs:241 | `assert!(square <= 64 && square / 8 != 0)` admits square 64 | `black_pawn_moves(64)` passes the assertion and returns a move to square 56 and an attack on 57 for a square that is not on the board | `square < 64`, as in `white_pawn_moves` | not executed; high (the table loop only calls squares 8..63) | MoveTables.BlackPawnMoves, MoveTables.BlackPawnMasksOffBoard | MoveTables.BlackPawnMovesChecked |
| src/chess_engine/pieces/knight.rs:4-13 | the offsets are one square by three: (±1, ±3) and (±3, ±1) | from b1 the list offers e2, three files away | the knight's jumps, one square by two | not executed; high | Knights.MovementOptions, Knights.TargetsAreLongJumps, Knights.AsWrittenReachesE2FromB1 | Knights.CorrectedOptions, Knights.CorrectedTargetsAreKnightJumps |
| src/chess_engine/board/board.rs:78-123 | a rank's or a file's ordinal 1..8 is used directly as the index into 8 rows or cells | `board[&pos]` for h1 panics with "File is bigger than board", for a8 with "Rank is bigger than board"; on the start board d7 reads the white king | index by ordinal minus one (file a..h to columns 0..7; rank 8..1 to rows 0..7, which puts white on ranks 1 and 2) | not executed; high for the off-by-one, medium for the direction of the ranks | Boards.CellAt, Boards.CellAtIgnoresRowAndColumnZero, Boards.StartSeenThroughIndexing | Boards.IntendedIndexingExact, Boards.IntendedStartPosition, Boards.IntendedKingsAndQueen |
