/** `BoardPosition` (board/board_position.rs): a file and a rank, moved by a
    `MoveOffset` and parsed from two characters such as "e4". */
module Positions {
  import opened Types
  import Files
  import Ranks

  /** `BoardPosition::new(file, rank)` is this constructor. */
  datatype BoardPosition = BoardPosition(file: Files.File, rank: Ranks.Rank)

  /** The `i8` additions of `pos + offset` do not overflow. */
  predicate NoOverflow(pos: BoardPosition, off: MoveOffset) {
    -128 <= Ranks.Ordinal(pos.rank) as int + off.rankDelta as int < 128 &&
    -128 <= Files.Ordinal(pos.file) as int + off.fileDelta as int < 128
  }

  /** The ordinal `n` is that of a file or a rank. */
  predicate OnBoard(n: int) {
    1 <= n <= 8
  }

  /** `pos + offset` (owned and by reference): the rank delta moves the rank,
      the file delta the file. The rank is moved first, so when both fail the
      rank's error is the one reported. */
  function Add(pos: BoardPosition, off: MoveOffset): (r: Result<BoardPosition, Error>)
    requires NoOverflow(pos, off)
    ensures r.Ok? <==> OnBoard(Ranks.Ordinal(pos.rank) as int + off.rankDelta as int) &&
                       OnBoard(Files.Ordinal(pos.file) as int + off.fileDelta as int)
    ensures r.Ok? ==> Ranks.Ordinal(r.value.rank) as int == Ranks.Ordinal(pos.rank) as int + off.rankDelta as int
    ensures r.Ok? ==> Files.Ordinal(r.value.file) as int == Files.Ordinal(pos.file) as int + off.fileDelta as int
    ensures !OnBoard(Ranks.Ordinal(pos.rank) as int + off.rankDelta as int) ==>
              r == Err(Message(DecimalString(Ranks.Ordinal(pos.rank) as int + off.rankDelta as int) + " is not a valid file"))
    ensures OnBoard(Ranks.Ordinal(pos.rank) as int + off.rankDelta as int) &&
            !OnBoard(Files.Ordinal(pos.file) as int + off.fileDelta as int) ==>
              r == Err(Message(DecimalString(Files.Ordinal(pos.file) as int + off.fileDelta as int) + " is not a valid file"))
  {
    match Ranks.AddI8(pos.rank, off.rankDelta)
    case Err(e) => Err(Message(e))
    case Ok(rank) =>
      match Files.AddI8(pos.file, off.fileDelta)
      case Err(e) => Err(Message(e))
      case Ok(file) => Ok(BoardPosition(file, rank))
  }

  /** The zero offset leaves a position where it is. */
  lemma AddZeroOffset(pos: BoardPosition)
    ensures Add(pos, MoveOffset(0, 0)) == Ok(pos)
  {
    Ranks.AddZero(pos.rank);
    Files.AddZero(pos.file);
  }

  /** Moving by an offset and then by its negation comes back. */
  lemma AddThenNegate(pos: BoardPosition, off: MoveOffset)
    requires NoOverflow(pos, off)
    requires off.rankDelta != -128 && off.fileDelta != -128
    requires Add(pos, off).Ok?
    ensures NoOverflow(Add(pos, off).value, MoveOffset(-off.rankDelta, -off.fileDelta))
    ensures Add(Add(pos, off).value, MoveOffset(-off.rankDelta, -off.fileDelta)) == Ok(pos)
  {
    var q := Add(pos, off).value;
    var back := Add(q, MoveOffset(-off.rankDelta, -off.fileDelta));
    Ranks.OrdinalInjective(back.value.rank, pos.rank);
    Files.OrdinalInjective(back.value.file, pos.file);
  }

  /** The number of bytes UTF-8 uses for `c`. */
  function Utf8Width(c: char): nat {
    if c as int < 0x80 then 1
    else if c as int < 0x800 then 2
    else if c as int < 0x1_0000 then 3
    else 4
  }

  /** `str::len`: the length of `s` in UTF-8 bytes. */
  function Utf8Len(s: string): nat {
    if |s| == 0 then 0 else Utf8Width(s[0]) + Utf8Len(s[1..])
  }

  /** Every character takes at least one byte. */
  lemma {:induction false} Utf8LenAtLeast(s: string)
    ensures Utf8Len(s) >= |s|
    decreases |s|
  {
    if |s| > 0 {
      Utf8LenAtLeast(s[1..]);
    }
  }

  const Unreachable := "internal error: entered unreachable code: we already checked for this above"

  /** `BoardPosition::from_str`. The length checks count bytes, so two bytes
      may be a single character; the file conversion rejects every such
      character before the second `next()` could find nothing, and the
      `unreachable!` is never reached. The conversions call `from_char`. */
  function FromStr(s: string): (r: Outcome<Result<BoardPosition, Error>>)
    ensures r.Value?
    ensures Utf8Len(s) > 2 ==> r.value == Err(Parsing(CharOverflow))
    ensures Utf8Len(s) < 2 ==> r.value == Err(Parsing(CharUnderflow))
    ensures r.value.Ok? <==> Utf8Len(s) == 2 && |s| == 2 && Files.FromChar(s[0]).Ok? && Ranks.FromChar(s[1]).Ok?
    ensures r.value.Ok? ==> r.value.value == BoardPosition(Files.FromChar(s[0]).value, Ranks.FromChar(s[1]).value)
    ensures Utf8Len(s) == 2 && Files.FromChar(s[0]).Err? ==> r.value == Err(Message(Files.FromChar(s[0]).error))
    ensures Utf8Len(s) == 2 && |s| == 2 && Files.FromChar(s[0]).Ok? && Ranks.FromChar(s[1]).Err? ==>
              r.value == Err(Message(Ranks.FromChar(s[1]).error))
  {
    Utf8LenAtLeast(s);
    if Utf8Len(s) > 2 then Value(Err(Parsing(CharOverflow)))
    else if Utf8Len(s) < 2 then Value(Err(Parsing(CharUnderflow)))
    else
      match Files.FromChar(s[0])
      case Err(e) => Value(Err(Message(e)))
      case Ok(file) =>
        if |s| < 2 then Panic(Unreachable)
        else
          match Ranks.FromChar(s[1])
          case Err(e) => Value(Err(Message(e)))
          case Ok(rank) => Value(Ok(BoardPosition(file, rank)))
  }

  /** The usual name of a square: lower-case file letter, then rank digit. */
  function Name(pos: BoardPosition): (s: string)
    ensures |s| == 2
  {
    [('a' as int + Files.Ordinal(pos.file) as int - 1) as char,
     ('0' as int + Ranks.Ordinal(pos.rank) as int) as char]
  }

  /** Every square's name parses back to that square. */
  lemma FromStrName(pos: BoardPosition)
    ensures FromStr(Name(pos)) == Value(Ok(pos))
  {
    var s := Name(pos);
    assert Utf8Len(s) == 2 by {
      assert Utf8Len(s[1..][1..]) == 0;
      assert Utf8Len(s[1..]) == Utf8Width(s[1]) + Utf8Len(s[1..][1..]);
      assert Utf8Len(s) == Utf8Width(s[0]) + Utf8Len(s[1..]);
    }
    Files.OrdinalInjective(Files.FromChar(s[0]).value, pos.file);
    Ranks.OrdinalInjective(Ranks.FromChar(s[1]).value, pos.rank);
  }

  lemma FromStrE4()
    ensures FromStr("e4") == Value(Ok(BoardPosition(Files.E, Ranks.Four)))
  {
    FromStrName(BoardPosition(Files.E, Ranks.Four));
    assert Name(BoardPosition(Files.E, Ranks.Four)) == "e4";
  }
}
