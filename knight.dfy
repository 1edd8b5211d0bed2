/** The knight's move list (pieces/knight.rs). The table's offsets are one
    square by three, not one by two: the list holds long jumps a knight
    cannot make. `CorrectedOptions` uses the knight's real jumps. */
module Knights {
  import opened Types
  import Files
  import Ranks
  import opened Positions
  import opened Boards
  import opened Pieces

  /** `POTENTIAL_MOVES`, as (rank, file) offsets. */
  const PotentialMoves: seq<(i8, i8)> :=
    [(-1, 3), (1, -3), (1, 3), (-1, -3), (3, 1), (3, -1), (-3, 1), (-3, -1)]

  /** The table's pattern for jumps of one square by `n`. */
  function Jumps(n: i8): (offsets: seq<(i8, i8)>)
    requires 1 <= n <= 3
    ensures |offsets| == 8 && SmallOffsets(offsets)
  {
    [(-1, n), (1, -n), (1, n), (-1, -n), (n, 1), (n, -1), (-n, 1), (-n, -1)]
  }

  /** The offsets of a knight: one square by two. */
  const CorrectedMoves: seq<(i8, i8)> := Jumps(2)

  lemma PotentialMovesShape()
    ensures |PotentialMoves| == 8 && SmallOffsets(PotentialMoves)
    ensures forall k :: 0 <= k < |PotentialMoves| ==> PotentialMoves[k] != (0, 0)
  {}

  lemma PotentialMovesAreLongJumps()
    ensures PotentialMoves == Jumps(3)
  {}

  /** `Knight::get_movement_options(pos, board, _)`: the colour argument is
      not used. */
  function MovementOptions(pos: BoardPosition, g: Grid, color: Color): (r: Outcome<seq<Action>>)
    requires IsGrid(g)
    ensures Describes(r, g, Targets(pos, PotentialMoves))
    ensures r.Value? ==> |r.value| <= 8
    ensures r.Value? ==> forall i :: 0 <= i < |r.value| ==> r.value[i].target != pos
  {
    PotentialMovesShape();
    OptionsExact(pos, g, PotentialMoves);
    TargetsAvoidStart(pos, PotentialMoves);
    Options(pos, g, PotentialMoves)
  }

  lemma ColourIgnored(pos: BoardPosition, g: Grid)
    requires IsGrid(g)
    ensures MovementOptions(pos, g, Black) == MovementOptions(pos, g, White)
  {}

  function Abs(x: int): int {
    if x < 0 then -x else x
  }

  /** `t` is one square from `pos` one way and `n` squares the other way. */
  predicate Jump(pos: BoardPosition, t: BoardPosition, n: int) {
    var dr := Abs(Ranks.Ordinal(t.rank) as int - Ranks.Ordinal(pos.rank) as int);
    var df := Abs(Files.Ordinal(t.file) as int - Files.Ordinal(pos.file) as int);
    (dr == 1 && df == n) || (dr == n && df == 1)
  }

  lemma OffsetReachesJump(pos: BoardPosition, t: BoardPosition, n: i8, k: int)
    requires 1 <= n <= 3 && 0 <= k < 8
    requires Shift(pos, Jumps(n)[k]) == Ok(t)
    ensures Jump(pos, t, n as int)
  {
    ShiftExact(pos, Jumps(n)[k], t);
  }

  lemma JumpReachedByOffset(pos: BoardPosition, t: BoardPosition, n: i8) returns (k: int)
    requires 2 <= n <= 3 && Jump(pos, t, n as int)
    ensures 0 <= k < 8 && Shift(pos, Jumps(n)[k]) == Ok(t)
  {
    var dr := Ranks.Ordinal(t.rank) as int - Ranks.Ordinal(pos.rank) as int;
    var df := Files.Ordinal(t.file) as int - Files.Ordinal(pos.file) as int;
    k := if dr == -1 then (if df > 0 then 0 else 3)
         else if dr == 1 then (if df > 0 then 2 else 1)
         else if dr > 0 then (if df == 1 then 4 else 5)
         else (if df == 1 then 6 else 7);
    ShiftExact(pos, Jumps(n)[k], t);
  }

  /** The targets of the jump table for `n` are exactly the on-board squares
      one by `n` away. */
  lemma {:induction false} TargetsAreJumps(pos: BoardPosition, t: BoardPosition, n: i8)
    requires 2 <= n <= 3
    ensures t in Targets(pos, Jumps(n)) <==> Jump(pos, t, n as int)
  {
    TargetsExact(pos, Jumps(n), t);
    if t in Targets(pos, Jumps(n)) {
      var k :| 0 <= k < |Jumps(n)| && Shift(pos, Jumps(n)[k]) == Ok(t);
      OffsetReachesJump(pos, t, n, k);
    }
    if Jump(pos, t, n as int) {
      var k := JumpReachedByOffset(pos, t, n);
    }
  }

  /** As written, the targets are exactly the on-board squares one by three
      away. */
  lemma TargetsAreLongJumps(pos: BoardPosition, t: BoardPosition)
    ensures SmallOffsets(PotentialMoves)
    ensures t in Targets(pos, PotentialMoves) <==> Jump(pos, t, 3)
  {
    PotentialMovesAreLongJumps();
    TargetsAreJumps(pos, t, 3);
  }

  /** As written: from b1 the list offers e2, three files away, a square no
      knight on b1 attacks. */
  lemma AsWrittenReachesE2FromB1()
    ensures BoardPosition(Files.E, Ranks.Two) in Targets(BoardPosition(Files.B, Ranks.One), PotentialMoves)
    ensures !Jump(BoardPosition(Files.B, Ranks.One), BoardPosition(Files.E, Ranks.Two), 2)
  {
    PotentialMovesAreLongJumps();
    TargetsAreJumps(BoardPosition(Files.B, Ranks.One), BoardPosition(Files.E, Ranks.Two), 3);
  }

  /** The move list over the knight's own offsets. */
  function CorrectedOptions(pos: BoardPosition, g: Grid, color: Color): (r: Outcome<seq<Action>>)
    requires IsGrid(g)
    ensures SmallOffsets(CorrectedMoves)
    ensures Describes(r, g, Targets(pos, CorrectedMoves))
    ensures r.Value? ==> |r.value| <= 8
  {
    OptionsExact(pos, g, CorrectedMoves);
    Options(pos, g, CorrectedMoves)
  }

  /** With the knight's own offsets every target is a knight's jump away,
      and every on-board square a knight's jump away is a target. */
  lemma CorrectedTargetsAreKnightJumps(pos: BoardPosition, t: BoardPosition)
    ensures SmallOffsets(CorrectedMoves)
    ensures t in Targets(pos, CorrectedMoves) <==> Jump(pos, t, 2)
  {
    TargetsAreJumps(pos, t, 2);
  }
}
