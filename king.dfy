/** The king's move list (pieces/king.rs). */
module Kings {
  import opened Types
  import Files
  import Ranks
  import opened Positions
  import opened Boards
  import opened Pieces

  /** `POTENTIAL_MOVES`: the eight neighbouring squares as (rank, file)
      offsets. */
  const PotentialMoves: seq<(i8, i8)> :=
    [(-1, -1), (-1, 0), (-1, 1), (0, -1), (0, 1), (1, -1), (1, 0), (1, 1)]

  lemma PotentialMovesShape()
    ensures |PotentialMoves| == 8 && SmallOffsets(PotentialMoves)
    ensures forall k :: 0 <= k < |PotentialMoves| ==> PotentialMoves[k] != (0, 0)
  {}

  /** `King::get_movement_options(pos, board, _)`: the colour argument is
      not used. */
  function MovementOptions(pos: BoardPosition, g: Grid, color: Color): (r: Outcome<seq<Action>>)
    requires IsGrid(g)
    ensures Describes(r, g, Targets(pos, PotentialMoves))
    ensures r.Value? ==> |r.value| <= 8
    ensures r.Value? ==> forall i :: 0 <= i < |r.value| ==> r.value[i].target != pos
  {
    PotentialMovesShape();
    OptionsExact(pos, g, PotentialMoves);
    TargetsAvoidStart(pos, PotentialMoves);
    Options(pos, g, PotentialMoves)
  }

  lemma ColourIgnored(pos: BoardPosition, g: Grid)
    requires IsGrid(g)
    ensures MovementOptions(pos, g, Black) == MovementOptions(pos, g, White)
  {}

  /** The difference of two ordinals. */
  function Delta(a: i8, b: i8): int {
    a as int - b as int
  }

  /** Next to `pos`: a different square at most one rank and one file away. */
  predicate Neighbour(pos: BoardPosition, t: BoardPosition) {
    t != pos &&
    -1 <= Delta(Ranks.Ordinal(t.rank), Ranks.Ordinal(pos.rank)) <= 1 &&
    -1 <= Delta(Files.Ordinal(t.file), Files.Ordinal(pos.file)) <= 1
  }

  lemma OffsetReachesNeighbour(pos: BoardPosition, t: BoardPosition, k: int)
    requires 0 <= k < 8
    requires Shift(pos, PotentialMoves[k]) == Ok(t)
    ensures Neighbour(pos, t)
  {
    ShiftExact(pos, PotentialMoves[k], t);
  }

  lemma NeighbourReachedByOffset(pos: BoardPosition, t: BoardPosition) returns (k: int)
    requires Neighbour(pos, t)
    ensures 0 <= k < 8 && Shift(pos, PotentialMoves[k]) == Ok(t)
  {
    var dr := Delta(Ranks.Ordinal(t.rank), Ranks.Ordinal(pos.rank));
    var df := Delta(Files.Ordinal(t.file), Files.Ordinal(pos.file));
    if dr == 0 && df == 0 {
      Ranks.OrdinalInjective(t.rank, pos.rank);
      Files.OrdinalInjective(t.file, pos.file);
    }
    k := if dr == -1 then df + 1 else if dr == 0 then (if df == -1 then 3 else 4) else df + 6;
    ShiftExact(pos, PotentialMoves[k], t);
  }

  /** The targets are exactly the on-board squares next to `pos`. */
  lemma TargetsAreNeighbours(pos: BoardPosition, t: BoardPosition)
    ensures SmallOffsets(PotentialMoves)
    ensures t in Targets(pos, PotentialMoves) <==> Neighbour(pos, t)
  {
    PotentialMovesShape();
    TargetsExact(pos, PotentialMoves, t);
    if t in Targets(pos, PotentialMoves) {
      var k :| 0 <= k < |PotentialMoves| && Shift(pos, PotentialMoves[k]) == Ok(t);
      OffsetReachesNeighbour(pos, t, k);
    }
    if Neighbour(pos, t) {
      var k := NeighbourReachedByOffset(pos, t);
    }
  }

  /** On file G the first target on file H makes `has_piece` panic: from g1
      the list cannot be built. */
  lemma PanicsNextToFileH(g: Grid)
    requires IsGrid(g)
    ensures MovementOptions(BoardPosition(Files.G, Ranks.One), g, White) == Panic(FilePanic)
  {}
}
