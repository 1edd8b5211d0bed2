/** What king.rs and knight.rs share: a fixed table of (rank, file) offsets
    is mapped through `BoardPosition + MoveOffset`, the offsets that leave the
    board are dropped, and each remaining target becomes `Take` when the board
    has a piece there and `MoveTo` otherwise. */
module Pieces {
  import opened Types
  import Files
  import Ranks
  import opened Positions
  import opened Boards

  /** The two actions the move lists build. */
  datatype Action = Take(target: BoardPosition) | MoveTo(target: BoardPosition)

  /** Offsets small enough that `pos + offset` never overflows an `i8`, from
      any position: an ordinal is 1..8, so any bound up to 119 would do. The
      king's table stays within 1, the knight's within 3 (2 once corrected). */
  predicate SmallOffsets(offsets: seq<(i8, i8)>) {
    forall k :: 0 <= k < |offsets| ==> -100 <= offsets[k].0 <= 100 && -100 <= offsets[k].1 <= 100
  }

  /** Every offset of a small table meets the `i8` requirement of `pos + offset`. */
  lemma SmallOffsetsNoOverflow(pos: BoardPosition, offsets: seq<(i8, i8)>, k: int)
    requires SmallOffsets(offsets) && 0 <= k < |offsets|
    ensures NoOverflow(pos, OffsetFrom(offsets[k]))
  {}

  /** `pos + MoveOffset::from(v)`. */
  function Shift(pos: BoardPosition, v: (i8, i8)): Result<BoardPosition, Error>
    requires -100 <= v.0 <= 100 && -100 <= v.1 <= 100
  {
    Add(pos, OffsetFrom(v))
  }

  /** `pos + v` reaches `t` exactly when the ordinals differ by `v`. */
  lemma ShiftExact(pos: BoardPosition, v: (i8, i8), t: BoardPosition)
    requires -100 <= v.0 <= 100 && -100 <= v.1 <= 100
    ensures Shift(pos, v) == Ok(t) <==>
              Ranks.Ordinal(t.rank) as int == Ranks.Ordinal(pos.rank) as int + v.0 as int &&
              Files.Ordinal(t.file) as int == Files.Ordinal(pos.file) as int + v.1 as int
  {
    var r := Shift(pos, v);
    if r.Ok? {
      Ranks.OrdinalInjective(r.value.rank, t.rank);
      Files.OrdinalInjective(r.value.file, t.file);
    }
  }

  /** The targets of the offsets that stay on the board, in table order. */
  function Targets(pos: BoardPosition, offsets: seq<(i8, i8)>): (ts: seq<BoardPosition>)
    requires SmallOffsets(offsets)
    ensures |ts| <= |offsets|
    decreases |offsets|
  {
    if offsets == [] then [] else Step(pos, offsets[0]) + Targets(pos, offsets[1..])
  }

  /** The target of one offset, if it stays on the board. */
  function Step(pos: BoardPosition, v: (i8, i8)): (ts: seq<BoardPosition>)
    requires -100 <= v.0 <= 100 && -100 <= v.1 <= 100
    ensures |ts| <= 1
  {
    match Shift(pos, v)
    case Ok(t) => [t]
    case Err(_) => []
  }

  /** A position `has_piece` cannot index: it panics there. */
  predicate Unindexable(t: BoardPosition) {
    t.rank == Ranks.Eight || t.file == Files.H
  }

  /** `ts[i]` is the first target, in table order, that cannot be indexed. */
  predicate FirstUnindexable(ts: seq<BoardPosition>, i: int)
    requires 0 <= i < |ts|
  {
    Unindexable(ts[i]) && forall k :: 0 <= k < i ==> !Unindexable(ts[k])
  }

  /** The iterator chain of `get_movement_options`: elements are produced in
      table order, each by `pos + offset`, `.ok()` and, for a target,
      `has_piece`; the first panic ends the whole computation. */
  function Options(pos: BoardPosition, g: Grid, offsets: seq<(i8, i8)>): Outcome<seq<Action>>
    requires IsGrid(g) && SmallOffsets(offsets)
    decreases |offsets|
  {
    if offsets == [] then Value([])
    else
      var step: Outcome<Option<Action>> :=
        match Shift(pos, offsets[0])
        case Err(_) => Value(None)
        case Ok(t) =>
          match HasPieceIn(g, t)
          case Panic(m) => Panic(m)
          case Value(occupied) => Value(Some(if occupied then Take(t) else MoveTo(t)));
      match step
      case Panic(m) => Panic(m)
      case Value(a) =>
        match Options(pos, g, offsets[1..])
        case Panic(m) => Panic(m)
        case Value(rest) => Value((if a.Some? then [a.value] else []) + rest)
  }

  /** A position is a target exactly when some offset of the table leads
      there. */
  lemma {:induction false} TargetsExact(pos: BoardPosition, offsets: seq<(i8, i8)>, t: BoardPosition)
    requires SmallOffsets(offsets)
    ensures t in Targets(pos, offsets) <==> exists k :: 0 <= k < |offsets| && Shift(pos, offsets[k]) == Ok(t)
    decreases |offsets|
  {
    if offsets != [] {
      var rest := offsets[1..];
      TargetsExact(pos, rest, t);
      assert forall k :: 0 <= k < |rest| ==> rest[k] == offsets[k + 1];
      assert t in Step(pos, offsets[0]) <==> Shift(pos, offsets[0]) == Ok(t);
      if exists k :: 0 <= k < |offsets| && Shift(pos, offsets[k]) == Ok(t) {
        var k :| 0 <= k < |offsets| && Shift(pos, offsets[k]) == Ok(t);
        if k > 0 {
          assert Shift(pos, rest[k - 1]) == Ok(t);
        }
      }
    }
  }

  /** Two tables of small offsets, one after the other, are small. */
  lemma AppendSmall(a: seq<(i8, i8)>, b: seq<(i8, i8)>)
    requires SmallOffsets(a) && SmallOffsets(b)
    ensures SmallOffsets(a + b)
  {}

  /** Table order is kept: the targets of two tables one after the other are
      the targets of the first followed by those of the second. */
  lemma {:induction false} TargetsAppend(pos: BoardPosition, a: seq<(i8, i8)>, b: seq<(i8, i8)>)
    requires SmallOffsets(a) && SmallOffsets(b)
    ensures SmallOffsets(a + b)
    ensures Targets(pos, a + b) == Targets(pos, a) + Targets(pos, b)
    decreases |a|
  {
    if a != [] {
      var ab, tail := a + b, a[1..];
      AppendSmall(a, b);
      AppendSmall(tail, b);
      assert ab[0] == a[0];
      assert ab[1..] == tail + b;
      TargetsAppend(pos, tail, b);
      var head := Step(pos, a[0]);
      assert Targets(pos, ab) == head + Targets(pos, tail + b);
      assert Targets(pos, a) == head + Targets(pos, tail);
    } else {
      AppendSmall(a, b);
      assert a + b == b;
    }
  }

  /** With no zero offset in the table, no target is the starting square. */
  lemma TargetsAvoidStart(pos: BoardPosition, offsets: seq<(i8, i8)>)
    requires SmallOffsets(offsets)
    requires forall k :: 0 <= k < |offsets| ==> offsets[k] != (0, 0)
    ensures pos !in Targets(pos, offsets)
  {
    TargetsExact(pos, offsets, pos);
  }

  /** What `Options` says about one list of targets: a panic exactly when
      one of them cannot be indexed, with the indexing message of the first
      such target, and otherwise one action per target, in order, a `Take`
      exactly where the board has a piece. */
  predicate Describes(r: Outcome<seq<Action>>, g: Grid, ts: seq<BoardPosition>)
    requires IsGrid(g)
  {
    (r.Panic? <==> exists i :: 0 <= i < |ts| && Unindexable(ts[i])) &&
    (r.Panic? ==>
       exists i :: 0 <= i < |ts| && FirstUnindexable(ts, i) && r.message == CellAt(g, ts[i]).message) &&
    (r.Value? ==>
       |r.value| == |ts| &&
       forall i :: 0 <= i < |ts| ==>
         r.value[i].target == ts[i] && (r.value[i].Take? <==> CellAt(g, ts[i]).value.Some?))
  }

  /** A first offset that leaves the board adds nothing. */
  lemma OptionsSkip(pos: BoardPosition, g: Grid, offsets: seq<(i8, i8)>)
    requires IsGrid(g) && SmallOffsets(offsets) && offsets != []
    requires Shift(pos, offsets[0]).Err?
    ensures Options(pos, g, offsets) == Options(pos, g, offsets[1..])
    ensures Targets(pos, offsets) == Targets(pos, offsets[1..])
  {
    assert Step(pos, offsets[0]) == [];
    match Options(pos, g, offsets[1..])
    case Panic(_) =>
    case Value(rest) =>
      assert [] + rest == rest;
  }

  /** A target in front of a described list gives a described list. */
  lemma DescribesCons(r: Outcome<seq<Action>>, g: Grid, t: BoardPosition, ts: seq<BoardPosition>, whole: Outcome<seq<Action>>)
    requires IsGrid(g) && Describes(r, g, ts)
    requires whole ==
      match HasPieceIn(g, t)
      case Panic(m) => Panic(m)
      case Value(occupied) =>
        match r
        case Panic(m) => Panic(m)
        case Value(rest) => Value([if occupied then Take(t) else MoveTo(t)] + rest)
    ensures Describes(whole, g, [t] + ts)
  {
    var all := [t] + ts;
    assert forall i :: 1 <= i < |all| ==> all[i] == ts[i - 1];
    if Unindexable(t) {
      assert 0 < |all| && FirstUnindexable(all, 0);
    } else if exists i :: 0 <= i < |ts| && Unindexable(ts[i]) {
      var i :| 0 <= i < |ts| && FirstUnindexable(ts, i) && r.message == CellAt(g, ts[i]).message;
      assert FirstUnindexable(all, i + 1);
    }
  }

  /** The move list is described by the targets of the table. */
  lemma {:induction false} OptionsExact(pos: BoardPosition, g: Grid, offsets: seq<(i8, i8)>)
    requires IsGrid(g) && SmallOffsets(offsets)
    ensures Describes(Options(pos, g, offsets), g, Targets(pos, offsets))
    decreases |offsets|
  {
    if offsets != [] {
      OptionsExact(pos, g, offsets[1..]);
      match Shift(pos, offsets[0])
      case Err(_) =>
        OptionsSkip(pos, g, offsets);
      case Ok(t) =>
        assert Step(pos, offsets[0]) == [t];
        DescribesCons(Options(pos, g, offsets[1..]), g, t, Targets(pos, offsets[1..]), Options(pos, g, offsets));
    }
  }

  /** The number of actions is at most the number of offsets. */
  lemma OptionsBound(pos: BoardPosition, g: Grid, offsets: seq<(i8, i8)>)
    requires IsGrid(g) && SmallOffsets(offsets)
    ensures Options(pos, g, offsets).Value? ==> |Options(pos, g, offsets).value| <= |offsets|
  {
    OptionsExact(pos, g, offsets);
  }
}
