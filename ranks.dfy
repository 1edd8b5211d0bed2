/** `Rank` (board/rank.rs): the rows 1..8, with ordinals 1..8 and checked
    arithmetic that fails off the board. */
module Ranks {
  import opened Types

  datatype Rank = One | Two | Three | Four | Five | Six | Seven | Eight

  /** `Into<i8>` (for `Rank` and for `&Rank`): the ordinal, 1 for One .. 8
      for Eight. */
  function Ordinal(r: Rank): (n: i8)
    ensures 1 <= n <= 8
  {
    match r
    case One => 1
    case Two => 2
    case Three => 3
    case Four => 4
    case Five => 5
    case Six => 6
    case Seven => 7
    case Eight => 8
  }

  /** `Rank::from_char`: a digit 1..8 names a rank. */
  function FromChar(c: char): (r: Result<Rank, string>)
    ensures r.Ok? <==> '1' <= c <= '8'
    ensures r.Ok? ==> Ordinal(r.value) as int == c as int - '0' as int
    ensures r.Err? ==> r.error == "Could not parse " + [c] + " to a rank"
  {
    match c
    case '1' => Ok(One)
    case '2' => Ok(Two)
    case '3' => Ok(Three)
    case '4' => Ok(Four)
    case '5' => Ok(Five)
    case '6' => Ok(Six)
    case '7' => Ok(Seven)
    case '8' => Ok(Eight)
    case _ => Err("Could not parse " + [c] + " to a rank")
  }

  /** `TryFrom<i8>`: exactly the ordinals 1..8 name a rank. The error text
      speaks of a file, as the implementation's does. */
  function TryFromI8(v: i8): (r: Result<Rank, string>)
    ensures r.Ok? <==> 1 <= v <= 8
    ensures r.Ok? ==> Ordinal(r.value) == v
    ensures r.Err? ==> r.error == DecimalString(v as int) + " is not a valid file"
  {
    match v
    case 1 => Ok(One)
    case 2 => Ok(Two)
    case 3 => Ok(Three)
    case 4 => Ok(Four)
    case 5 => Ok(Five)
    case 6 => Ok(Six)
    case 7 => Ok(Seven)
    case 8 => Ok(Eight)
    case _ => Err(DecimalString(v as int) + " is not a valid file")
  }

  /** Different ranks have different ordinals. */
  lemma OrdinalInjective(r: Rank, s: Rank)
    ensures Ordinal(r) == Ordinal(s) ==> r == s
  {}

  /** Converting a rank to its ordinal and back gives the rank. */
  lemma OrdinalRoundTrip(r: Rank)
    ensures TryFromI8(Ordinal(r)) == Ok(r)
  {}

  /** `rank + rank`: the rank whose ordinal is the sum, if there is one. */
  function Add(r: Rank, s: Rank): (t: Result<Rank, string>)
    ensures t.Ok? <==> Ordinal(r) + Ordinal(s) <= 8
    ensures t.Ok? ==> Ordinal(t.value) == Ordinal(r) + Ordinal(s)
  {
    TryFromI8(Ordinal(r) + Ordinal(s))
  }

  /** `rank - rank`: the rank whose ordinal is the difference, if there is
      one; a difference of 0 or less names no rank. */
  function Sub(r: Rank, s: Rank): (t: Result<Rank, string>)
    ensures t.Ok? <==> Ordinal(r) > Ordinal(s)
    ensures t.Ok? ==> Ordinal(t.value) == Ordinal(r) - Ordinal(s)
  {
    TryFromI8(Ordinal(r) - Ordinal(s))
  }

  /** `rank + n` for an `i8` offset; the `i8` sum must not overflow. */
  function AddI8(r: Rank, n: i8): (t: Result<Rank, string>)
    requires -128 <= Ordinal(r) as int + n as int < 128
    ensures t.Ok? <==> 1 <= Ordinal(r) as int + n as int <= 8
    ensures t.Ok? ==> Ordinal(t.value) as int == Ordinal(r) as int + n as int
    ensures t.Err? ==> t.error == DecimalString(Ordinal(r) as int + n as int) + " is not a valid file"
  {
    TryFromI8(Ordinal(r) + n)
  }

  /** `rank - n` for an `i8` offset; the `i8` difference must not overflow. */
  function SubI8(r: Rank, n: i8): (t: Result<Rank, string>)
    requires -128 <= Ordinal(r) as int - n as int < 128
    ensures t.Ok? <==> 1 <= Ordinal(r) as int - n as int <= 8
    ensures t.Ok? ==> Ordinal(t.value) as int == Ordinal(r) as int - n as int
    ensures t.Err? ==> t.error == DecimalString(Ordinal(r) as int - n as int) + " is not a valid file"
  {
    TryFromI8(Ordinal(r) - n)
  }

  /** A rank minus itself has ordinal 0, which names no rank. */
  lemma SubSelf(r: Rank)
    ensures Sub(r, r).Err?
  {}

  /** Nothing can be added to Eight. */
  lemma AddToEight(s: Rank)
    ensures Add(Eight, s).Err?
  {}

  /** Adding 0 leaves a rank unchanged. */
  lemma AddZero(r: Rank)
    ensures AddI8(r, 0) == Ok(r)
  {
    OrdinalRoundTrip(r);
  }
}
