/** `File` (board/file.rs): the columns a..h, with ordinals 1..8 and checked
    arithmetic that fails off the board. */
module Files {
  import opened Types

  datatype File = A | B | C | D | E | F | G | H

  /** `Into<i8>` (for `File` and for `&File`): the ordinal, 1 for A .. 8 for H. */
  function Ordinal(f: File): (r: i8)
    ensures 1 <= r <= 8
  {
    match f
    case A => 1
    case B => 2
    case C => 3
    case D => 4
    case E => 5
    case F => 6
    case G => 7
    case H => 8
  }

  /** `File::from_char`: a letter a..h in either case names a file. */
  function FromChar(c: char): (r: Result<File, string>)
    ensures r.Ok? <==> 'a' <= c <= 'h' || 'A' <= c <= 'H'
    ensures 'a' <= c <= 'h' ==> r.Ok? && Ordinal(r.value) as int == c as int - 'a' as int + 1
    ensures 'A' <= c <= 'H' ==> r.Ok? && Ordinal(r.value) as int == c as int - 'A' as int + 1
    ensures r.Err? ==> r.error == "Could not parse " + [c] + " to a file"
  {
    match c
    case 'a' => Ok(A)
    case 'A' => Ok(A)
    case 'b' => Ok(B)
    case 'B' => Ok(B)
    case 'c' => Ok(C)
    case 'C' => Ok(C)
    case 'd' => Ok(D)
    case 'D' => Ok(D)
    case 'e' => Ok(E)
    case 'E' => Ok(E)
    case 'f' => Ok(F)
    case 'F' => Ok(F)
    case 'g' => Ok(G)
    case 'G' => Ok(G)
    case 'h' => Ok(H)
    case 'H' => Ok(H)
    case _ => Err("Could not parse " + [c] + " to a file")
  }

  /** `TryFrom<i8>`: exactly the ordinals 1..8 name a file. */
  function TryFromI8(v: i8): (r: Result<File, string>)
    ensures r.Ok? <==> 1 <= v <= 8
    ensures r.Ok? ==> Ordinal(r.value) == v
    ensures r.Err? ==> r.error == DecimalString(v as int) + " is not a valid file"
  {
    match v
    case 1 => Ok(A)
    case 2 => Ok(B)
    case 3 => Ok(C)
    case 4 => Ok(D)
    case 5 => Ok(E)
    case 6 => Ok(F)
    case 7 => Ok(G)
    case 8 => Ok(H)
    case _ => Err(DecimalString(v as int) + " is not a valid file")
  }

  /** Different files have different ordinals. */
  lemma OrdinalInjective(f: File, g: File)
    ensures Ordinal(f) == Ordinal(g) ==> f == g
  {}

  /** Converting a file to its ordinal and back gives the file. */
  lemma OrdinalRoundTrip(f: File)
    ensures TryFromI8(Ordinal(f)) == Ok(f)
  {}

  /** `file + file`: the file whose ordinal is the sum, if there is one. */
  function Add(f: File, g: File): (r: Result<File, string>)
    ensures r.Ok? <==> Ordinal(f) + Ordinal(g) <= 8
    ensures r.Ok? ==> Ordinal(r.value) == Ordinal(f) + Ordinal(g)
  {
    TryFromI8(Ordinal(f) + Ordinal(g))
  }

  /** `file - file`: the file whose ordinal is the difference, if there is
      one; a difference of 0 or less names no file. */
  function Sub(f: File, g: File): (r: Result<File, string>)
    ensures r.Ok? <==> Ordinal(f) > Ordinal(g)
    ensures r.Ok? ==> Ordinal(r.value) == Ordinal(f) - Ordinal(g)
  {
    TryFromI8(Ordinal(f) - Ordinal(g))
  }

  /** `file + n` for an `i8` offset; the `i8` sum must not overflow. */
  function AddI8(f: File, n: i8): (r: Result<File, string>)
    requires -128 <= Ordinal(f) as int + n as int < 128
    ensures r.Ok? <==> 1 <= Ordinal(f) as int + n as int <= 8
    ensures r.Ok? ==> Ordinal(r.value) as int == Ordinal(f) as int + n as int
    ensures r.Err? ==> r.error == DecimalString(Ordinal(f) as int + n as int) + " is not a valid file"
  {
    TryFromI8(Ordinal(f) + n)
  }

  /** `file - n` for an `i8` offset; the `i8` difference must not overflow. */
  function SubI8(f: File, n: i8): (r: Result<File, string>)
    requires -128 <= Ordinal(f) as int - n as int < 128
    ensures r.Ok? <==> 1 <= Ordinal(f) as int - n as int <= 8
    ensures r.Ok? ==> Ordinal(r.value) as int == Ordinal(f) as int - n as int
    ensures r.Err? ==> r.error == DecimalString(Ordinal(f) as int - n as int) + " is not a valid file"
  {
    TryFromI8(Ordinal(f) - n)
  }

  /** A file minus itself has ordinal 0, which names no file. */
  lemma SubSelf(f: File)
    ensures Sub(f, f).Err?
  {}

  /** Nothing can be added to H. */
  lemma AddToH(g: File)
    ensures Add(H, g).Err?
  {}

  lemma AddAA()
    ensures Add(A, A) == Ok(B)
  {}

  /** Adding 0 leaves a file unchanged. */
  lemma AddZero(f: File)
    ensures AddI8(f, 0) == Ok(f)
  {
    OrdinalRoundTrip(f);
  }
}
