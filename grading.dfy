/** The letter grade of an average: a step function, each band closed at its lower edge. */
module Grading {

  /** Every letter the step function can produce, in ascending order. */
  const Letters: string := "ABCDF"

  /** Strictly ascending: sorted and without repeats. */
  predicate Ascending(cs: seq<char>)
  {
    forall i, j :: 0 <= i < j < |cs| ==> cs[i] < cs[j]
  }

  /** `get_grade`: the tests run from the top band down, so each band is [lower edge, next edge). */
  function GradeOf(avg: real): (g: char)
    ensures g in Letters
    ensures g == 'A' <==> avg >= 90.0
    ensures g == 'B' <==> 80.0 <= avg < 90.0
    ensures g == 'C' <==> 70.0 <= avg < 80.0
    ensures g == 'D' <==> 60.0 <= avg < 70.0
    ensures g == 'F' <==> avg < 60.0
  {
    if avg >= 90.0 then 'A'
    else if avg >= 80.0 then 'B'
    else if avg >= 70.0 then 'C'
    else if avg >= 60.0 then 'D'
    else 'F'
  }

  /** A higher average never earns a later letter. */
  lemma GradeMonotone(lo: real, hi: real)
    requires lo <= hi
    ensures GradeOf(hi) <= GradeOf(lo)
  {
  }

  /** The letters are strictly ascending, so filtering them keeps a sorted order. */
  lemma LettersAscending()
    ensures Ascending(Letters)
  {
  }
}
