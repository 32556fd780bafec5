/**
 * `computeYear`: the academic year a student is in, by completed credits. The
 * account controller and the signup form each carry an identical copy; the
 * model defines it once.
 */
module AcademicYear {

  datatype Year = Freshman | Sophomore | Junior | Senior

  /** Position of a year in the order Freshman < Sophomore < Junior < Senior. */
  function Rank(y: Year): nat {
    match y
    case Freshman => 0
    case Sophomore => 1
    case Junior => 2
    case Senior => 3
  }

  /** The label the source returns for each year. */
  function Label(y: Year): string {
    match y
    case Freshman => "Freshman"
    case Sophomore => "Sophomore"
    case Junior => "Junior"
    case Senior => "Senior"
  }

  /**
   * `computeYear(credits)` once credits are a number (the callers coerce text
   * with `Number(...) || 0`). Each band starts at its lower bound: 30, 60 and
   * 90 belong to the next band up.
   */
  function ComputeYear(credits: int): (y: Year)
    ensures y == Freshman <==> credits < 30
    ensures y == Sophomore <==> 30 <= credits < 60
    ensures y == Junior <==> 60 <= credits < 90
    ensures y == Senior <==> 90 <= credits
  {
    if credits < 30 then Freshman
    else if credits < 60 then Sophomore
    else if credits < 90 then Junior
    else Senior
  }

  /** More credits never put a student in an earlier year. */
  lemma YearNeverDecreases(c1: int, c2: int)
    requires c1 <= c2
    ensures Rank(ComputeYear(c1)) <= Rank(ComputeYear(c2))
  {
  }

  /** The boundary values on each side of every band change. */
  lemma YearBoundaries()
    ensures ComputeYear(29) == Freshman && ComputeYear(30) == Sophomore
    ensures ComputeYear(59) == Sophomore && ComputeYear(60) == Junior
    ensures ComputeYear(89) == Junior && ComputeYear(90) == Senior
  {
  }
}
