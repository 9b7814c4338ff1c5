/** Shared vocabulary: optional values, results, and the identities and times the
    whole model is written in. Times and work are whole numbers of one small unit. */
module Basics {

  datatype Option<+T> = None | Some(value: T)

  datatype Result<+T> = Ok(value: T) | Err

  type Time = int
  type Effort = int
  type Priority = int
  type JobId = int
  type Kind = string

  /** Time is counted in nanoseconds. */
  const SECOND := 1_000_000_000

  /** The fewest picks a location can be solved from. */
  const MINIMUM_PICKS := 4

  function Min(a: int, b: int): int { if a < b then a else b }

  function Max(a: int, b: int): int { if a < b then b else a }

  function MinReal(a: real, b: real): real { if a < b then a else b }

  function MaxReal(a: real, b: real): real { if a < b then b else a }

  function AbsReal(a: real): real { if a < 0.0 then -a else a }

  lemma SomeMember(s: set<int>)
    requires s != {}
    ensures exists x :: x in s
  {
    assert (forall x :: x !in s) ==> s == {};
  }
}
