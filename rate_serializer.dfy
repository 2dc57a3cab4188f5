/** `RateSerializer`: the field validator for a rate's score. */
module RateSerializer {
  import opened Validation

  /** The message raised for an out-of-range score, verbatim. It speaks of
      1-5 although the check admits 0. */
  const RATE_RANGE_MESSAGE := "Rate value must between 1-5"

  /** `validate_rate`: passes the score on unchanged exactly when it lies
      in the closed range `[0, 5]`. */
  function ValidateRate(rate: int): (r: Validated<int>)
    ensures r.Ok? <==> 0 <= rate <= 5
    ensures r.Ok? ==> r.value == rate
    ensures r.ValidationError? ==> r.message == RATE_RANGE_MESSAGE
  {
    if !(0 <= rate <= 5) then ValidationError(RATE_RANGE_MESSAGE) else Ok(rate)
  }

  /** The boundaries: 0 and 5 are accepted, -1 and 6 rejected. */
  lemma ValidateRateBoundaries()
    ensures ValidateRate(0) == Ok(0) && ValidateRate(5) == Ok(5)
    ensures ValidateRate(-1) == ValidationError(RATE_RANGE_MESSAGE)
    ensures ValidateRate(6) == ValidationError(RATE_RANGE_MESSAGE)
  {
  }
}
