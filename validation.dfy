/** Outcomes shared by the serializers: an optional value, and the outcome
    of a field validator, which either passes a (possibly normalised) value
    on or raises a validation error carrying a message. */
module Validation {

  datatype Option<+T> = None | Some(value: T)

  /** `Ok(v)` is a validator returning `v`; `ValidationError(m)` is a
      validator raising `serializers.ValidationError(m)`. */
  datatype Validated<+T> = Ok(value: T) | ValidationError(message: string)
}
