/** Option and Result types shared by every module of the model.
  * `Err` carries the message key the engine throws or reports
  * (for instance "valueUnequalUnitDimensions"). */
module Wrappers {

  datatype Option<T> = None | Some(value: T)

  datatype Result<T> = Ok(value: T) | Err(error: string)
  {
    predicate IsFailure() { Err? }
  }

  /** JavaScript `a || b` on an optional string: a missing or empty string is replaced. */
  function OrDefault(v: Option<string>, d: string): (r: string)
    ensures v.Some? && v.value != "" ==> r == v.value
    ensures (v.None? || v.value == "") ==> r == d
  {
    if v.Some? && v.value != "" then v.value else d
  }
}
