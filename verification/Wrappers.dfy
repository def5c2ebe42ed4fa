// Result types shared by every module.
module Wrappers {

  datatype Option<+T> = None | Some(value: T)

  datatype Result<+T, +E> = Ok(value: T) | Err(error: E)

  // The values of options that are all there.
  function Values<T>(options: seq<Option<T>>): (values: seq<T>)
    requires forall i | 0 <= i < |options| :: options[i].Some?
    ensures |values| == |options| && forall i | 0 <= i < |options| :: values[i] == options[i].value
  {
    seq(|options|, i requires 0 <= i < |options| && options[i].Some? => options[i].value)
  }

  // The first of two optional values that is there.
  function Otherwise<T>(v: Option<T>, next: Option<T>): Option<T>
  {
    if v.Some? then v else next
  }
}
