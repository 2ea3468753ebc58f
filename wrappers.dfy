/** Option and Result values for the error paths of the page controllers. */
module Wrappers {

  datatype Option<+T> = None | Some(value: T)

  datatype Result<+T, +E> = Ok(value: T) | Err(error: E)

  /** JavaScript's `n || d` on a parsed number: NaN (None) and 0 both fall back to `d`. */
  function OrDefault(n: Option<int>, d: int): (r: int)
    ensures n.Some? && n.value != 0 ==> r == n.value
    ensures n.None? || n.value == 0 ==> r == d
  {
    if n.Some? && n.value != 0 then n.value else d
  }
}
