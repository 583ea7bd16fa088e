/** Small value types shared by every part of the gold dashboard model. */
module Common {

  /** A value that may be absent: a provider that returned nothing, a key missing from a JSON body. */
  datatype Option<+T> = None | Some(value: T)

  /** The language chosen in the sidebar selector; every user-facing message is rendered in one of these. */
  datatype Lang = Arabic | English

  function Abs(x: real): (r: real)
    ensures r >= 0.0 && (r == x || r == -x)
  {
    if x < 0.0 then -x else x
  }

  function Min(x: real, y: real): (r: real)
    ensures r <= x && r <= y && (r == x || r == y)
  {
    if x <= y then x else y
  }
}
