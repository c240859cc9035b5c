/** JavaScript value conventions shared by the client and the server model. */
module Values {

  /** A value that may be `undefined`. */
  datatype Option<+T> = None | Some(value: T)

  /** The outcome of an `async` call: a value, or a thrown `Error` with its message. */
  datatype Result<+T> = Ok(value: T) | Err(message: string)

  /** Truthiness of a string that may be `undefined`: both `undefined` and `""` are falsy. */
  predicate Truthy(v: Option<string>)
  {
    v.Some? && v.value != ""
  }

  /** The JavaScript expression `v || fallback` on a possibly-undefined string. */
  function Or(v: Option<string>, fallback: string): (r: string)
    ensures Truthy(v) ==> Some(r) == v
    ensures !Truthy(v) ==> r == fallback
    ensures r != "" <==> Truthy(v) || fallback != ""
  {
    if Truthy(v) then v.value else fallback
  }
}
