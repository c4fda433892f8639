/** Failure-carrying values shared by every module of the translation backend. */
module Base {

  datatype Option<T> = None | Some(value: T)

  /** A computation that either yields a value or fails with an error message
      (a rejected promise carrying `error.message`). */
  datatype Result<T> = Ok(value: T) | Err(msg: string)

  /** JavaScript truthiness of an optional string: absent and "" are both falsy. */
  predicate Truthy(o: Option<string>)
  {
    o.Some? && o.value != ""
  }

  /** `s || ''` for an optional string. */
  function OrEmpty(o: Option<string>): (r: string)
    ensures Truthy(o) ==> r == o.value
    ensures !Truthy(o) ==> r == ""
  {
    if o.Some? then o.value else ""
  }
}
