/** The two wrappers every module uses for an absent column or a raised error. */
module Options {

  datatype Option<+T> = None | Some(value: T) {
    /** Python's `x or default` on a column whose only falsy value is NULL. */
    function GetOr(default: T): T {
      if Some? then value else default
    }
  }

  datatype Result<+T, +E> = Ok(value: T) | Err(error: E)
}
