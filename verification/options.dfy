/** An optional value, for the source's nil pointers, zero times and missing map entries. */
module Options {

  datatype Option<+T> = None | Some(value: T) {
    function GetOr(default: T): T {
      if Some? then value else default
    }
  }
}
