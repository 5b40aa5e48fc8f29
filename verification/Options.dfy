/** The optional value shared by all the models: a nullable pointer or #f on the C and Scheme side. */
module Options {
  datatype Option<+T> = None | Some(value: T) {
    function GetOr(default: T): T {
      if Some? then value else default
    }
  }
}
