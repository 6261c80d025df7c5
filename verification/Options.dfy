/** A value that may be missing: a lookup that finds nothing, a parse or a read that fails. */
module Options {
  datatype Option<+T> = None | Some(value: T) {
    function GetOr(default: T): T { if Some? then value else default }
  }
}
