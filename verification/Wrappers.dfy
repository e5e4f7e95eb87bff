/** The optional value used wherever the JavaScript holds `null` or an absent map entry. */
module Wrappers {
  datatype Option<+T> = None | Some(value: T) {
    function GetOr(default: T): T {
      if Some? then value else default
    }
  }
}
