/** Types shared by every module. */
module Basics {

  datatype Option<+T> = None | Some(value: T) {
    function GetOr(default: T): T {
      if Some? then value else default
    }
  }

  /** What a fallible operation reports: nothing, or the reason it gave up. */
  datatype Outcome<+E> = Ok | Failed(error: E)
}
