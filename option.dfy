/** The optional value used where the plugin may produce nothing (PHP `null`) or a lookup may miss. */
module Opt {

  datatype Option<+T> = None | Some(value: T)
}
