/** The optional value used wherever the source may receive "nothing" (a cancelled prompt, a failed lookup). */
module Wrappers {
  datatype Option<+T> = None | Some(value: T)
}
