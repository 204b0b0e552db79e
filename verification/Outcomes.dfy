/** The optional value used wherever the tools return nothing or raise. */
module Outcomes {
  datatype Option<+T> = None | Some(value: T)
}
