/** An optional value: a missing drag payload, an omitted time slot, a date
    picker with nothing selected. */
module Wrappers {
  datatype Option<+T> = None | Some(value: T)
}
