/** Python's `None`-or-value, used for `last_hand`, `last_player` and the hand type. */
module Wrappers {
  datatype Option<+T> = None | Some(value: T)
}
