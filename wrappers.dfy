/** The optional value used for the bot's nullable fields. */
module Wrappers {
  datatype Option<+T> = None | Some(value: T)
}
