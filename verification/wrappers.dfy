/** The optional value used wherever the bot's code reads something that may be `None`. */
module Wrappers {

  datatype Option<+T> = None | Some(value: T)
}
