/** The optional value used wherever the relay may or may not produce something:
    a chat reply, a log embed, a destructured argument, a stored expiry. */
module Wrappers {

  datatype Option<+T> = None | Some(value: T)

}
