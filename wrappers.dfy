/** The JavaScript `T | null` results of the chatbot, as an Option. */
module Wrappers {

  datatype Option<+T> = None | Some(value: T)
}
