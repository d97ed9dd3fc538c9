/** The optional value used wherever the agent may have nothing: a failed remote
    call, a missing registry entry, an absent field of a response part. */
module Wrappers {

  datatype Option<+T> = None | Some(value: T)
}
