/** Small value wrappers shared by the model: a C++ pointer that may be NULL,
    or an out-parameter that is only written on success, becomes an Option. */
module Wrappers {

  datatype Option<+T> = None | Some(value: T)
}
