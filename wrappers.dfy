/** The optional value shared by every module of the model: Python's `None`
    and Django's nullable columns both become `None` here. */
module Wrappers {

  datatype Option<+T> = None | Some(value: T)
}
