/** The optional value used for the widget's nullable fields (`null` in the widget). */
module Wrappers {

  datatype Option<+T> = None | Some(value: T)
}
