/** An optional value: a missing `belongs_to_id` (pandas NaN) is `None`. */
module Options {
  datatype Option<T> = None | Some(value: T)
}
