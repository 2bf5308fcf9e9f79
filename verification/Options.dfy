/** Results that may be missing. */
module Options {

  /** `None` stands for an absent value or for a raised error. */
  datatype Option<T> = None | Some(value: T)
}
