/** The optional value used for bus outcomes, parser results and Python's `None`. */
module Options {

  /** `None` stands for a failed transfer or Python's `None`. */
  datatype Option<+T> = None | Some(value: T)
}
