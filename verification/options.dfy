/** The absent-or-present value the matchers use where the source returns `null`. */
module Options {

  datatype Option<+T> = None | Some(value: T)
}
