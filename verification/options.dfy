/** The optional-value datatype used across the model: Python's `None`
    becomes `None`, a present value becomes `Some(v)`. */
module Options {

  datatype Option<+T> = None | Some(value: T)
}
