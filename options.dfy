/** The optional value used by the parsers that serve as inverses of the
    string encodings of the model. */
module Options {

  datatype Option<+T> = None | Some(value: T)
}
