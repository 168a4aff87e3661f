/** The usual optional-value wrapper, for fields a job record may lack and for parsers that may fail. */
module Options {
  datatype Option<+T> = None | Some(value: T)
}
