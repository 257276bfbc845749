/** The optional-value datatype used for "nothing this time" results:
    an unopened device, a failed frame read, a missing asset, no output. */
module Options {

  datatype Option<+T> = None | Some(value: T)
}
