/** The optional value used for every `?:` field and every `T | null` of the
    application: `undefined` and `null` both become `None`. */
module Optional {

  datatype Option<+T> = None | Some(value: T)
}
