/** An optional value, for the source's nullable results and partial
    lookups. */
module Optional {

  datatype Option<T> = None | Some(value: T)
}
