/** The optional value shared by the other modules: JavaScript's `null`/`NaN`
    and Python's missing entries become `None`. */
module Optional {

  datatype Option<T> = None | Some(value: T)
}
