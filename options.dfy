/** The optional value the C# code expresses with `null`. */
module Options {

  datatype Option<T> = None | Some(value: T)
}
