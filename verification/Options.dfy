/** The Some/None datatype that stands for the C sources' nullable pointers. */
module Options {

  datatype Option<+T> = None | Some(value: T)
}
