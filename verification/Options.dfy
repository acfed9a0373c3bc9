/** The one optional value every other module uses for the source's nullable columns. */
module Options {
  datatype Option<+T> = None | Some(value: T)
}
