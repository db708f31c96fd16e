/** An optional value: a query parameter, header or lookup result that may be absent. */
module Maybe {

  datatype Option<+T> = None | Some(value: T)
}
