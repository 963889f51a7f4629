/** The one datatype every module shares: a value that may be absent. */
module Options {
  datatype Option<+T> = None | Some(value: T)

  function GetOr<T>(o: Option<T>, default: T): T {
    match o case None => default case Some(v) => v
  }
}
