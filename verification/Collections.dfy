/** Small helpers shared by the models. */
module Collections {

  datatype Option<+T> = None | Some(value: T)

  /** Some element of a set, as a loop over a Go map meets them: in no particular order. */
  method Pick<T>(s: set<T>) returns (x: T)
    requires s != {}
    ensures x in s
  {
    x :| x in s;
  }
}
