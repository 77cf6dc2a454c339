/** Two small types and a fact about sets that several modules share. */
module Prelude {
  datatype Option<+T> = None | Some(value: T)

  datatype Result<+T, +E> = Ok(value: T) | Err(error: E)

  lemma {:induction false} SubsetSize<T>(few: set<T>, many: set<T>)
    requires few <= many
    ensures |few| <= |many|
    decreases |few|
  {
    if few != {} {
      var x :| x in few;
      SubsetSize(few - {x}, many - {x});
    }
  }
}
