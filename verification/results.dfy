/** Small failure-carrying datatypes shared by the model. */
module Results {

  /** An optional value: Python's `None` versus a present value. */
  datatype Option<+T> = None | Some(value: T)

  /** The answer of one call into the storage collaborator: either the rows
      it returned, or a fault (a lost connection, a failed query) that the
      caller sees as a raised exception. */
  datatype Answer<+T> = Ok(value: T) | Fault
}
