/** Stock result types: the source's (value, error) returns; and how often something holds. */
module Results {
  datatype Option<+T> = None | Some(value: T)
  datatype Result<+T> = Ok(value: T) | Err

  function One(b: bool): nat {
    if b then 1 else 0
  }
}
