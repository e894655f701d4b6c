/** The two result shapes the other modules share: a missing value, and a refused operation. */
module Results {

  datatype Option<+T> = None | Some(value: T)

  /** The exceptions of the control plane, by the class that is raised. */
  datatype Result<+T, +E> = Ok(value: T) | Raised(error: E)
}
