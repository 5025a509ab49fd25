/**
 * Error outcomes of the classifier harness. Each constructor stands for a
 * Python exception that the original code lets propagate.
 */
module Results {

  datatype Error =
    | Untrained     // the classifier's predict is called before fit
    | IndexError    // a label index is outside the predicted indicator vector
    | ZeroDivision  // a fold score divides by zero

  datatype Result<T> = Ok(value: T) | Err(error: Error)
}
