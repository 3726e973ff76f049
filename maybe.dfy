/** An optional value (a nullable column, an absent property, NaN) and the
    outcome of an operation that can throw. */
module Maybe {
  datatype Option<T> = None | Some(value: T)

  /** `Err` stands for a rejected promise or a thrown exception. */
  datatype Result<T> = Ok(value: T) | Err(error: string)
}
