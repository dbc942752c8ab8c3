/** Outcomes of driver calls. The Python driver signals failure by raising
    (`ValueError`, `RuntimeError`, `TimeoutError`, `AttributeError`) and
    absence by returning `None`; the model makes both explicit values. */
module Results {

  datatype Option<+T> = None | Some(value: T)

  datatype Result<+T, +E> = Ok(value: T) | Err(error: E)
}
