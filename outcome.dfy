/** Result shapes shared by the three designs. */
module Outcome {

  datatype Option<T> = None | Some(value: T)

  /** What a sub-cell access yields: the access, or the fatal assertion the
      source raises instead (`assert!` / `assert_eq!`), with the reason. */
  datatype Borrowed<T, E> = Granted(value: T) | Panicked(reason: E)
}
