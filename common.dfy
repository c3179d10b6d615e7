/** Result and error types shared by the model. */
module Common {

  datatype Option<+T> = None | Some(value: T)

  /** The errors the column expressions can return. */
  datatype DataFusionError =
      /** The execution error `Column::bounds_error` builds: it names the
          column and its whole index path (the rendered schema text is not modelled). */
    | OutOfBounds(column: string, indexPath: seq<nat>)
      /** A planning error carrying its message. */
    | Plan(message: string)
      /** The schema error `Schema::index_of` returns when no field has the name. */
    | FieldNotFound(name: string)

  /** The outcome of a call: Rust's `Result` (`Ok` or `Err`), plus `Panic` for
      the calls that index a vector out of range and unwind instead of returning. */
  datatype Outcome<+T> = Ok(value: T) | Err(error: DataFusionError) | Panic
}
