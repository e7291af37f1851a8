/** The Option type used wherever the Rust code has an `Option` or a `Result`
    whose error value is never inspected. */
module Options {

  datatype Option<+T> = None | Some(value: T)

}
