/** Value types shared by the request handlers: optional values, results,
    the fixed-width integers of the source, and the error values that
    reach the HTTP layer. */
module Common {

  /** Rust's `Option<T>`. */
  datatype Option<+T> = None | Some(value: T) {
    /** The contained value, or `default` when absent. */
    function GetOr(default: T): T {
      if Some? then value else default
    }
  }

  /** Rust's `Result<T, E>`. */
  datatype Result<+T, +E> = Ok(value: T) | Err(error: E)

  /** Rust's `i32`. */
  newtype i32 = x: int | -0x8000_0000 <= x < 0x8000_0000

  /** Rust's `u8`: the writer buffers of the CSV encoder hold bytes. */
  newtype byte = x: int | 0 <= x < 0x100

  /** A failure of the database lookup (the `anyhow::Error` that `fetch_all` produces). */
  datatype DbError = DbError(message: string)

  /** A failure of an encoder: `serde_json`, the CSV writer, or the UTF-8 check of its buffer. */
  datatype EncodeError = EncodeError(message: string)

  /** The handler error type. A plain message (an `anyhow!` error raised by the
      handler itself), a failed lookup propagated by `?`, or a failed encoding. */
  datatype AppError =
    | Anyhow(message: string)
    | Db(db: DbError)
    | Encoding(enc: EncodeError)

  /** The error the single-address handler returns when the lookup finds nothing. */
  const NoResultsFound: AppError := Anyhow("No results found")
}
