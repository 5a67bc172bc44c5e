/** Small shared vocabulary of the editor model: optional values and the
    ways the editor can abort (a Rust panic) instead of returning. */
module Common {

  datatype Option<T> = None | Some(value: T)

  /** Why the process panics. Integer overflow counts as a panic because a
      debug build (the default profile) checks arithmetic on `u16`/`usize`. */
  datatype Panic =
    | ReadError            // `Rope::from_reader(..).expect(..)` on a read failure
    | WriteBufferOverrun   // `buffer[index]` with `index` past the 1024-byte array
    | MissingLine          // `get_line(..).expect(..)` on a line index past the end
    | LineLengthUnderflow  // `len_chars() - 1` on a line with no characters
    | CursorOverflow       // `x += 1` or `y += 1` on a `u16` already at 65535
    | InsertUnimplemented  // `insert_char` is `todo!()`

  /** The result of an operation that either completes or panics. */
  datatype Outcome<T> = Done(value: T) | Panicked(reason: Panic)
}
