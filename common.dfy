/** Machine integer widths and the optional / fallible wrappers shared by the whole model. */
module Common {

  /** Rust's `u8`, `u32` and `u64`, as bounded integers. */
  type u8 = x: int | 0 <= x < 0x100
  type u32 = x: int | 0 <= x < 0x1_0000_0000
  type u64 = x: int | 0 <= x < 0x1_0000_0000_0000_0000

  /** `u64::MAX`. */
  const U64Max: int := 0xFFFF_FFFF_FFFF_FFFF

  /** Rust's `Option`. */
  datatype Option<T> = None | Some(value: T) {

    /** `Option::unwrap_or`: the carried value, or `default` when there is none. */
    function GetOr(default: T): T {
      match this
      case Some(v) => v
      case None => default
    }
  }

  /** A computation that either produces a value or stops with an error. */
  datatype Result<T, E> = Ok(value: T) | Err(error: E)
}
