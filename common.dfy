/** Small datatypes shared by the rest of the model. A C null pointer
    becomes `None`; a fatal error (`FATAL_ERROR`, `DBG_BREAK`, a failed
    `assert`) becomes a `None` result or a `false` success flag. */
module Common {

  datatype Option<+T> = None | Some(value: T)

  /** Unsigned 8- and 64-bit and signed 32-bit machine integers. */
  newtype byte = x: int | 0 <= x < 0x100
  type u64 = x: int | 0 <= x < 0x1_0000_0000_0000_0000
  type i32 = x: int | -0x8000_0000 <= x < 0x8000_0000
}
