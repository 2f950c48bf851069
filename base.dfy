/** Small shared vocabulary: optional values and the source's 32-bit identifiers. */
module Base {
  /** A value that may be absent; `None` stands for a null pointer or a failed lookup. */
  datatype Option<T> = None | Some(value: T)

  /** The range of a C++ `uint32_t`: department, purpose and building-type identifiers. */
  type uint32 = x: int | 0 <= x < 0x1_0000_0000
}
