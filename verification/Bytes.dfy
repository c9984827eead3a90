/** Bytes as C++ unsigned chars. */
module Bytes {
  type byte = b: int | 0 <= b < 256
}
