/** The bytes the vendored asio buffers hold. */
module Bytes {
  type Byte = x: int | 0 <= x < 256
}
