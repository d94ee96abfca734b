// Sizes of buffers that both programs declare, final zero included.
module Limits {
  const FILE_NAME_BUFFER: nat := 256
  const IP_BUFFER: nat := 64
  const PORT_BUFFER: nat := 16
}
