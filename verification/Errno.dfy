/** The error numbers of the C library; a call that fails returns one of them negated. */
module Errno {
  const ENOENT: int := 2
  const EIO: int := 5
  const E2BIG: int := 7
  const ENOMEM: int := 12
  const EINVAL: int := 22
  const EFBIG: int := 27
  const ENOSPC: int := 28
  const ECONNRESET: int := 104
  const ETIMEDOUT: int := 110
  const EHOSTDOWN: int := 112
}
