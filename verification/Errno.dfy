/** Error numbers, as the host defines them. */
module Errno {
  const EIO: int := 5
  const EAGAIN: int := 11
  const EINVAL: int := 22
  const ENOMEDIUM: int := 123
}
