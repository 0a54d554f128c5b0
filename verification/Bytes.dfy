/** Bytes, as the streams, disks and buffers of this project hold them. */
module Bytes {
  type byte = b: nat | b < 256

  // BDRV_SECTOR_SIZE
  const SECTOR: nat := 512

  function Zeros(n: nat): (z: seq<byte>)
    ensures |z| == n && forall k :: 0 <= k < n ==> z[k] == 0
  {
    seq(n, _ => 0)
  }
}
