/** Disks as sequences of sectors, cut into the chunks that dirty tracking and
    block migration work on. */
module Disk {

  // The 512 bytes of one sector, read as one number.
  type Sector = nat

  type Disk = seq<Sector>

  // BDRV_SECTORS_PER_DIRTY_CHUNK
  const CHUNK: nat := 2048

  function Chunks(total: nat): nat {
    (total + CHUNK - 1) / CHUNK
  }

  function Lo(c: nat): nat {
    c * CHUNK
  }

  function Hi(total: nat, c: nat): nat {
    if Lo(c) + CHUNK <= total then Lo(c) + CHUNK else total
  }

  // The sectors of chunk c; the last chunk of a disk may be short.
  function Chunk(d: Disk, c: nat): Disk
    requires c < Chunks(|d|)
  {
    d[Lo(c)..Hi(|d|, c)]
  }

  function Overwrite(d: Disk, at: nat, data: Disk): (r: Disk)
    requires at + |data| <= |d|
    ensures |r| == |d|
    ensures forall k :: 0 <= k < |d| ==> r[k] == if at <= k < at + |data| then data[k - at] else d[k]
  {
    d[..at] + data + d[at + |data|..]
  }

  // A write of n sectors at the given sector touches chunk c.
  predicate Touches(at: nat, n: nat, c: nat) {
    n > 0 && at / CHUNK <= c <= (at + n - 1) / CHUNK
  }

  lemma OverwriteElsewhere(d: Disk, at: nat, data: Disk, c: nat)
    requires at + |data| <= |d| && c < Chunks(|d|)
    requires !Touches(at, |data|, c)
    ensures Chunk(Overwrite(d, at, data), c) == Chunk(d, c)
  {
  }

  lemma OverwriteChunk(d: Disk, c: nat, data: Disk, c': nat)
    requires c < Chunks(|d|) && c' < Chunks(|d|) && |data| == |Chunk(d, c)|
    ensures Lo(c) + |data| <= |d|
    ensures Chunk(Overwrite(d, Lo(c), data), c') == if c' == c then data else Chunk(d, c')
  {
    if c' != c {
      OverwriteElsewhere(d, Lo(c), data, c');
    }
  }

  // Disks of one size that agree on every chunk are equal.
  lemma EqualByChunks(d: Disk, e: Disk)
    requires |d| == |e|
    requires forall c :: 0 <= c < Chunks(|d|) ==> Chunk(d, c) == Chunk(e, c)
    ensures d == e
  {
    forall k | 0 <= k < |d|
      ensures d[k] == e[k]
    {
      var c := k / CHUNK;
      assert Chunk(d, c) == Chunk(e, c);
      assert Chunk(d, c)[k - Lo(c)] == d[k] && Chunk(e, c)[k - Lo(c)] == e[k];
    }
  }
}
