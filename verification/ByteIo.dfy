/** bdrv_pread and bdrv_pwrite: reading and writing bytes of a device that works in sectors. */
module ByteIo {
  import opened Bytes
  import opened Errno
  import opened WriteMerge

  // Replacing part of a sector and writing it back writes that part.
  lemma PartOfSector(d: seq<byte>, at: nat, tmp: seq<byte>, k: nat, part: seq<byte>)
    requires at + SECTOR <= |d| && tmp == d[at..at + SECTOR] && k + |part| <= SECTOR
    ensures Write(d, Extent(at, tmp[..k] + part + tmp[k + |part|..])) == Write(d, Extent(at + k, part))
  {
  }

  lemma WriteTwice(d: seq<byte>, at: nat, a: seq<byte>, b: seq<byte>)
    requires at + |a| + |b| <= |d|
    ensures Write(Write(d, Extent(at, a)), Extent(at + |a|, b)) == Write(d, Extent(at, a + b))
  {
  }

  lemma Slices(d: seq<byte>, a: nat, b: nat, c: nat)
    requires a <= b <= c <= |d|
    ensures d[a..b] + d[b..c] == d[a..c]
  {
  }

  // Only bytes from lo up to hi differ.
  ghost predicate SameOutside(d: seq<byte>, e: seq<byte>, lo: nat, hi: nat) {
    |d| == |e| && forall j :: 0 <= j < |d| && !(lo <= j < hi) ==> d[j] == e[j]
  }

  // The sector and place of an offset, and how many of count bytes are in front of the next
  // sector boundary.
  method SplitHead(offset: nat, count: nat) returns (sector: nat, k: nat, len: nat)
    ensures SECTOR * sector + k == offset && k < SECTOR && len <= count && k + len <= SECTOR
    ensures len < count ==> (k == 0 && len == 0) || k + len == SECTOR
  {
    sector, k := offset / SECTOR, offset % SECTOR;
    len := (SECTOR - k) % SECTOR;
    if len > count {
      len := count;
    }
  }

  // The whole sectors of count bytes.
  method SplitBody(count: nat) returns (n: nat, len: nat)
    ensures len == SECTOR * n && len <= count < len + SECTOR
  {
    n := count / SECTOR;
    len := SECTOR * n;
  }

  // Part of a sector is on the device if and only if the sector is.
  lemma PartInRange(size: nat, sector: nat, k: nat, len: nat)
    requires size % SECTOR == 0 && 0 < len && k + len <= SECTOR
    ensures SECTOR * sector + k + len <= size <==> SECTOR * (sector + 1) <= size
  {
    var n := size / SECTOR;
    assert size == SECTOR * n;
    if n <= sector {
      assert SECTOR * n <= SECTOR * sector;
    } else {
      assert SECTOR * (sector + 1) <= SECTOR * n;
    }
  }

  class Device {
    // A whole number of sectors.
    var disk: seq<byte>

    // Which of the reads and writes of sectors fail.
    const fails: nat -> bool
    var ops: nat

    ghost predicate Valid()
      reads this
    {
      |disk| % SECTOR == 0
    }

    // None of the operations after the first m and up to n fails.
    ghost predicate Clean(m: nat, n: nat) {
      forall i :: m < i <= n ==> !fails(i)
    }

    constructor (disk: seq<byte>, fails: nat -> bool)
      requires |disk| % SECTOR == 0
      ensures Valid() && this.disk == disk && this.fails == fails
    {
      this.disk, this.fails, ops := disk, fails, 0;
    }

    method Read(sector: nat, n: nat) returns (ret: int, buf: seq<byte>)
      modifies `ops
      ensures (ret == 0 || ret == -EIO) && ops == old(ops) + 1
      ensures ret == 0 <==> SECTOR * (sector + n) <= |disk| && !fails(ops)
      ensures ret == 0 ==> buf == disk[SECTOR * sector..SECTOR * (sector + n)]
    {
      ops := ops + 1;
      if SECTOR * (sector + n) > |disk| || fails(ops) {
        return -EIO, [];
      }
      return 0, disk[SECTOR * sector..SECTOR * (sector + n)];
    }

    method WriteSectors(sector: nat, buf: seq<byte>) returns (ret: int)
      requires Valid() && |buf| % SECTOR == 0
      modifies this
      ensures Valid() && (ret == 0 || ret == -EIO) && ops == old(ops) + 1
      ensures ret == 0 <==> SECTOR * sector + |buf| <= |old(disk)| && !fails(ops)
      ensures ret == 0 ==> disk == Write(old(disk), Extent(SECTOR * sector, buf))
      ensures ret != 0 ==> disk == old(disk)
    {
      ops := ops + 1;
      if SECTOR * sector + |buf| > |disk| || fails(ops) {
        return -EIO;
      }
      disk := Write(disk, Extent(SECTOR * sector, buf));
      return 0;
    }

    // Part of one sector, by way of a sector buffer.
    method GetPart(sector: nat, k: nat, len: nat, ghost at: nat, ghost to: nat) returns (ret: int, buf: seq<byte>)
      requires Valid() && 0 < len && k + len <= SECTOR && at == SECTOR * sector + k && to == at + len
      modifies `ops
      ensures (ret == 0 || ret == -EIO) && ops == old(ops) + 1
      ensures ret == 0 <==> to <= |disk| && !fails(ops)
      ensures ret == 0 ==> buf == disk[at..to]
    {
      PartInRange(|disk|, sector, k, len);
      var tmp;
      ret, tmp := Read(sector, 1);
      buf := [];
      if ret == 0 {
        buf := tmp[k..k + len];
      }
    }

    method GetSectors(sector: nat, n: nat, ghost at: nat, ghost to: nat) returns (ret: int, buf: seq<byte>)
      requires at == SECTOR * sector && to == at + SECTOR * n
      modifies `ops
      ensures (ret == 0 || ret == -EIO) && ops == old(ops) + 1
      ensures ret == 0 <==> to <= |disk| && !fails(ops)
      ensures ret == 0 ==> buf == disk[at..to]
    {
      ret, buf := Read(sector, n);
    }

    // The bytes from offset up to at have been read.
    ghost predicate Got(offset: nat, at: nat, buf: seq<byte>)
      reads `disk
    {
      if at == offset then buf == [] else offset < at <= |disk| && buf == disk[offset..at]
    }

    lemma GotMore(offset: nat, at: nat, buf: seq<byte>, to: nat, tmp: seq<byte>)
      requires Got(offset, at, buf) && at < to <= |disk| && tmp == disk[at..to]
      ensures Got(offset, to, buf + tmp)
    {
      if at > offset {
        Slices(disk, offset, at, to);
      }
    }

    // All bytes are read, or the range leaves the device or one of the operations made failed.
    method Pread(offset: nat, count1: nat) returns (ret: int, buf: seq<byte>)
      requires Valid()
      modifies `ops
      ensures (ret == count1 || ret == -EIO) && old(ops) <= ops <= old(ops) + 3
      ensures ret == count1 ==> Got(offset, offset + count1, buf) && Clean(old(ops), ops)
      ensures ret == -EIO ==> count1 > 0 && (offset + count1 > |disk| || !Clean(old(ops), ops))
    {
      buf := [];
      var count := count1;
      var sector, k, len := SplitHead(offset, count);
      ghost var at, to, end := offset, offset + len, offset + count1;
      var tmp;
      if len > 0 {
        ret, tmp := GetPart(sector, k, len, at, to);
        if ret < 0 {
          return;
        }
        GotMore(offset, at, buf, to, tmp);
        buf, count, at := buf + tmp, count - len, to;
        if count == 0 {
          return count1, buf;
        }
        sector := sector + 1;
      }
      var n;
      n, len := SplitBody(count);
      to := at + len;
      if n > 0 {
        ret, tmp := GetSectors(sector, n, at, to);
        if ret < 0 {
          return;
        }
        GotMore(offset, at, buf, to, tmp);
        buf, count, sector, at := buf + tmp, count - len, sector + n, to;
      }
      if count > 0 {
        ret, tmp := GetPart(sector, 0, count, at, end);
        if ret < 0 {
          return;
        }
        GotMore(offset, at, buf, end, tmp);
        buf := buf + tmp;
      }
      ret := count1;
    }

    // Part of one sector, read, changed and written back.
    method PutPart(sector: nat, k: nat, part: seq<byte>, ghost at: nat) returns (ret: int)
      requires Valid() && 0 < |part| && k + |part| <= SECTOR && at == SECTOR * sector + k
      modifies this
      ensures Valid() && (ret == 0 || ret == -EIO) && old(ops) < ops <= old(ops) + 2
      ensures ret == 0 <==> at + |part| <= |old(disk)| && Clean(old(ops), ops)
      ensures ret == 0 ==> disk == Write(old(disk), Extent(at, part))
      ensures ret != 0 ==> disk == old(disk)
    {
      PartInRange(|disk|, sector, k, |part|);
      var tmp;
      ret, tmp := Read(sector, 1);
      if ret < 0 {
        return;
      }
      var buf := tmp[..k] + part + tmp[k + |part|..];
      PartOfSector(disk, SECTOR * sector, tmp, k, part);
      ret := WriteSectors(sector, buf);
    }

    // What has been written so far, data[..done] from offset on.
    ghost predicate Progress(was: seq<byte>, offset: nat, data: seq<byte>, done: nat)
      reads this
    {
      && Valid() && |disk| == |was| && done <= |data|
      && if done == 0 then disk == was
         else offset + done <= |was| && disk == Write(was, Extent(offset, data[..done]))
    }

    lemma MoreProgress(was: seq<byte>, before: seq<byte>, offset: nat, data: seq<byte>, done: nat, len: nat)
      requires Valid() && done + len <= |data| && offset + done + len <= |was| == |before| && 0 < len
      requires before == if done == 0 then was else Write(was, Extent(offset, data[..done]))
      requires disk == Write(before, Extent(offset + done, data[done..done + len]))
      ensures Progress(was, offset, data, done + len)
    {
      assert data[..done] + data[done..done + len] == data[..done + len];
      if done > 0 {
        WriteTwice(was, offset, data[..done], data[done..done + len]);
      } else {
        assert data[0..len] == data[..len];
      }
    }

    method PutPartNext(sector: nat, k: nat, len: nat, ghost was: seq<byte>, ghost offset: nat, data: seq<byte>, done: nat, to: nat)
      returns (ret: int)
      requires Progress(was, offset, data, done) && done + len == to <= |data| && 0 < len
      requires k + len <= SECTOR && SECTOR * sector + k == offset + done
      modifies this
      ensures (ret == 0 || ret == -EIO) && old(ops) < ops <= old(ops) + 2
      ensures ret == 0 <==> offset + to <= |was| && Clean(old(ops), ops)
      ensures Progress(was, offset, data, if ret == 0 then to else done)
    {
      ghost var before := disk;
      ret := PutPart(sector, k, data[done..done + len], offset + done);
      if ret == 0 {
        MoreProgress(was, before, offset, data, done, len);
      }
    }

    method PutSectorsNext(sector: nat, n: nat, len: nat, ghost was: seq<byte>, ghost offset: nat, data: seq<byte>, done: nat, to: nat)
      returns (ret: int)
      requires Progress(was, offset, data, done) && done + len == to <= |data| && 0 < len
      requires len == SECTOR * n && SECTOR * sector == offset + done
      modifies this
      ensures (ret == 0 || ret == -EIO) && old(ops) < ops <= old(ops) + 1
      ensures ret == 0 <==> offset + to <= |was| && Clean(old(ops), ops)
      ensures Progress(was, offset, data, if ret == 0 then to else done)
    {
      ghost var before := disk;
      ret := WriteSectors(sector, data[done..done + len]);
      if ret == 0 {
        MoreProgress(was, before, offset, data, done, len);
      }
    }

    method PutBytes(offset: nat, data: seq<byte>, ghost was: seq<byte>) returns (ret: int, ghost done: nat)
      requires Valid() && disk == was
      modifies this
      ensures (ret == |data| && done == |data| && Clean(old(ops), ops)) || ret == -EIO
      ensures ret == -EIO ==> |data| > 0 && (offset + |data| > |was| || !Clean(old(ops), ops))
      ensures Progress(was, offset, data, done) && old(ops) <= ops <= old(ops) + 5
    {
      var count, i := |data|, 0;
      var sector, k, len := SplitHead(offset, count);
      if len > 0 {
        ret := PutPartNext(sector, k, len, was, offset, data, i, len);
        if ret < 0 {
          return ret, i;
        }
        count, i := count - len, len;
        if count == 0 {
          return |data|, i;
        }
        sector := sector + 1;
      }
      var n;
      n, len := SplitBody(count);
      var to := i + len;
      if n > 0 {
        ret := PutSectorsNext(sector, n, len, was, offset, data, i, to);
        if ret < 0 {
          return ret, i;
        }
        count, i, sector := count - len, to, sector + n;
      }
      if count > 0 {
        ret := PutPartNext(sector, 0, count, was, offset, data, i, |data|);
        if ret < 0 {
          return ret, i;
        }
        i := |data|;
      }
      return |data|, i;
    }

    // All bytes are written, or the range leaves the device or one of the operations made failed.
    method Pwrite(offset: nat, data: seq<byte>) returns (ret: int)
      requires Valid()
      modifies this
      ensures Valid() && (ret == |data| || ret == -EIO) && old(ops) <= ops <= old(ops) + 5
      ensures ret == |data| ==> Clean(old(ops), ops)
      ensures ret == -EIO ==> |data| > 0 && (offset + |data| > |disk| || !Clean(old(ops), ops))
      ensures ret == |data| > 0 ==> offset + |data| <= |old(disk)| && disk == Write(old(disk), Extent(offset, data))
      ensures SameOutside(old(disk), disk, offset, offset + |data|)
    {
      ghost var done;
      ret, done := PutBytes(offset, data, disk);
      assert data[..|data|] == data;
    }
  }

  // A read of any bytes after a write sees what was written, and only that.
  lemma ReadAfterWrite(d: seq<byte>, offset: nat, data: seq<byte>, from: nat, to: nat)
    requires offset + |data| <= |d| && from <= to <= |d|
    ensures offset <= from && to <= offset + |data| ==> Write(d, Extent(offset, data))[from..to] == data[from - offset..to - offset]
    ensures to <= offset || offset + |data| <= from ==> Write(d, Extent(offset, data))[from..to] == d[from..to]
  {
  }

  // bdrv_pread after bdrv_pwrite returns what was written, and other bytes as they were.
  method ReadBack(dev: Device, offset: nat, data: seq<byte>, from: nat, count: nat) returns (wrote: int, read: int, buf: seq<byte>)
    requires dev.Valid() && data != []
    modifies dev
    ensures wrote == |data| && read == count > 0 ==> offset + |data| <= |old(dev.disk)| && from + count <= |old(dev.disk)|
    ensures wrote == |data| && read == count > 0 && offset <= from && from + count <= offset + |data| ==>
              buf == data[from - offset..from + count - offset]
    ensures wrote == |data| && read == count > 0 && (from + count <= offset || offset + |data| <= from) ==>
              buf == old(dev.disk)[from..from + count]
    ensures offset + |data| <= |old(dev.disk)| && from + count <= |old(dev.disk)| && dev.Clean(old(dev.ops), dev.ops) ==>
              wrote == |data| && read == count
  {
    wrote := dev.Pwrite(offset, data);
    read, buf := dev.Pread(from, count);
    if wrote == |data| && read == count > 0 {
      ReadAfterWrite(old(dev.disk), offset, data, from, from + count);
    }
  }
}
