/** Scatter-gather vectors: growing one by a buffer, and copying a stretch of one to the
    end of another. A segment is the bytes its base and length designate. */
module IoVector {
  import opened Bytes

  type Segments = seq<seq<byte>>

  function Flat(segs: Segments): seq<byte> {
    if segs == [] then [] else segs[0] + Flat(segs[1..])
  }

  lemma {:induction false} FlatAppend(a: Segments, b: Segments)
    ensures Flat(a + b) == Flat(a) + Flat(b)
  {
    if a == [] {
      assert a + b == b;
    } else {
      var c, rest := a + b, a[1..];
      assert c[0] == a[0] && c[1..] == rest + b;
      FlatAppend(rest, b);
      Associative(a[0], Flat(rest), Flat(b));
    }
  }

  lemma Associative<T>(x: seq<T>, y: seq<T>, z: seq<T>)
    ensures x + (y + z) == (x + y) + z
  {
  }

  // Up to size bytes of s after the first skip bytes.
  function Cut(s: seq<byte>, skip: nat, size: nat): seq<byte> {
    if |s| <= skip then [] else if |s| - skip <= size then s[skip..] else s[skip..skip + size]
  }

  // The segments qemu_iovec_copy appends.
  function Copied(segs: Segments, skip: nat, size: nat): (r: Segments)
    ensures |r| <= |segs|
  {
    if segs == [] || size == 0 then []
    else if skip >= |segs[0]| then Copied(segs[1..], skip - |segs[0]|, size)
    else
      var s := segs[0][skip..];
      if |s| > size then [s[..size]] else [s] + Copied(segs[1..], 0, size - |s|)
  }

  lemma CutSkip(t: seq<byte>, rest: seq<byte>, skip: nat, size: nat)
    requires skip >= |t|
    ensures Cut(t + rest, skip, size) == Cut(rest, skip - |t|, size)
  {
  }

  lemma CutTake(t: seq<byte>, rest: seq<byte>, skip: nat, size: nat)
    requires skip < |t|
    ensures Cut(t + rest, skip, size)
         == if |t| - skip > size then t[skip..][..size] else t[skip..] + Cut(rest, 0, size - (|t| - skip))
  {
  }

  // They hold the bytes asked for.
  lemma {:induction false} CopiedBytes(segs: Segments, skip: nat, size: nat)
    ensures Flat(Copied(segs, skip, size)) == Cut(Flat(segs), skip, size)
  {
    if segs != [] && size > 0 {
      var t, rest := segs[0], segs[1..];
      if skip >= |t| {
        CopiedBytes(rest, skip - |t|, size);
        CutSkip(t, Flat(rest), skip, size);
      } else {
        CutTake(t, Flat(rest), skip, size);
        if |t| - skip <= size {
          CopiedBytes(rest, 0, size - (|t| - skip));
        }
      }
    }
  }

  class Vector {
    var iov: Segments
    var nalloc: nat
    var size: nat

    ghost predicate Valid()
      reads this
    {
      |iov| <= nalloc && size == |Flat(iov)|
    }

    constructor (hint: nat)
      ensures Valid() && iov == []
    {
      iov, nalloc, size := [], hint, 0;
    }

    method Add(base: seq<byte>)
      requires Valid()
      modifies this
      ensures Valid() && iov == old(iov) + [base] && nalloc >= old(nalloc)
    {
      if |iov| == nalloc {
        nalloc := 2 * nalloc + 1;
      }
      FlatAppend(iov, [base]);
      iov := iov + [base];
      size := size + |base|;
    }

    method Copy(src: Vector, skip: nat, size: nat)
      requires Valid() && src != this
      modifies this
      ensures Valid() && iov == old(iov) + Copied(src.iov, skip, size)
    {
      var i, done, left := 0, 0, skip;
      assert src.iov[0..] == src.iov;
      while i < |src.iov| && done != size
        invariant 0 <= i <= |src.iov| && 0 <= done <= size && left >= 0
        invariant Valid() && iov + Copied(src.iov[i..], left, size - done) == old(iov) + Copied(src.iov, skip, size)
      {
        var s := src.iov[i];
        assert src.iov[i..][1..] == src.iov[i + 1..];
        i := i + 1;
        if left >= |s| {
          left := left - |s|;
          continue;
        }
        s, left := s[left..], 0;
        if done + |s| > size {
          Add(s[..size - done]);
          return;
        }
        ghost var rest := Copied(src.iov[i..], 0, size - done - |s|);
        assert iov + ([s] + rest) == (iov + [s]) + rest;
        Add(s);
        done := done + |s|;
      }
    }
  }
}
