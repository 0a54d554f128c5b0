/** Dirty tracking of a block device: one bit a chunk, and a count of the set bits. */
module DirtyBitmap {
  import opened Words
  import opened Bitmap
  import opened Disk

  // Division as C does it, towards zero.
  function Truncated(x: int): int { if x >= 0 then x / CHUNK else -(-x / CHUNK) }

  // The number of set bits before n.
  function CountTo(words: seq<Word>, n: nat): nat
    requires n <= BITS * |words|
  {
    if n == 0 then 0 else CountTo(words, n - 1) + if Bit(words, n - 1) then 1 else 0
  }

  function Count(words: seq<Word>): nat { CountTo(words, BITS * |words|) }

  ghost function DirtyBelow(words: seq<Word>, n: nat): set<nat>
    requires n <= BITS * |words|
  {
    set c: nat | c < n && Bit(words, c)
  }

  // The count is the number of dirty chunks.
  lemma {:induction false} CountIs(words: seq<Word>, n: nat)
    requires n <= BITS * |words|
    ensures CountTo(words, n) == |DirtyBelow(words, n)|
  {
    if n > 0 {
      CountIs(words, n - 1);
      assert DirtyBelow(words, n) == DirtyBelow(words, n - 1) + if Bit(words, n - 1) then {n - 1} else {};
    } else {
      assert DirtyBelow(words, n) == {};
    }
  }

  // Assigning one bit changes the count by one if the bit changes.
  lemma {:induction false} CountAssigned(was: seq<Word>, words: seq<Word>, i: nat, v: bool, n: nat)
    requires Assigned(was, words, i, i + 1, v) && n <= BITS * |was| && i < BITS * |was|
    ensures CountTo(words, n) == CountTo(was, n) + if i < n && Bit(was, i) != v then (if v then 1 else -1) else 0
  {
    if n > 0 {
      CountAssigned(was, words, i, v, n - 1);
    }
  }

  lemma {:induction false} CountZero(words: seq<Word>, n: nat)
    requires n <= BITS * |words| && forall i: nat :: i < BITS * |words| ==> !Bit(words, i)
    ensures CountTo(words, n) == 0
  {
    if n > 0 {
      CountZero(words, n - 1);
    }
  }

  lemma TestBit(w: Word, b: nat)
    requires b < BITS
    ensures And(w, Shl(ONE, b)) != ZERO <==> w[b]
  {
    var t := And(w, Shl(ONE, b));
    assert t[b] == w[b];
    if !w[b] {
      assert forall j :: 0 <= j < BITS ==> !t[j];
      assert t == ZERO;
    }
  }

  lemma BitMask(p: nat, b: nat, i: nat)
    requires b < BITS && i == BITS * p + b
    ensures Mask(Shl(ONE, b), p, i, i + 1)
  {
  }

  // ----- the size of a bitmap

  const WORD_BYTES: nat := 8

  // The bytes the code allocates for the bitmap of a device.
  function BitmapBytes(sectors: nat): nat {
    (sectors + CHUNK * 8 - 1) / (CHUNK * 8)
  }

  // The word that holds the bit of chunk c ends within so many bytes.
  predicate WordWithin(c: nat, bytes: nat) {
    WORD_BYTES * (c / BITS) + WORD_BYTES <= bytes
  }

  lemma BytesOfChunks(sectors: nat)
    ensures BitmapBytes(sectors) == (Chunks(sectors) + 7) / 8
  {
    var q, r := sectors / (CHUNK * 8), sectors % (CHUNK * 8);
    assert sectors == CHUNK * 8 * q + r;
    assert Chunks(sectors) == 8 * q + (r + CHUNK - 1) / CHUNK;
  }

  // Bits are reached by whole words: every one of them lies within the allocation if and
  // only if the last word does, that is if the chunks fill it or nearly do.
  lemma AllocationSuffices(sectors: nat)
    ensures (forall c: nat :: c < Chunks(sectors) ==> WordWithin(c, BitmapBytes(sectors))) <==>
            Chunks(sectors) % BITS == 0 || Chunks(sectors) % BITS > BITS - 8
  {
    BytesOfChunks(sectors);
    var n := Chunks(sectors);
    if n > 0 {
      assert forall c: nat :: c < n ==> c / BITS <= (n - 1) / BITS;
      assert (forall c: nat :: c < n ==> WordWithin(c, BitmapBytes(sectors))) <==> WordWithin(n - 1, BitmapBytes(sectors)) by {
        if WordWithin(n - 1, BitmapBytes(sectors)) {
          forall c: nat | c < n ensures WordWithin(c, BitmapBytes(sectors)) { }
        }
      }
    }
  }

  // A device of one chunk: one byte for a word of eight.
  lemma AllocationShort()
    ensures Chunks(1) == 1 && BitmapBytes(1) == 1 && !WordWithin(0, BitmapBytes(1))
  {
  }

  class BlockDevice {
    const sectors: nat
    var bitmap: array?<Word>
    var dirtyCount: int

    // Room for every chunk of the device.
    ghost predicate Valid()
      reads this
    {
      bitmap != null ==> Chunks(sectors) <= BITS * bitmap.Length
    }

    ghost predicate Accurate()
      reads this, bitmap
    {
      dirtyCount == if bitmap == null then 0 else Count(bitmap[..])
    }

    constructor (sectors: nat)
      ensures Valid() && Accurate() && bitmap == null && this.sectors == sectors
    {
      this.sectors, bitmap, dirtyCount := sectors, null, 0;
    }

    // The count is right afterwards unless tracking was on already with something dirty.
    method SetDirtyTracking(enable: bool)
      requires Valid()
      modifies this
      ensures Valid() && (bitmap != null <==> enable) && dirtyCount == 0
      ensures enable && old(bitmap) == null ==> fresh(bitmap) && forall i: nat :: i < BITS * bitmap.Length ==> !Bit(bitmap[..], i)
      ensures enable && old(bitmap) != null ==> bitmap == old(bitmap)
      ensures Accurate() <==> !enable || old(bitmap) == null || Count(old(bitmap)[..]) == 0
    {
      dirtyCount := 0;
      if enable {
        if bitmap == null {
          var bytes := BitmapBytes(sectors);
          bitmap := new Word[(bytes + WORD_BYTES - 1) / WORD_BYTES](_ => ZERO);
          CountZero(bitmap[..], BITS * bitmap.Length);
        }
      } else {
        bitmap := null;
      }
    }

    method MarkChunk(c: nat, dirty: bool)
      requires bitmap != null && c < BITS * bitmap.Length
      modifies this`dirtyCount, bitmap
      ensures Assigned(old(bitmap[..]), bitmap[..], c, c + 1, dirty)
      ensures dirtyCount - old(dirtyCount) == Count(bitmap[..]) - old(Count(bitmap[..]))
    {
      var idx, bit := c / BITS, c % BITS;
      var val, mask := bitmap[idx], Shl(ONE, bit);
      ghost var words := bitmap[..];
      TestBit(val, bit);
      BitMask(idx, bit, c);
      OrMask(words, idx, mask, c, c + 1);
      AndNotMask(words, idx, mask, c, c + 1);
      if dirty {
        if And(val, mask) == ZERO {
          dirtyCount := dirtyCount + 1;
          val := Or(val, mask);
        }
      } else {
        if And(val, mask) != ZERO {
          dirtyCount := dirtyCount - 1;
          val := And(val, Not(mask));
        }
      }
      bitmap[idx] := val;
      assert Assigned(words, bitmap[..], c, c + 1, dirty);
      CountAssigned(words, bitmap[..], c, dirty, BITS * |words|);
    }

    // set_dirty_bitmap: exactly the chunks from the first to the last sector change, and
    // the count follows. An empty range rounds like the code.
    method SetDirtyBitmap(sector: nat, n: nat, dirty: bool)
      requires bitmap != null && Truncated(sector + n - 1) < BITS * bitmap.Length
      modifies this`dirtyCount, bitmap
      ensures Assigned(old(bitmap[..]), bitmap[..], sector / CHUNK, Truncated(sector + n - 1) + 1, dirty)
      ensures old(Accurate()) ==> Accurate()
    {
      var start, end := sector / CHUNK, Truncated(sector + n - 1);
      ghost var first := start;
      while start <= end
        invariant first <= start && (start <= end + 1 || start == first)
        invariant Assigned(old(bitmap[..]), bitmap[..], first, start, dirty)
        invariant old(Accurate()) ==> Accurate()
        decreases end - start
      {
        ghost var words := bitmap[..];
        MarkChunk(start, dirty);
        AssignedMore(old(bitmap[..]), words, bitmap[..], first, start, start + 1, dirty);
        start := start + 1;
      }
    }

    // bdrv_get_dirty
    method GetDirty(sector: nat) returns (dirty: bool)
      requires Valid()
      ensures dirty <==> bitmap != null && sector < sectors && Bit(bitmap[..], sector / CHUNK)
    {
      var chunk := sector / CHUNK;
      if bitmap != null && sector < sectors {
        TestBit(bitmap[chunk / BITS], chunk % BITS);
        dirty := And(bitmap[chunk / BITS], Shl(ONE, chunk % BITS)) != ZERO;
      } else {
        dirty := false;
      }
    }
  }
}
