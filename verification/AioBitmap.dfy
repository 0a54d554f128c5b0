/** The bitmap of chunks with a read in flight that a migrating device keeps. */
module AioBitmap {
  import opened Words
  import opened Bitmap
  import opened Disk
  import opened DirtyBitmap

  class Inflight {
    const sectors: nat
    const bitmap: array<Word>

    ghost predicate Valid()
      reads this
    {
      Chunks(sectors) <= BITS * bitmap.Length
    }

    // alloc_aio_bitmap
    constructor (sectors: nat)
      ensures Valid() && this.sectors == sectors && fresh(bitmap)
      ensures forall i: nat :: i < BITS * bitmap.Length ==> !Bit(bitmap[..], i)
    {
      this.sectors := sectors;
      var bytes := BitmapBytes(sectors);
      bitmap := new Word[(bytes + WORD_BYTES - 1) / WORD_BYTES](_ => ZERO);
    }

    // bmds_aio_inflight
    method IsInflight(sector: nat) returns (r: bool)
      requires Valid()
      ensures r <==> sector < sectors && Bit(bitmap[..], sector / CHUNK)
    {
      var chunk := sector / CHUNK;
      if sector < sectors {
        TestBit(bitmap[chunk / BITS], chunk % BITS);
        r := And(bitmap[chunk / BITS], Shl(ONE, chunk % BITS)) != ZERO;
      } else {
        r := false;
      }
    }

    method SetChunk(c: nat, inflight: bool)
      requires c < BITS * bitmap.Length
      modifies bitmap
      ensures Assigned(old(bitmap[..]), bitmap[..], c, c + 1, inflight)
    {
      var idx, bit := c / BITS, c % BITS;
      BitMask(idx, bit, c);
      if inflight {
        SetWord(bitmap, idx, Shl(ONE, bit), c, c + 1);
      } else {
        ClearWord(bitmap, idx, Shl(ONE, bit), c, c + 1);
      }
    }

    // bmds_set_aio_inflight: exactly the chunks from the first to the last sector change.
    method SetInflight(sector: nat, n: nat, inflight: bool)
      requires Truncated(sector + n - 1) < BITS * bitmap.Length
      modifies bitmap
      ensures Assigned(old(bitmap[..]), bitmap[..], sector / CHUNK, Truncated(sector + n - 1) + 1, inflight)
    {
      var start, end := sector / CHUNK, Truncated(sector + n - 1);
      ghost var first := start;
      while start <= end
        invariant first <= start && (start <= end + 1 || start == first)
        invariant Assigned(old(bitmap[..]), bitmap[..], first, start, inflight)
        decreases end - start
      {
        ghost var words, next := bitmap[..], start + 1;
        SetChunk(start, inflight);
        AssignedMore(old(bitmap[..]), words, bitmap[..], first, start, next, inflight);
        start := start + 1;
      }
    }

    // The read of one chunk marks that chunk and no other.
    lemma OneChunk(was: seq<Word>, words: seq<Word>, sector: nat, n: nat, inflight: bool)
      requires sector % CHUNK == 0 && 0 < n <= CHUNK
      requires Assigned(was, words, sector / CHUNK, Truncated(sector + n - 1) + 1, inflight)
      ensures Assigned(was, words, sector / CHUNK, sector / CHUNK + 1, inflight)
    {
      assert Truncated(sector + n - 1) == sector / CHUNK;
    }
  }
}
