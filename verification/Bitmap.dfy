/** Bitmaps over arrays of words: scans, fills and the search for a free area. */
module Bitmap {
  import opened Words

  predicate Bit(words: seq<Word>, i: nat)
    requires i < BITS * |words|
  {
    words[i / BITS][i % BITS]
  }

  // r is the first position at or after offset, before size, with a bit of value v; or size.
  ghost predicate FirstFrom(words: seq<Word>, size: nat, offset: nat, v: bool, r: nat) {
    && size <= BITS * |words|
    && (if offset >= size then r == size
        else
          && offset <= r <= size
          && (forall j :: offset <= j < r ==> Bit(words, j) != v)
          && (r < size ==> Bit(words, r) == v))
  }

  // No bit of value v from offset up to word p.
  ghost predicate NoneBefore(words: seq<Word>, offset: nat, v: bool, p: nat) {
    p <= |words| && forall j :: offset <= j < BITS * p ==> Bit(words, j) != v
  }

  lemma InWord(words: seq<Word>, p: nat, b: nat)
    requires p < |words| && b < BITS
    ensures Bit(words, BITS * p + b) == words[p][b]
  {
  }

  // The first position of word p from offset on is the first of all.
  lemma FoundIn(words: seq<Word>, size: nat, offset: nat, v: bool, p: nat, b: nat)
    requires NoneBefore(words, offset, v, p) && p < |words| && b < BITS && size <= BITS * |words|
    requires offset <= BITS * p + b < size && words[p][b] == v
    requires forall j :: 0 <= j < b && offset <= BITS * p + j ==> words[p][j] != v
    ensures FirstFrom(words, size, offset, v, BITS * p + b)
  {
    forall j | offset <= j < BITS * p + b ensures Bit(words, j) != v {
      if j >= BITS * p {
        InWord(words, p, j - BITS * p);
      }
    }
    InWord(words, p, b);
  }

  // Word p ends without a position, and so does the scan if it is the last.
  lemma NoneIn(words: seq<Word>, offset: nat, v: bool, p: nat, q: nat)
    requires NoneBefore(words, offset, v, p) && p < |words| && q == p + 1
    requires forall j :: 0 <= j < BITS && offset <= BITS * p + j ==> words[p][j] != v
    ensures NoneBefore(words, offset, v, q)
  {
    forall j | offset <= j < BITS * q ensures Bit(words, j) != v {
      if j >= BITS * p {
        InWord(words, p, j - BITS * p);
      }
    }
  }

  lemma NoneAtAll(words: seq<Word>, size: nat, offset: nat, v: bool, p: nat)
    requires NoneBefore(words, offset, v, p) && offset < size <= BITS * |words| && BITS * p <= size < BITS * p + BITS
    requires size > BITS * p ==> p < |words| && forall j :: 0 <= j < size - BITS * p && offset <= BITS * p + j ==> words[p][j] != v
    ensures FirstFrom(words, size, offset, v, size)
  {
    forall j | offset <= j < size ensures Bit(words, j) != v {
      if j >= BITS * p {
        InWord(words, p, j - BITS * p);
      }
    }
  }

  // ----- find_next_bit

  // tmp is word p without what comes before offset.
  ghost predicate Masked(words: seq<Word>, offset: nat, p: nat, tmp: Word) {
    p < |words| && forall j :: 0 <= j < BITS ==> tmp[j] == (words[p][j] && offset <= BITS * p + j)
  }

  method FoundMiddle(ghost words: seq<Word>, ghost size: nat, ghost offset: nat, ghost p: nat, result: nat, tmp: Word)
    returns (r: nat)
    requires NoneBefore(words, offset, true, p) && Masked(words, offset, p, tmp) && tmp != ZERO
    requires result == BITS * p && result + BITS <= size <= BITS * |words|
    ensures FirstFrom(words, size, offset, true, r)
  {
    var n := Ffsl(tmp);
    FoundIn(words, size, offset, true, p, n);
    r := result + n;
  }

  method FoundFirst(ghost words: seq<Word>, ghost size: nat, ghost offset: nat, ghost p: nat, result: nat, left: nat, tmp: Word)
    returns (r: nat)
    requires NoneBefore(words, offset, true, p) && Masked(words, offset, p, tmp) && offset < size
    requires result == BITS * p && result + left == size <= BITS * |words| && 0 < left < BITS
    ensures FirstFrom(words, size, offset, true, r)
  {
    var t := And(tmp, Shr(ONES, BITS - left));
    if t == ZERO {
      forall j | 0 <= j < left && offset <= BITS * p + j ensures !words[p][j] {
        assert !t[j];
      }
      NoneAtAll(words, size, offset, true, p);
      return result + left;
    }
    var n := Ffsl(t);
    forall j | 0 <= j < n && offset <= BITS * p + j ensures !words[p][j] {
      assert !t[j];
    }
    FoundIn(words, size, offset, true, p, n);
    r := result + n;
  }

  method FindNextBit(addr: array<Word>, size: nat, offset: nat) returns (r: nat)
    requires size <= BITS * addr.Length
    ensures FirstFrom(addr[..], size, offset, true, r)
  {
    if offset >= size {
      return size;
    }
    var p, result, k := offset / BITS, offset / BITS * BITS, offset % BITS;
    var left: nat := size - result;
    if k != 0 {
      var tmp := And(addr[p], Shl(ONES, k));
      if left < BITS {
        r := FoundFirst(addr[..], size, offset, p, result, left, tmp);
        return;
      }
      if tmp != ZERO {
        r := FoundMiddle(addr[..], size, offset, p, result, tmp);
        return;
      }
      forall j | 0 <= j < BITS && offset <= BITS * p + j ensures !addr[p][j] {
        assert !tmp[j];
      }
      NoneIn(addr[..], offset, true, p, p + 1);
      p, left, result := p + 1, left - BITS, result + BITS;
    }
    while left >= BITS
      invariant offset <= result == BITS * p && result + left == size
      invariant NoneBefore(addr[..], offset, true, p)
    {
      var tmp := addr[p];
      if tmp != ZERO {
        r := FoundMiddle(addr[..], size, offset, p, result, tmp);
        return;
      }
      NoneIn(addr[..], offset, true, p, p + 1);
      p, left, result := p + 1, left - BITS, result + BITS;
    }
    if left == 0 {
      NoneAtAll(addr[..], size, offset, true, p);
      return result;
    }
    r := FoundFirst(addr[..], size, offset, p, result, left, addr[p]);
  }

  // ----- find_next_zero_bit

  // tmp is word p with ones before offset.
  ghost predicate Filled(words: seq<Word>, offset: nat, p: nat, tmp: Word) {
    p < |words| && forall j :: 0 <= j < BITS ==> tmp[j] == (words[p][j] || BITS * p + j < offset)
  }

  method FoundMiddleZero(ghost words: seq<Word>, ghost size: nat, ghost offset: nat, ghost p: nat, result: nat, tmp: Word)
    returns (r: nat)
    requires NoneBefore(words, offset, false, p) && Filled(words, offset, p, tmp) && tmp != ONES
    requires result == BITS * p && result + BITS <= size <= BITS * |words|
    ensures FirstFrom(words, size, offset, false, r)
  {
    var n := Ffz(tmp);
    FoundIn(words, size, offset, false, p, n);
    r := result + n;
  }

  method FoundFirstZero(ghost words: seq<Word>, ghost size: nat, ghost offset: nat, ghost p: nat, result: nat, left: nat, tmp: Word)
    returns (r: nat)
    requires NoneBefore(words, offset, false, p) && Filled(words, offset, p, tmp) && offset < size
    requires result == BITS * p && result + left == size <= BITS * |words| && 0 < left < BITS
    ensures FirstFrom(words, size, offset, false, r)
  {
    var t := Or(tmp, Shl(ONES, left));
    if t == ONES {
      forall j | 0 <= j < left && offset <= BITS * p + j ensures words[p][j] {
        assert t[j];
      }
      NoneAtAll(words, size, offset, false, p);
      return result + left;
    }
    var n := Ffz(t);
    forall j | 0 <= j < n && offset <= BITS * p + j ensures words[p][j] {
      assert t[j];
    }
    FoundIn(words, size, offset, false, p, n);
    r := result + n;
  }

  method FindNextZeroBit(addr: array<Word>, size: nat, offset: nat) returns (r: nat)
    requires size <= BITS * addr.Length
    ensures FirstFrom(addr[..], size, offset, false, r)
  {
    if offset >= size {
      return size;
    }
    var p, result, k := offset / BITS, offset / BITS * BITS, offset % BITS;
    var left: nat := size - result;
    if k != 0 {
      var tmp := Or(addr[p], Shr(ONES, BITS - k));
      if left < BITS {
        r := FoundFirstZero(addr[..], size, offset, p, result, left, tmp);
        return;
      }
      if Not(tmp) != ZERO {
        assert tmp != ONES;
        r := FoundMiddleZero(addr[..], size, offset, p, result, tmp);
        return;
      }
      forall j | 0 <= j < BITS && offset <= BITS * p + j ensures addr[p][j] {
        assert !Not(tmp)[j];
      }
      NoneIn(addr[..], offset, false, p, p + 1);
      p, left, result := p + 1, left - BITS, result + BITS;
    }
    while left >= BITS
      invariant offset <= result == BITS * p && result + left == size
      invariant NoneBefore(addr[..], offset, false, p)
    {
      var tmp := addr[p];
      if Not(tmp) != ZERO {
        assert tmp != ONES;
        r := FoundMiddleZero(addr[..], size, offset, p, result, tmp);
        return;
      }
      forall j | 0 <= j < BITS ensures addr[p][j] {
        assert !Not(tmp)[j];
      }
      NoneIn(addr[..], offset, false, p, p + 1);
      p, left, result := p + 1, left - BITS, result + BITS;
    }
    if left == 0 {
      NoneAtAll(addr[..], size, offset, false, p);
      return result;
    }
    r := FoundFirstZero(addr[..], size, offset, p, result, left, addr[p]);
  }

  // ----- find_last_bit

  // r is the last set bit before size, or size.
  ghost predicate LastBefore(words: seq<Word>, size: nat, r: nat) {
    && size <= BITS * |words|
    && (r == size || (r < size && Bit(words, r)))
    && forall j :: 0 <= j < size && (r == size || r < j) ==> !Bit(words, j)
  }

  ghost predicate NoneFrom(words: seq<Word>, size: nat, p: nat) {
    size <= BITS * |words| && forall j :: BITS * p <= j < size ==> !Bit(words, j)
  }

  // tmp is word p up to size.
  method FoundLast(ghost words: seq<Word>, ghost size: nat, p: nat, tmp: Word) returns (r: nat)
    requires p < |words| && tmp != ZERO && NoneFrom(words, size, p + 1)
    requires forall j :: 0 <= j < BITS ==> tmp[j] == (words[p][j] && BITS * p + j < size)
    ensures LastBefore(words, size, r)
  {
    var n := Flsl(tmp);
    r := p * BITS + n;
    forall j | r < j < size ensures !Bit(words, j) {
      if j < BITS * (p + 1) {
        InWord(words, p, j - BITS * p);
        assert !tmp[j - BITS * p];
      }
    }
    InWord(words, p, n);
  }

  lemma NoneFromDown(words: seq<Word>, size: nat, p: nat, q: nat)
    requires p < |words| && q == p + 1 && NoneFrom(words, size, q)
    requires forall j :: 0 <= j < BITS && BITS * p + j < size ==> !words[p][j]
    ensures NoneFrom(words, size, p)
  {
    forall j | BITS * p <= j < size ensures !Bit(words, j) {
      if j < BITS * q {
        InWord(words, p, j - BITS * p);
      }
    }
  }

  method FindLastBit(addr: array<Word>, size: nat) returns (r: nat)
    requires size <= BITS * addr.Length
    ensures LastBefore(addr[..], size, r)
  {
    var words: nat, tail := size / BITS, size % BITS;
    if tail != 0 {
      var tmp := And(addr[words], Shr(ONES, BITS - tail));
      if tmp != ZERO {
        r := FoundLast(addr[..], size, words, tmp);
        return;
      }
      forall j | 0 <= j < BITS && BITS * words + j < size ensures !addr[words][j] {
        assert !tmp[j];
      }
      NoneFromDown(addr[..], size, words, words + 1);
    }
    while words != 0
      invariant words <= addr.Length && BITS * words <= size && NoneFrom(addr[..], size, words)
    {
      words := words - 1;
      var tmp := addr[words];
      if tmp != ZERO {
        r := FoundLast(addr[..], size, words, tmp);
        return;
      }
      NoneFromDown(addr[..], size, words, words + 1);
    }
    r := size;
  }

  // ----- bitmap_set and bitmap_clear

  // The bits from lo up to hi are v, the others as they were.
  ghost predicate Assigned(was: seq<Word>, words: seq<Word>, lo: nat, hi: nat, v: bool) {
    && |words| == |was|
    && forall i: nat :: i < BITS * |was| ==> Bit(words, i) == if lo <= i < hi then v else Bit(was, i)
  }

  lemma AssignedMore(was: seq<Word>, words: seq<Word>, words': seq<Word>, lo: nat, mid: nat, hi: nat, v: bool)
    requires Assigned(was, words, lo, mid, v) && Assigned(words, words', mid, hi, v) && lo <= mid <= hi
    ensures Assigned(was, words', lo, hi, v)
  {
  }

  // mask holds the bits of word p from lo up to hi.
  ghost predicate Mask(mask: Word, p: nat, lo: nat, hi: nat) {
    && BITS * p <= lo <= hi <= BITS * p + BITS
    && forall j :: 0 <= j < BITS ==> mask[j] == (lo - BITS * p <= j && j < hi - BITS * p)
  }

  lemma OrMask(words: seq<Word>, p: nat, mask: Word, lo: nat, hi: nat)
    requires p < |words| && Mask(mask, p, lo, hi)
    ensures Assigned(words, words[p := Or(words[p], mask)], lo, hi, true)
  {
  }

  lemma AndNotMask(words: seq<Word>, p: nat, mask: Word, lo: nat, hi: nat)
    requires p < |words| && Mask(mask, p, lo, hi)
    ensures Assigned(words, words[p := And(words[p], Not(mask))], lo, hi, false)
  {
  }

  function LastWordMask(n: nat): Word { if n % BITS != 0 then Low(n % BITS) else ONES }

  lemma FirstMask(start: nat)
    ensures Mask(Shl(ONES, start % BITS), start / BITS, start, start + (BITS - start % BITS))
  {
  }

  lemma FullMask(p: nat, lo: nat)
    requires lo == BITS * p
    ensures Mask(ONES, p, lo, lo + BITS)
  {
  }

  lemma LastMask(mask: Word, p: nat, lo: nat, hi: nat, size: nat)
    requires Mask(mask, p, lo, hi) && lo < size < hi == BITS * p + BITS
    ensures Mask(And(mask, LastWordMask(size)), p, lo, size)
  {
    assert size % BITS == size - BITS * p;
  }

  method SetWord(addr: array<Word>, p: nat, mask: Word, ghost lo: nat, ghost hi: nat)
    requires p < addr.Length && Mask(mask, p, lo, hi)
    modifies addr
    ensures Assigned(old(addr[..]), addr[..], lo, hi, true)
  {
    OrMask(addr[..], p, mask, lo, hi);
    addr[p] := Or(addr[p], mask);
  }

  method ClearWord(addr: array<Word>, p: nat, mask: Word, ghost lo: nat, ghost hi: nat)
    requires p < addr.Length && Mask(mask, p, lo, hi)
    modifies addr
    ensures Assigned(old(addr[..]), addr[..], lo, hi, false)
  {
    AndNotMask(addr[..], p, mask, lo, hi);
    addr[p] := And(addr[p], Not(mask));
  }

  method BitmapSet(addr: array<Word>, start: nat, nr: nat)
    requires start + nr <= BITS * addr.Length
    modifies addr
    ensures Assigned(old(addr[..]), addr[..], start, start + nr, true)
  {
    var p, left, size := start / BITS, nr, start + nr;
    var bits, mask := BITS - start % BITS, Shl(ONES, start % BITS);
    ghost var at: nat := start;
    FirstMask(start);
    while left - bits >= 0
      invariant at + left == size && at + bits == BITS * p + BITS && 0 < bits <= BITS && 0 <= left
      invariant Mask(mask, p, at, at + bits) && start <= at
      invariant Assigned(old(addr[..]), addr[..], start, at, true)
    {
      ghost var words := addr[..];
      SetWord(addr, p, mask, at, at + bits);
      AssignedMore(old(addr[..]), words, addr[..], start, at, at + bits, true);
      at, left := at + bits, left - bits;
      bits, mask, p := BITS, ONES, p + 1;
      FullMask(p, at);
    }
    if left != 0 {
      ghost var words := addr[..];
      LastMask(mask, p, at, at + bits, size);
      mask := And(mask, LastWordMask(size));
      SetWord(addr, p, mask, at, size);
      AssignedMore(old(addr[..]), words, addr[..], start, at, size, true);
    }
  }

  method BitmapClear(addr: array<Word>, start: nat, nr: nat)
    requires start + nr <= BITS * addr.Length
    modifies addr
    ensures Assigned(old(addr[..]), addr[..], start, start + nr, false)
  {
    var p, left, size := start / BITS, nr, start + nr;
    var bits, mask := BITS - start % BITS, Shl(ONES, start % BITS);
    ghost var at: nat := start;
    FirstMask(start);
    while left - bits >= 0
      invariant at + left == size && at + bits == BITS * p + BITS && 0 < bits <= BITS && 0 <= left
      invariant Mask(mask, p, at, at + bits) && start <= at
      invariant Assigned(old(addr[..]), addr[..], start, at, false)
    {
      ghost var words := addr[..];
      ClearWord(addr, p, mask, at, at + bits);
      AssignedMore(old(addr[..]), words, addr[..], start, at, at + bits, false);
      at, left := at + bits, left - bits;
      bits, mask, p := BITS, ONES, p + 1;
      FullMask(p, at);
    }
    if left != 0 {
      ghost var words := addr[..];
      LastMask(mask, p, at, at + bits, size);
      mask := And(mask, LastWordMask(size));
      ClearWord(addr, p, mask, at, size);
      AssignedMore(old(addr[..]), words, addr[..], start, at, size, false);
    }
  }
}
