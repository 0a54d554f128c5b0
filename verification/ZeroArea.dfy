/** bitmap_find_next_zero_area: the first aligned run of clear bits. */
module ZeroArea {
  import opened Words
  import opened Bitmap

  // x & ~m
  function AndNot(x: nat, m: nat): nat {
    if x == 0 then 0 else (if x % 2 == 1 && m % 2 == 0 then 1 else 0) + 2 * AndNot(x / 2, m / 2)
  }

  // It is what the operators do to the words of x and m.
  lemma {:induction false} AndNotBits(w: seq<bool>, v: seq<bool>, r: seq<bool>)
    requires |w| == |v| == |r| && forall j :: 0 <= j < |w| ==> r[j] == (w[j] && !v[j])
    ensures Value(r) == AndNot(Value(w), Value(v))
  {
    if w != [] {
      AndNotBits(w[1..], v[1..], r[1..]);
    }
  }

  lemma AndNotWords(w: Word, v: Word)
    ensures Value(And(w, Not(v))) == AndNot(Value(w), Value(v))
  {
    AndNotBits(w, v, And(w, Not(v)));
  }

  // x with its low a bits cleared.
  function ClearLow(x: nat, a: nat): nat {
    if a == 0 then x else 2 * ClearLow(x / 2, a - 1)
  }

  function Times(m: int, q: int): int { m * q }

  ghost predicate Multiple(x: int, m: int) { exists q :: x == Times(m, q) }

  lemma {:induction false} ClearLowIs(x: nat, a: nat)
    ensures ClearLow(x, a) <= x < ClearLow(x, a) + Pow2(a) && Multiple(ClearLow(x, a), Pow2(a))
  {
    if a == 0 {
      assert x == Times(Pow2(a), x);
    } else {
      ClearLowIs(x / 2, a - 1);
      var q :| ClearLow(x / 2, a - 1) == Times(Pow2(a - 1), q);
      assert ClearLow(x, a) == 2 * (Pow2(a - 1) * q) == Times(Pow2(a), q);
    }
  }

  lemma {:induction false} AndNotZero(x: nat)
    ensures AndNot(x, 0) == x
  {
    if x > 0 {
      AndNotZero(x / 2);
    }
  }

  lemma {:induction false} ClearMask(x: nat, a: nat)
    ensures AndNot(x, Pow2(a) - 1) == ClearLow(x, a)
  {
    if a == 0 {
      AndNotZero(x);
    } else {
      ClearMask(x / 2, a - 1);
      assert (Pow2(a) - 1) / 2 == Pow2(a - 1) - 1;
    }
  }

  // Masking a word with the complement of the low a bits clears them.
  lemma ClearWord(w: Word, a: nat)
    requires a <= BITS
    ensures Value(And(w, Not(Low(a)))) == ClearLow(Value(w), a)
  {
    AndNotWords(w, Low(a));
    ValueOnes(Low(a), a);
    ClearMask(Value(w), a);
  }

  // ALIGN_MASK with mask 2^a - 1.
  function Align(x: nat, a: nat): nat { ClearLow(x + Pow2(a) - 1, a) }

  lemma Ordered(m: int, p: int, q: int)
    requires m > 0 && m * p < m * q + m
    ensures p <= q
  {
    assert m * (q + 1) == m * q + m;
    Smaller(m, p, q + 1);
  }

  lemma Smaller(m: int, p: int, q: int)
    requires m > 0 && m * p < m * q
    ensures p < q
  {
  }

  // Align rounds up to the least multiple.
  lemma AlignIs(x: nat, a: nat)
    ensures x <= Align(x, a) && Multiple(Align(x, a), Pow2(a))
    ensures forall i :: x <= i && Multiple(i, Pow2(a)) ==> Align(x, a) <= i
  {
    var r, m := Align(x, a), Pow2(a);
    ClearLowIs(x + m - 1, a);
    var p :| r == Times(m, p);
    forall i | x <= i && Multiple(i, m) ensures r <= i {
      var q :| i == Times(m, q);
      Ordered(m, p, q);
      Monotone(m, p, q);
    }
  }

  lemma Monotone(m: int, p: int, q: int)
    requires m > 0 && p <= q
    ensures m * p <= m * q
  {
  }

  // n clear bits from i on.
  ghost predicate Clear(words: seq<Word>, i: nat, n: nat) {
    i + n <= BITS * |words| && forall j :: i <= j < i + n ==> !Bit(words, j)
  }

  // An aligned area that may be returned.
  ghost predicate Suitable(words: seq<Word>, size: nat, start: nat, nr: nat, a: nat, i: nat) {
    start <= i && Multiple(i, Pow2(a)) && i + nr <= size && Clear(words, i, nr)
  }

  // Nothing suitable lies below the aligned first clear bit ...
  lemma NotBefore(words: seq<Word>, size: nat, start: nat, nr: nat, a: nat, z: nat, i: nat)
    requires nr > 0 && FirstFrom(words, size, start, false, z) && Suitable(words, size, start, nr, a, i)
    ensures Align(z, a) <= i
  {
    assert !Bit(words, i);
    AlignIs(z, a);
  }

  // ... nor up to a set bit within reach of it.
  lemma NotAround(words: seq<Word>, size: nat, start: nat, nr: nat, a: nat, index: nat, b: nat, i: nat)
    requires Suitable(words, size, start, nr, a, i) && index <= i && index <= b < index + nr
    requires b < BITS * |words| && Bit(words, b)
    ensures b < i
  {
  }

  method FindNextZeroArea(addr: array<Word>, size: nat, start: nat, nr: nat, alignMask: nat, ghost a: nat) returns (r: nat)
    requires size <= BITS * addr.Length && alignMask == Pow2(a) - 1
    ensures nr > 0 && r <= size ==>
              && Suitable(addr[..], size, start, nr, a, r)
              && forall i: nat :: Suitable(addr[..], size, start, nr, a, i) ==> r <= i
    ensures nr > 0 && r > size ==> forall i: nat :: !Suitable(addr[..], size, start, nr, a, i)
  {
    var from := start;
    while true
      invariant start <= from
      invariant nr > 0 ==> forall i: nat :: Suitable(addr[..], size, start, nr, a, i) ==> from <= i
      decreases size - from
    {
      var z := FindNextZeroBit(addr, size, from);
      AlignIs(z, a);
      ClearMask(z + alignMask, a);
      var index := AndNot(z + alignMask, alignMask);
      forall i: nat | nr > 0 && Suitable(addr[..], size, start, nr, a, i) ensures index <= i {
        NotBefore(addr[..], size, from, nr, a, z, i);
      }
      var end := index + nr;
      if end > size {
        return end;
      }
      var b := FindNextBit(addr, end, index);
      if b < end {
        forall i: nat | Suitable(addr[..], size, start, nr, a, i) ensures b < i {
          NotAround(addr[..], size, start, nr, a, index, b, i);
        }
        from := b + 1;
      } else {
        return index;
      }
    }
  }
}
