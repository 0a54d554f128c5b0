/** Machine words as sixty-four bits, least significant first, with the operators and the
    bit searches of the bit operations header. */
module Words {

  const BITS: nat := 64

  type Word = w: seq<bool> | |w| == BITS witness seq(BITS, _ => false)

  function And(a: Word, b: Word): Word { seq(BITS, j requires 0 <= j < BITS => a[j] && b[j]) }
  function Or(a: Word, b: Word): Word { seq(BITS, j requires 0 <= j < BITS => a[j] || b[j]) }
  function Not(a: Word): Word { seq(BITS, j requires 0 <= j < BITS => !a[j]) }
  function Shl(a: Word, n: nat): Word { seq(BITS, j requires 0 <= j < BITS => n <= j && a[j - n]) }
  function Shr(a: Word, n: nat): Word { seq(BITS, j requires 0 <= j < BITS => j + n < BITS && a[j + n]) }

  // The low n bits, for the masks 0x1 to 0xffffffff.
  function Low(n: nat): Word { seq(BITS, j => j < n) }

  const ZERO: Word := Low(0)
  const ONE: Word := Low(1)
  const ONES: Word := Low(BITS)

  // ----- the number a word stands for

  function Pow2(n: nat): (m: nat)
    ensures m > 0
  {
    if n == 0 then 1 else 2 * Pow2(n - 1)
  }

  function Value(w: seq<bool>): nat {
    if w == [] then 0 else (if w[0] then 1 else 0) + 2 * Value(w[1..])
  }

  lemma {:induction false} ValueOnes(w: seq<bool>, n: nat)
    requires n <= |w| && forall j :: 0 <= j < |w| ==> w[j] == (j < n)
    ensures Value(w) == Pow2(n) - 1
  {
    if w != [] {
      ValueOnes(w[1..], if n == 0 then 0 else n - 1);
    }
  }

  lemma {:induction false} ValueBit(w: seq<bool>, n: nat)
    requires n < |w| && forall j :: 0 <= j < |w| ==> w[j] == (j == n)
    ensures Value(w) == Pow2(n)
  {
    if n == 0 {
      ValueOnes(w[1..], 0);
    } else {
      ValueBit(w[1..], n - 1);
    }
  }

  // (1UL << n) - 1 is the word with the low n bits set.
  lemma LowIs(n: nat)
    requires n < BITS
    ensures Value(Low(n)) == Value(Shl(ONE, n)) - 1
  {
    ValueOnes(Low(n), n);
    ValueBit(Shl(ONE, n), n);
  }

  // ----- searching a word

  // word is w shifted down by num, and the first set bit of w is among the m from num on.
  ghost predicate LowAt(w: Word, word: Word, num: nat, m: nat) {
    && word == Shr(w, num)
    && (forall j :: 0 <= j < num && j < BITS ==> !w[j])
    && exists j :: num <= j < num + m && j < BITS && w[j]
  }

  // One step of bitops_ffsl: halve the stretch that holds the first set bit.
  method HalveLow(ghost w: Word, word: Word, num: nat, n: nat) returns (word': Word, num': nat)
    requires LowAt(w, word, num, 2 * n)
    ensures LowAt(w, word', num', n)
  {
    word', num' := word, num;
    if And(word, Low(n)) == ZERO {
      forall j | num <= j < num + n && j < BITS ensures !w[j] {
        assert !And(word, Low(n))[j - num];
      }
      word', num' := Shr(word, n), num + n;
      assert word' == Shr(w, num');
    } else {
      var k :| 0 <= k < BITS && And(word, Low(n))[k];
      assert w[num + k];
    }
  }

  method Ffsl(word: Word) returns (num: nat)
    requires word != ZERO
    ensures num < BITS && word[num] && forall j :: 0 <= j < num ==> !word[j]
  {
    var w := word;
    num := 0;
    assert Shr(w, 0) == w;
    assert exists j :: 0 <= j < BITS && word[j];
    w, num := HalveLow(word, w, num, 32);
    w, num := HalveLow(word, w, num, 16);
    w, num := HalveLow(word, w, num, 8);
    w, num := HalveLow(word, w, num, 4);
    w, num := HalveLow(word, w, num, 2);
    w, num := HalveLow(word, w, num, 1);
  }

  method Ffz(word: Word) returns (num: nat)
    requires word != ONES
    ensures num < BITS && !word[num] && forall j :: 0 <= j < num ==> word[j]
  {
    ghost var k :| 0 <= k < BITS && word[k] != ONES[k];
    assert Not(word)[k];
    num := Ffsl(Not(word));
    forall j | 0 <= j < num ensures word[j] {
      assert !Not(word)[j];
    }
  }

  // word is w shifted up so that bit num of w is on top, and the last set bit of w is among
  // the m up to num.
  ghost predicate HighAt(w: Word, word: Word, num: nat, m: nat) {
    && num < BITS && word == Shl(w, BITS - 1 - num)
    && (forall j :: num < j < BITS ==> !w[j])
    && exists j :: num - m < j <= num && 0 <= j && w[j]
  }

  // One step of bitops_flsl, with the mask ~0ul << (BITS_PER_LONG - n).
  method HalveHigh(ghost w: Word, word: Word, num: nat, n: nat) returns (word': Word, num': nat)
    requires HighAt(w, word, num, 2 * n) && 0 < n < BITS
    ensures HighAt(w, word', num', n)
  {
    word', num' := word, num;
    var mask := Shl(ONES, BITS - n);
    if And(word, mask) == ZERO {
      forall j | num - n < j <= num && 0 <= j ensures !w[j] {
        assert !And(word, mask)[j + BITS - 1 - num];
      }
      assert num >= n;
      word', num' := Shl(word, n), num - n;
      assert word' == Shl(w, BITS - 1 - num');
    } else {
      var k :| 0 <= k < BITS && And(word, mask)[k];
      assert w[k - (BITS - 1 - num)];
    }
  }

  method Flsl(word: Word) returns (num: nat)
    requires word != ZERO
    ensures num < BITS && word[num] && forall j :: num < j < BITS ==> !word[j]
  {
    var w := word;
    num := BITS - 1;
    assert Shl(w, 0) == w;
    assert exists j :: 0 <= j < BITS && word[j];
    w, num := HalveHigh(word, w, num, 32);
    w, num := HalveHigh(word, w, num, 16);
    w, num := HalveHigh(word, w, num, 8);
    w, num := HalveHigh(word, w, num, 4);
    w, num := HalveHigh(word, w, num, 2);
    w, num := HalveHigh(word, w, num, 1);
  }
}
