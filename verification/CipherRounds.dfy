/** The round loop of AES_encrypt and AES_decrypt, two rounds an iteration over a sliding
    pointer, and AES_set_decrypt_key's schedule, for any layers. */
module CipherRounds {
  import opened IteratedCipher
  import opened KeySchedule

  // Round keys 0 to rounds of a schedule of words, as blocks.
  function Keys<W, B>(block: (W, W, W, W) -> B, w: seq<W>, rounds: nat): (keys: seq<B>)
    requires 4 * rounds + 4 <= |w|
  {
    seq(rounds + 1, r requires 0 <= r <= rounds => BlockKey(block, w, r))
  }

  function BlockKey<W, B>(block: (W, W, W, W) -> B, w: seq<W>, r: nat): B
    requires 4 * r + 4 <= |w|
  {
    var k := Key(w, r);
    block(k.0, k.1, k.2, k.3)
  }

  // The state after i full rounds.
  function Steps<B>(step: (B, B) -> B, s: B, keys: seq<B>, i: nat): B
    requires i < |keys|
  {
    if i == 0 then s else step(Steps(step, s, keys, i - 1), keys[i])
  }

  method RunRounds<W, B>(block: (W, W, W, W) -> B, step: (B, B) -> B, last: (B, B) -> B,
                         s0: B, rk: array<W>, rounds: nat) returns (out: B)
    requires 4 * rounds + 4 <= rk.Length && rounds % 2 == 0 && rounds > 0
    ensures var keys := Keys(block, rk[..], rounds);
            out == last(Steps(step, s0, keys, rounds - 1), keys[rounds])
  {
    ghost var keys := Keys(block, rk[..], rounds);
    var s, t := s0, s0;
    var p, r := 0, rounds / 2;
    while true
      invariant 0 < r <= rounds / 2 && p == 4 * (rounds - 2 * r)
      invariant s == Steps(step, s0, keys, rounds - 2 * r)
      decreases r
    {
      t := step(s, block(rk[p + 4], rk[p + 5], rk[p + 6], rk[p + 7]));
      assert keys[rounds - 2 * r + 1] == block(rk[p + 4], rk[p + 5], rk[p + 6], rk[p + 7]);
      p := p + 8;
      r := r - 1;
      if r == 0 {
        break;
      }
      s := step(t, block(rk[p], rk[p + 1], rk[p + 2], rk[p + 3]));
      assert keys[rounds - 2 * r] == block(rk[p], rk[p + 1], rk[p + 2], rk[p + 3]);
    }
    out := last(t, block(rk[p], rk[p + 1], rk[p + 2], rk[p + 3]));
  }

  // A step that is a round of the cipher makes the loop the cipher ...
  lemma {:induction false} StepsEncrypt<B(!new)>(l: Layers<B>, step: (B, B) -> B, b: B, keys: seq<B>, i: nat)
    requires i < |keys| && forall s, k :: step(s, k) == l.add(l.mix(l.sub(s)), k)
    ensures Steps(step, l.add(b, keys[0]), keys, i) == EncState(l, b, keys, i)
  {
    if i > 0 {
      StepsEncrypt(l, step, b, keys, i - 1);
    }
  }

  // ... and one of the equivalent inverse cipher, that cipher.
  lemma {:induction false} StepsDecrypt<B(!new)>(l: Layers<B>, step: (B, B) -> B, b: B, keys: seq<B>, i: nat)
    requires i < |keys| && forall s, k :: step(s, k) == l.add(l.unmix(l.unsub(s)), k)
    ensures Steps(step, l.add(b, keys[0]), keys, i) == DecState(l, b, keys, i)
  {
    if i > 0 {
      StepsDecrypt(l, step, b, keys, i - 1);
    }
  }

  // The functions a round loop uses are the rounds of the cipher with these layers ...
  ghost predicate EncRounds<B(!new)>(l: Layers<B>, step: (B, B) -> B, last: (B, B) -> B, add: (B, B) -> B) {
    && (forall s, k :: step(s, k) == l.add(l.mix(l.sub(s)), k))
    && (forall s, k :: last(s, k) == l.add(l.sub(s), k))
    && (forall s, k :: add(s, k) == l.add(s, k))
  }

  // ... or of its equivalent inverse.
  ghost predicate DecRounds<B(!new)>(l: Layers<B>, step: (B, B) -> B, last: (B, B) -> B, add: (B, B) -> B) {
    && (forall s, k :: step(s, k) == l.add(l.unmix(l.unsub(s)), k))
    && (forall s, k :: last(s, k) == l.add(l.unsub(s), k))
    && (forall s, k :: add(s, k) == l.add(s, k))
  }

  // AES_encrypt from its state to its state: the loop computes the cipher.
  method RunCipher<W, B(!new)>(ghost l: Layers<B>, block: (W, W, W, W) -> B, step: (B, B) -> B, last: (B, B) -> B,
                               add: (B, B) -> B, b: B, rk: array<W>, rounds: nat) returns (out: B)
    requires EncRounds(l, step, last, add) && 4 * rounds + 4 <= rk.Length && rounds % 2 == 0 && rounds > 0
    ensures out == Cipher(l, b, Keys(block, rk[..], rounds), rounds - 1)
  {
    ghost var keys := Keys(block, rk[..], rounds);
    var k := block(rk[0], rk[1], rk[2], rk[3]);
    assert keys[0] == k;
    StepsEncrypt(l, step, b, keys, rounds - 1);
    out := RunRounds(block, step, last, add(b, k), rk, rounds);
  }

  // AES_decrypt likewise, and the equivalent inverse cipher.
  method RunInverse<W, B(!new)>(ghost l: Layers<B>, block: (W, W, W, W) -> B, step: (B, B) -> B, last: (B, B) -> B,
                                add: (B, B) -> B, b: B, rk: array<W>, rounds: nat) returns (out: B)
    requires DecRounds(l, step, last, add) && 4 * rounds + 4 <= rk.Length && rounds % 2 == 0 && rounds > 0
    ensures out == EqInvCipher(l, b, Keys(block, rk[..], rounds), rounds - 1)
  {
    ghost var keys := Keys(block, rk[..], rounds);
    var k := block(rk[0], rk[1], rk[2], rk[3]);
    assert keys[0] == k;
    StepsDecrypt(l, step, b, keys, rounds - 1);
    out := RunRounds(block, step, last, add(b, k), rk, rounds);
  }

  // The inverted schedule holds the keys of the equivalent inverse cipher.
  lemma InvertedReverses<W(!new), B>(l: Layers<B>, block: (W, W, W, W) -> B, unmix: W -> W,
                                     w: seq<W>, w': seq<W>, rounds: nat)
    requires 0 < rounds && 4 * rounds + 4 <= |w| == |w'|
    requires forall a, b, c, d :: l.unmix(block(a, b, c, d)) == block(unmix(a), unmix(b), unmix(c), unmix(d))
    requires forall r: nat :: r <= rounds ==> Key(w', r) == Inverted(unmix, w, rounds, r)
    ensures Reversed(l, Keys(block, w, rounds), Keys(block, w', rounds), rounds - 1)
  {
    var keys, dkeys := Keys(block, w, rounds), Keys(block, w', rounds);
    forall i, j | 0 < i && 0 < j && i + j == rounds ensures dkeys[i] == l.unmix(keys[j]) {
      var k := Key(w, j);
      assert Key(w', i) == (unmix(k.0), unmix(k.1), unmix(k.2), unmix(k.3));
    }
    assert Key(w', 0) == Key(w, rounds) && Key(w', rounds) == Key(w, 0);
  }

  // Schedules whose transformations agree on the round constants they use are equal.
  lemma {:induction false} ExpandersAgree<W(!new)>(e: Expander<W>, f: Expander<W>, key: seq<W>, i: nat, m: nat)
    requires key != [] && i / |key| <= m
    requires forall v, w :: e.xor(v, w) == f.xor(v, w)
    requires forall w :: e.sub(w) == f.sub(w)
    requires forall w, n: nat :: 0 < n <= m ==> e.rot(w, n) == f.rot(w, n)
    ensures Expanded(e, key, i) == Expanded(f, key, i)
    decreases i
  {
    if i >= |key| {
      DivMonotone(i - 1, i, |key|);
      DivMonotone(i - |key|, i, |key|);
      ExpandersAgree(e, f, key, i - 1, m);
      ExpandersAgree(e, f, key, i - |key|, m);
      if i % |key| == 0 {
        assert 0 < i / |key| by { DivMonotone(|key|, i, |key|); }
      }
    }
  }

  lemma DivMonotone(a: nat, b: nat, n: nat)
    requires a <= b && 0 < n
    ensures a / n <= b / n
  {
    var q, q' := a / n, b / n;
    assert n * q <= a && b < n * q' + n;
    assert n * (q - q') == n * q - n * q';
    LessThanOne(n, q - q');
  }

  lemma LessThanOne(n: nat, d: int)
    requires n * d < n
    ensures d < 1
  {
  }
}
