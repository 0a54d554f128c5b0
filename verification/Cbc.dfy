/** Cipher block chaining over any block cipher on sixteen bytes, with AES_cbc_encrypt's
    treatment of a length that is not a multiple of sixteen. */
module Cbc {
  import opened Gf256

  type Bytes = seq<bv8>

  // Up to sixteen bytes added to the vector, which stands where they are missing.
  function Mask(s: Bytes, iv: Bytes): (r: Bytes)
    requires |s| <= 16 == |iv|
    ensures |r| == 16
  {
    seq(16, n requires 0 <= n < 16 => if n < |s| then Add(s[n], iv[n]) else iv[n])
  }

  function Part(len: nat): (n: nat)
    ensures n <= len && n <= 16 && (0 < len ==> 0 < n) && (n < 16 ==> n == len)
  {
    if len < 16 then len else 16
  }

  // A length in whole blocks.
  function Padded(len: nat): nat {
    if len == 0 then 0 else 16 + Padded(len - Part(len))
  }

  lemma {:induction false} PaddedIs(len: nat)
    ensures len <= Padded(len) < len + 16 && Padded(len) % 16 == 0
  {
    if len > 0 {
      PaddedIs(len - Part(len));
    }
  }

  ghost predicate BlockMap(e: Bytes -> Bytes) { forall s {:trigger e(s)} :: |e(s)| == |s| }

  ghost predicate Inverse(d: Bytes -> Bytes, e: Bytes -> Bytes) {
    forall s {:trigger e(s)} :: |s| == 16 ==> d(e(s)) == s
  }

  // The ciphertext of data, and the vector left behind.
  ghost function Enc(e: Bytes -> Bytes, iv: Bytes, data: Bytes): Bytes
    requires BlockMap(e) && |iv| == 16
    decreases |data|
  {
    if data == [] then [] else
      var n := Part(|data|);
      var c := e(Mask(data[..n], iv));
      c + Enc(e, c, data[n..])
  }

  ghost function EncIv(e: Bytes -> Bytes, iv: Bytes, data: Bytes): (r: Bytes)
    requires BlockMap(e) && |iv| == 16
    ensures |r| == 16
    decreases |data|
  {
    if data == [] then iv else
      var n := Part(|data|);
      EncIv(e, e(Mask(data[..n], iv)), data[n..])
  }

  // The ciphertext of data put behind what is done, block by block.
  ghost function EncOnto(e: Bytes -> Bytes, iv: Bytes, data: Bytes, done: Bytes): Bytes
    requires BlockMap(e) && |iv| == 16
    decreases |data|
  {
    if data == [] then done else
      var c := e(Mask(data[..Part(|data|)], iv));
      EncOnto(e, c, data[Part(|data|)..], done + c)
  }

  lemma {:induction false} EncOntoIs(e: Bytes -> Bytes, iv: Bytes, data: Bytes, done: Bytes)
    requires BlockMap(e) && |iv| == 16
    ensures EncOnto(e, iv, data, done) == done + Enc(e, iv, data)
    decreases |data|
  {
    if data == [] {
      assert done + [] == done;
    } else {
      var n := Part(|data|);
      var c := e(Mask(data[..n], iv));
      EncOntoIs(e, c, data[n..], done + c);
      assert done + (c + Enc(e, c, data[n..])) == done + c + Enc(e, c, data[n..]);
    }
  }

  // The len bytes of plaintext in whole blocks of ciphertext, and the vector left behind:
  // the last block of ciphertext, but after a partial block what it decrypts to.
  ghost function Dec(d: Bytes -> Bytes, iv: Bytes, text: Bytes, len: nat): Bytes
    requires BlockMap(d) && |iv| == 16 && |text| == Padded(len)
    decreases len
  {
    if len == 0 then []
    else if len < 16 then Mask(d(text[..16]), iv)[..len]
    else Mask(d(text[..16]), iv) + Dec(d, text[..16], text[16..], len - 16)
  }

  ghost function DecIv(d: Bytes -> Bytes, iv: Bytes, text: Bytes, len: nat): (r: Bytes)
    requires BlockMap(d) && |iv| == 16 && |text| == Padded(len)
    ensures |r| == 16
    decreases len
  {
    if len == 0 then iv
    else if len < 16 then d(text[..16])
    else DecIv(d, text[..16], text[16..], len - 16)
  }

  lemma AddTwice(x: bv8, y: bv8)
    ensures Add(Add(x, y), y) == x
  {
  }

  lemma Unmask(s: Bytes, iv: Bytes)
    requires |s| <= 16 == |iv|
    ensures Mask(Mask(s, iv), iv)[..|s|] == s
  {
    forall n | 0 <= n < |s| ensures Mask(Mask(s, iv), iv)[n] == s[n] {
      AddTwice(s[n], iv[n]);
    }
  }

  lemma {:induction false} EncLength(e: Bytes -> Bytes, iv: Bytes, data: Bytes)
    requires BlockMap(e) && |iv| == 16
    ensures |Enc(e, iv, data)| == Padded(|data|)
    decreases |data|
  {
    if data != [] {
      var n := Part(|data|);
      EncLength(e, e(Mask(data[..n], iv)), data[n..]);
    }
  }

  function Zeros(n: nat): (z: Bytes)
    ensures |z| == n
  {
    seq(n, _ => 0)
  }

  lemma MaskZeros(s: Bytes, iv: Bytes, z: Bytes)
    requires |s| <= 16 == |iv| && z == Zeros(16 - |s|)
    ensures Mask(s, iv) == Mask(s + z, iv)
  {
    forall n | |s| <= n < 16 ensures Mask(s + z, iv)[n] == iv[n] {
      assert (s + z)[n] == 0;
    }
  }

  // A partial block encrypts as if it were filled up with zeros.
  lemma {:induction false} EncZeros(e: Bytes -> Bytes, iv: Bytes, data: Bytes, z: Bytes)
    requires BlockMap(e) && |iv| == 16 && |data| + |z| == Padded(|data|) && z == Zeros(|z|)
    ensures Enc(e, iv, data) == Enc(e, iv, data + z) && EncIv(e, iv, data) == EncIv(e, iv, data + z)
    decreases |data|
  {
    if |data| >= 16 {
      assert (data + z)[..16] == data[..16] && (data + z)[16..] == data[16..] + z;
      EncZeros(e, e(Mask(data[..16], iv)), data[16..], z);
    } else if data != [] {
      assert Padded(|data|) == 16 + Padded(0);
      MaskZeros(data, iv, z);
      assert data[..|data|] == data && data[|data|..] == [];
      assert (data + z)[..16] == data + z && (data + z)[16..] == [];
    } else {
      assert data + z == data;
    }
  }

  lemma DecFull(d: Bytes -> Bytes, iv: Bytes, c: Bytes, t: Bytes, len: nat, left: nat)
    requires BlockMap(d) && |iv| == 16 == |c| && len == left + 16 && |t| == Padded(left)
    ensures |c + t| == Padded(len) && Dec(d, iv, c + t, len) == Mask(d(c), iv) + Dec(d, c, t, left)
  {
    assert (c + t)[..16] == c && (c + t)[16..] == t;
  }

  lemma DecPart(d: Bytes -> Bytes, iv: Bytes, c: Bytes, len: nat)
    requires BlockMap(d) && |iv| == 16 == |c| && 0 < len < 16
    ensures |c| == Padded(len) && Dec(d, iv, c, len) == Mask(d(c), iv)[..len]
  {
    assert c[..16] == c;
  }

  // Decryption undoes encryption at every length.
  lemma {:induction false} DecEnc(e: Bytes -> Bytes, d: Bytes -> Bytes, iv: Bytes, data: Bytes)
    requires BlockMap(e) && BlockMap(d) && Inverse(d, e) && |iv| == 16
    ensures |Enc(e, iv, data)| == Padded(|data|)
    ensures Dec(d, iv, Enc(e, iv, data), |data|) == data
    decreases |data|
  {
    EncLength(e, iv, data);
    if |data| >= 16 {
      var a, b := data[..16], data[16..];
      var c := e(Mask(a, iv));
      DecEnc(e, d, c, b);
      DecFull(d, iv, c, Enc(e, c, b), |data|, |b|);
      Unmask(a, iv);
      assert data == a + b;
    } else if data != [] {
      assert data[..|data|] == data && data[|data|..] == [];
      var c := e(Mask(data, iv));
      assert c + [] == c;
      DecPart(d, iv, c, |data|);
      Unmask(data, iv);
    }
  }

  // The vectors the two directions leave behind agree if and only if the length is a
  // multiple of sixteen or the last block is a fixed point of the cipher.
  lemma {:induction false} VectorsAgree(e: Bytes -> Bytes, d: Bytes -> Bytes, iv: Bytes, data: Bytes)
    requires BlockMap(e) && BlockMap(d) && Inverse(d, e) && |iv| == 16
    ensures |Enc(e, iv, data)| == Padded(|data|)
    ensures var last := EncIv(e, iv, data);
            DecIv(d, iv, Enc(e, iv, data), |data|) == last <==> |data| % 16 == 0 || d(last) == last
    decreases |data|
  {
    EncLength(e, iv, data);
    if data != [] {
      var n := Part(|data|);
      var x := Mask(data[..n], iv);
      var c, rest := e(x), Enc(e, e(x), data[n..]);
      assert (c + rest)[..16] == c && (c + rest)[16..] == rest;
      if n == 16 {
        VectorsAgree(e, d, c, data[n..]);
      } else {
        assert data[n..] == [];
        assert EncIv(e, c, data[n..]) == c;
      }
    }
  }

  ghost predicate Pair(e: Bytes -> Bytes, d: Bytes -> Bytes) {
    BlockMap(e) && BlockMap(d) && Inverse(d, e)
  }

  // The two directions leave the same vector behind.
  ghost predicate Agree(e: Bytes -> Bytes, d: Bytes -> Bytes, iv: Bytes, data: Bytes)
    requires BlockMap(e) && BlockMap(d) && |iv| == 16
  {
    var text := Enc(e, iv, data);
    |text| == Padded(|data|) && DecIv(d, iv, text, |data|) == EncIv(e, iv, data)
  }

  // A cipher without a fixed point: it flips one bit, and so undoes itself.
  function Flip(s: Bytes): (r: Bytes)
    ensures |r| == |s| && (s != [] ==> r != s)
  {
    if s == [] then [] else
      var b := s[0] ^ 1;
      assert b != s[0];
      s[0 := b]
  }

  lemma FlipPair()
    ensures Pair(Flip, Flip)
  {
    forall s: Bytes | |s| == 16 ensures Flip(Flip(s)) == s {
      assert s[0] ^ 1 ^ 1 == s[0];
    }
  }

  // One byte encrypted and decrypted, after which the two vectors differ.
  lemma VectorsDiffer() returns (e: Bytes -> Bytes, d: Bytes -> Bytes, iv: Bytes, data: Bytes)
    ensures Pair(e, d) && |iv| == 16 && |data| == 1 && !Agree(e, d, iv, data)
  {
    e, d, iv, data := Flip, Flip, seq(16, _ => 0), [0];
    FlipPair();
    VectorsAgree(e, d, iv, data);
  }

  // Whatever the cipher, the vectors agree: if and only if there is no partial block.
  lemma VectorsAgreeAlways(iv: Bytes, data: Bytes)
    requires |iv| == 16
    ensures (forall e, d :: Pair(e, d) ==> Agree(e, d, iv, data)) <==> |data| % 16 == 0
  {
    if |data| % 16 == 0 {
      forall e, d | Pair(e, d) ensures Agree(e, d, iv, data) {
        VectorsAgree(e, d, iv, data);
      }
    } else {
      FlipPair();
      VectorsAgree(Flip, Flip, iv, data);
      assert !Agree(Flip, Flip, iv, data);
    }
  }

  // Splitting the data at a block boundary does not matter.
  lemma {:induction false} EncSplit(e: Bytes -> Bytes, iv: Bytes, a: Bytes, b: Bytes)
    requires BlockMap(e) && |iv| == 16 && |a| % 16 == 0
    ensures Enc(e, iv, a + b) == Enc(e, iv, a) + Enc(e, EncIv(e, iv, a), b)
    ensures EncIv(e, iv, a + b) == EncIv(e, EncIv(e, iv, a), b)
    decreases |a|
  {
    if a == [] {
      assert a + b == b;
    } else {
      var c := e(Mask(a[..16], iv));
      assert (a + b)[..16] == a[..16] && (a + b)[16..] == a[16..] + b;
      EncSplit(e, c, a[16..], b);
      var y, z := Enc(e, c, a[16..]), Enc(e, EncIv(e, c, a[16..]), b);
      assert c + (y + z) == (c + y) + z;
    }
  }

  lemma {:induction false} PaddedSum(n: nat, len: nat)
    requires n == Padded(n)
    ensures Padded(n + len) == n + Padded(len)
  {
    if n > 0 {
      PaddedSum(n - 16, len);
    }
  }

  lemma {:induction false} DecSplit(d: Bytes -> Bytes, iv: Bytes, s: Bytes, t: Bytes, len: nat)
    requires BlockMap(d) && |iv| == 16 && |s| == Padded(|s|) && |t| == Padded(len) && |s + t| == Padded(|s| + len)
    ensures Dec(d, iv, s + t, |s| + len) == Dec(d, iv, s, |s|) + Dec(d, DecIv(d, iv, s, |s|), t, len)
    decreases |s|
  {
    if s == [] {
      assert s + t == t;
    } else {
      var c, u := s[..16], s[16..];
      assert (s + t)[..16] == c && (s + t)[16..] == u + t;
      DecSplit(d, c, u, t, len);
      var x, y, z := Mask(d(c), iv), Dec(d, c, u, |u|), Dec(d, DecIv(d, c, u, |u|), t, len);
      assert x + (y + z) == (x + y) + z;
    }
  }

  lemma {:induction false} DecIvSplit(d: Bytes -> Bytes, iv: Bytes, s: Bytes, t: Bytes, len: nat)
    requires BlockMap(d) && |iv| == 16 && |s| == Padded(|s|) && |t| == Padded(len) && |s + t| == Padded(|s| + len)
    ensures DecIv(d, iv, s + t, |s| + len) == DecIv(d, DecIv(d, iv, s, |s|), t, len)
    decreases |s|
  {
    if s == [] {
      assert s + t == t;
    } else {
      var c, u := s[..16], s[16..];
      assert (s + t)[..16] == c && (s + t)[16..] == u + t;
      DecIvSplit(d, c, u, t, len);
    }
  }

  // Likewise for decryption.
  lemma DecryptInParts(d: Bytes -> Bytes, iv: Bytes, s: Bytes, t: Bytes, len: nat)
    requires BlockMap(d) && |iv| == 16 && |s| == Padded(|s|) && |t| == Padded(len)
    ensures |s + t| == Padded(|s| + len)
    ensures Dec(d, iv, s + t, |s| + len) == Dec(d, iv, s, |s|) + Dec(d, DecIv(d, iv, s, |s|), t, len)
    ensures DecIv(d, iv, s + t, |s| + len) == DecIv(d, DecIv(d, iv, s, |s|), t, len)
  {
    PaddedSum(|s|, len);
    DecSplit(d, iv, s, t, len);
    DecIvSplit(d, iv, s, t, len);
  }
}
