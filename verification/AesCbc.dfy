/** AES_cbc_encrypt: chaining in place over a buffer, with AES as the block cipher. */
module AesCbc {
  import opened Gf256
  import opened Cbc
  import opened Aes
  import opened AesSpec
  import opened IteratedCipher

  // A key's block functions, as functions on bytes.
  ghost predicate Encrypts(e: Bytes -> Bytes, l: Layers<Block>, w: seq<bv32>, rounds: nat) {
    && IsAes(l) && Usable(w, rounds) && BlockMap(e)
    && forall s {:trigger Encrypted(l, w, rounds, s)} :: |s| == 16 ==> Encrypted(l, w, rounds, s) == e(s)
  }

  ghost predicate Decrypts(d: Bytes -> Bytes, l: Layers<Block>, w: seq<bv32>, rounds: nat) {
    && IsAes(l) && Usable(w, rounds) && BlockMap(d)
    && forall s {:trigger Decrypted(l, w, rounds, s)} :: |s| == 16 ==> Decrypted(l, w, rounds, s) == d(s)
  }

  function Encryptor(l: Layers<Block>, w: seq<bv32>, rounds: nat): (e: Bytes -> Bytes)
    requires Usable(w, rounds)
    ensures BlockMap(e)
  {
    s => if |s| == 16 then Encrypted(l, w, rounds, s) else s
  }

  function Decryptor(l: Layers<Block>, w: seq<bv32>, rounds: nat): Bytes -> Bytes
    requires Usable(w, rounds)
  {
    s => if |s| == 16 then Decrypted(l, w, rounds, s) else s
  }

  lemma AreBlockFunctions(l: Layers<Block>, w: seq<bv32>, rounds: nat)
    requires IsAes(l) && Usable(w, rounds)
    ensures Encrypts(Encryptor(l, w, rounds), l, w, rounds) && Decrypts(Decryptor(l, w, rounds), l, w, rounds)
  {
  }

  // Chained decryption under a key undoes chained encryption under it, at every length, and
  // leaves the same vector if and only if there is no partial block or it is a fixed point.
  lemma CbcRoundTrip(l: Layers<Block>, w: seq<bv32>, w': seq<bv32>, rounds: nat, user: seq<bv8>, bits: int,
                     e: Bytes -> Bytes, d: Bytes -> Bytes, iv: Bytes, data: Bytes)
    requires EncryptionKey(w, rounds, user, bits) && DecryptionKey(w', rounds, user, bits) && |iv| == 16
    requires Encrypts(e, l, w, rounds) && Decrypts(d, l, w', rounds)
    ensures |Enc(e, iv, data)| == Padded(|data|)
    ensures Dec(d, iv, Enc(e, iv, data), |data|) == data
    ensures var last := EncIv(e, iv, data);
            DecIv(d, iv, Enc(e, iv, data), |data|) == last <==> |data| % 16 == 0 || d(last) == last
  {
    AesInverse(l, w, w', rounds, user, bits, e, d);
    DecEnc(e, d, iv, data);
    VectorsAgree(e, d, iv, data);
  }

  lemma AesInverse(l: Layers<Block>, w: seq<bv32>, w': seq<bv32>, rounds: nat, user: seq<bv8>, bits: int,
                   e: Bytes -> Bytes, d: Bytes -> Bytes)
    requires EncryptionKey(w, rounds, user, bits) && DecryptionKey(w', rounds, user, bits)
    requires Encrypts(e, l, w, rounds) && Decrypts(d, l, w', rounds)
    ensures Inverse(d, e)
  {
    forall s | |s| == 16 ensures d(e(s)) == s {
      DecryptEncrypted(l, w, w', rounds, user, bits, s);
    }
  }

  // No write of a block reaches input that is still to be read.
  predicate Apart(src: array<bv8>, at: nat, dst: array<bv8>, to: nat, size: nat) {
    src != dst || to <= at || at + size <= to
  }

  method EncryptBy(ghost e: Bytes -> Bytes, ghost l: Layers<Block>, key: AesKey, src: array<bv8>, at: nat, dst: array<bv8>, to: nat)
    requires key.Valid() && Encrypts(e, l, key.rdKey[..], key.rounds) && at + 16 <= src.Length && to + 16 <= dst.Length
    modifies dst
    ensures dst[to..to + 16] == e(old(src[at..at + 16]))
    ensures forall j :: 0 <= j < to || to + 16 <= j < dst.Length ==> dst[j] == old(dst[j])
  {
    key.Encrypt(l, src, at, dst, to);
  }

  method DecryptBy(ghost d: Bytes -> Bytes, ghost l: Layers<Block>, key: AesKey, src: array<bv8>, at: nat, dst: array<bv8>, to: nat)
    requires key.Valid() && Decrypts(d, l, key.rdKey[..], key.rounds) && at + 16 <= src.Length && to + 16 <= dst.Length
    modifies dst
    ensures dst[to..to + 16] == d(old(src[at..at + 16]))
    ensures forall j :: 0 <= j < to || to + 16 <= j < dst.Length ==> dst[j] == old(dst[j])
  {
    key.Decrypt(l, src, at, dst, to);
  }

  // tmp := up to sixteen bytes of input added to the vector.
  method Masked(src: array<bv8>, at: nat, n: nat, ivec: array<bv8>) returns (tmp: array<bv8>)
    requires at + n <= src.Length && n <= 16 == ivec.Length
    ensures fresh(tmp) && tmp.Length == 16 && tmp[..] == Mask(src[at..at + n], ivec[..])
  {
    tmp := new bv8[16];
    for i := 0 to n
      invariant forall j :: 0 <= j < i ==> tmp[j] == Add(src[at + j], ivec[j])
    {
      tmp[i] := Add(src[at + i], ivec[i]);
    }
    for i := n to 16
      invariant forall j :: 0 <= j < n ==> tmp[j] == Add(src[at + j], ivec[j])
      invariant forall j :: n <= j < i ==> tmp[j] == ivec[j]
    {
      tmp[i] := ivec[i];
    }
  }

  method Copy(src: array<bv8>, at: nat, dst: array<bv8>, to: nat)
    requires src != dst && at + 16 <= src.Length && to + 16 <= dst.Length
    modifies dst
    ensures dst[to..to + 16] == src[at..at + 16]
    ensures forall j :: 0 <= j < to || to + 16 <= j < dst.Length ==> dst[j] == old(dst[j])
  {
    forall i | 0 <= i < 16 {
      dst[to + i] := src[at + i];
    }
  }

  method EncryptPart(ghost e: Bytes -> Bytes, ghost l: Layers<Block>, key: AesKey, src: array<bv8>, at: nat, n: nat,
                     dst: array<bv8>, to: nat, ivec: array<bv8>)
    requires key.Valid() && Encrypts(e, l, key.rdKey[..], key.rounds)
    requires at + n <= src.Length && to + 16 <= dst.Length && 0 < n <= 16 == ivec.Length
    requires src != ivec && dst != ivec
    modifies dst, ivec
    ensures ivec[..] == e(Mask(old(src[at..at + n]), old(ivec[..])))
    ensures dst[to..to + 16] == ivec[..]
    ensures forall j :: 0 <= j < to || to + 16 <= j < dst.Length ==> dst[j] == old(dst[j])
  {
    var tmp := Masked(src, at, n, ivec);
    assert tmp[0..16] == tmp[..];
    if n == 16 {
      EncryptBy(e, l, key, tmp, 0, dst, to);
      Copy(dst, to, ivec, 0);
    } else {
      EncryptBy(e, l, key, tmp, 0, tmp, 0);
      assert tmp[0..16] == tmp[..];
      Copy(tmp, 0, dst, to);
      Copy(tmp, 0, ivec, 0);
    }
  }

  // What is done, and the chaining of what is left, make up the whole.
  ghost predicate Encrypting(e: Bytes -> Bytes, iv: Bytes, left: Bytes, done: Bytes, text: Bytes, last: Bytes) {
    BlockMap(e) && |iv| == 16 && EncOnto(e, iv, left, done) == text && EncIv(e, iv, left) == last
  }

  lemma EncryptingNext(e: Bytes -> Bytes, iv: Bytes, left: Bytes, done: Bytes, text: Bytes, last: Bytes, iv': Bytes)
    requires Encrypting(e, iv, left, done, text, last) && left != [] && iv' == e(Mask(left[..Part(|left|)], iv))
    ensures Encrypting(e, iv', left[Part(|left|)..], done + iv', text, last)
  {
  }

  // Encrypting, with what is left at p and what is done at to.
  ghost predicate EncryptingAt(e: Bytes -> Bytes, src: array<bv8>, p: nat, end: nat, dst: array<bv8>, to: nat, q: nat, ivec: array<bv8>,
                               left: Bytes, text: Bytes, last: Bytes)
    reads src, dst, ivec
  {
    && p <= end <= src.Length && to <= q <= dst.Length && src[p..end] == left
    && Encrypting(e, ivec[..], left, dst[to..q], text, last)
  }

  // The block at p goes to q; what came from at onwards has gone to to onwards.
  method EncryptNext(ghost e: Bytes -> Bytes, ghost l: Layers<Block>, key: AesKey, src: array<bv8>, p: nat, n: nat,
                     dst: array<bv8>, q: nat, ivec: array<bv8>,
                     ghost end: nat, ghost to: nat, ghost left: Bytes, ghost text: Bytes, ghost last: Bytes)
    requires key.Valid() && Encrypts(e, l, key.rdKey[..], key.rounds)
    requires left != [] && n == Part(|left|) && q + 16 <= dst.Length && ivec.Length == 16
    requires src != ivec && dst != ivec && (src != dst || q <= p || end <= q)
    requires EncryptingAt(e, src, p, end, dst, to, q, ivec, left, text, last)
    modifies dst, ivec
    ensures EncryptingAt(e, src, p + n, end, dst, to, q + 16, ivec, left[n..], text, last)
    ensures forall j :: 0 <= j < to || q + 16 <= j < dst.Length ==> dst[j] == old(dst[j])
  {
    ghost var done, iv := dst[to..q], ivec[..];
    assert src[p..p + n] == left[..n] && src[p + n..end] == left[n..];
    EncryptPart(e, l, key, src, p, n, dst, q, ivec);
    EncryptingNext(e, iv, left, done, text, last, ivec[..]);
    assert dst[to..q + 16] == done + ivec[..];
  }

  // len bytes are left from p to end, and as many as from at to p have gone to to onwards;
  // those left fill the rest up to stop.
  ghost predicate Halfway(at: nat, p: nat, end: nat, to: nat, q: nat, stop: nat, len: nat) {
    at <= p && p + len == end && q - to == p - at && q + Padded(len) == stop
  }

  lemma HalfwayNext(at: nat, p: nat, end: nat, to: nat, q: nat, stop: nat, len: nat)
    requires Halfway(at, p, end, to, q, stop, len) && len >= 16
    ensures Halfway(at, p + 16, end, to, q + 16, stop, len - 16) && q + 16 <= stop && to <= q && p + 16 <= end
  {
    assert Padded(len) == 16 + Padded(len - 16);
  }

  // The loop over whole blocks.
  method EncryptBlocks(ghost e: Bytes -> Bytes, ghost l: Layers<Block>, key: AesKey, src: array<bv8>, at: nat,
                       dst: array<bv8>, to: nat, length: nat, ivec: array<bv8>,
                       ghost end: nat, ghost stop: nat, ghost text: Bytes, ghost last: Bytes)
    returns (p: nat, q: nat, len: nat, ghost left: Bytes)
    requires key.Valid() && Encrypts(e, l, key.rdKey[..], key.rounds)
    requires end == at + length <= src.Length && stop == to + Padded(length) <= dst.Length && ivec.Length == 16
    requires src != ivec && dst != ivec && Apart(src, at, dst, to, length)
    requires Encrypting(e, ivec[..], src[at..end], [], text, last)
    modifies dst, ivec
    ensures len < 16 && Halfway(at, p, end, to, q, stop, len)
    ensures EncryptingAt(e, src, p, end, dst, to, q, ivec, left, text, last)
    ensures forall j :: 0 <= j < to || q <= j < dst.Length ==> dst[j] == old(dst[j])
  {
    p, q, len, left := at, to, length, src[at..end];
    assert dst[to..q] == [];
    while len >= 16
      invariant Halfway(at, p, end, to, q, stop, len)
      invariant EncryptingAt(e, src, p, end, dst, to, q, ivec, left, text, last)
      invariant forall j :: 0 <= j < to || q <= j < dst.Length ==> dst[j] == old(dst[j])
    {
      HalfwayNext(at, p, end, to, q, stop, len);
      EncryptNext(e, l, key, src, p, 16, dst, q, ivec, end, to, left, text, last);
      left := left[16..];
      p, q, len := p + 16, q + 16, len - 16;
    }
  }

  method EncryptAll(ghost e: Bytes -> Bytes, ghost l: Layers<Block>, key: AesKey, src: array<bv8>, at: nat,
                    dst: array<bv8>, to: nat, length: nat, ivec: array<bv8>,
                    ghost end: nat, ghost stop: nat, ghost text: Bytes, ghost last: Bytes)
    requires key.Valid() && Encrypts(e, l, key.rdKey[..], key.rounds)
    requires end == at + length <= src.Length && stop == to + Padded(length) <= dst.Length && ivec.Length == 16
    requires src != ivec && dst != ivec && Apart(src, at, dst, to, length)
    requires Encrypting(e, ivec[..], src[at..end], [], text, last)
    modifies dst, ivec
    ensures dst[to..stop] == text && ivec[..] == last
    ensures forall j :: 0 <= j < to || stop <= j < dst.Length ==> dst[j] == old(dst[j])
  {
    ghost var left;
    var p, q, len;
    p, q, len, left := EncryptBlocks(e, l, key, src, at, dst, to, length, ivec, end, stop, text, last);
    if len > 0 {
      EncryptNext(e, l, key, src, p, len, dst, q, ivec, end, to, left, text, last);
      assert Padded(len) == 16 + Padded(0) && q + 16 == stop;
    }
  }

  method EncryptCbc(ghost e: Bytes -> Bytes, ghost l: Layers<Block>, key: AesKey, src: array<bv8>, at: nat,
                    dst: array<bv8>, to: nat, length: nat, ivec: array<bv8>, ghost end: nat, ghost stop: nat)
    requires key.Valid() && Encrypts(e, l, key.rdKey[..], key.rounds)
    requires end == at + length <= src.Length && stop == to + Padded(length) <= dst.Length && ivec.Length == 16
    requires src != ivec && dst != ivec && Apart(src, at, dst, to, length)
    modifies dst, ivec
    ensures dst[to..stop] == Enc(e, old(ivec[..]), old(src[at..end]))
    ensures ivec[..] == EncIv(e, old(ivec[..]), old(src[at..end]))
    ensures forall j :: 0 <= j < to || stop <= j < dst.Length ==> dst[j] == old(dst[j])
  {
    ghost var text, last := Enc(e, ivec[..], src[at..end]), EncIv(e, ivec[..], src[at..end]);
    EncOntoIs(e, ivec[..], src[at..end], []);
    assert [] + text == text;
    EncryptAll(e, l, key, src, at, dst, to, length, ivec, end, stop, text, last);
  }

  // ----- decryption

  method AddVector(dst: array<bv8>, q: nat, ivec: array<bv8>)
    requires q + 16 <= dst.Length && ivec.Length == 16 && dst != ivec
    modifies dst
    ensures dst[q..q + 16] == Mask(old(dst[q..q + 16]), ivec[..])
    ensures forall j :: 0 <= j < q || q + 16 <= j < dst.Length ==> dst[j] == old(dst[j])
  {
    for n := 0 to 16
      invariant forall j :: 0 <= j < q || q + n <= j < dst.Length ==> dst[j] == old(dst[j])
      invariant forall j :: q <= j < q + n ==> dst[j] == Add(old(dst[j]), ivec[j - q])
    {
      dst[q + n] := Add(dst[q + n], ivec[n]);
    }
  }

  method AddTail(tmp: array<bv8>, ivec: array<bv8>, dst: array<bv8>, q: nat, len: nat)
    requires tmp.Length == 16 == ivec.Length && len < 16 && q + len <= dst.Length && dst != tmp && dst != ivec
    modifies dst
    ensures dst[q..q + len] == Mask(tmp[..], ivec[..])[..len]
    ensures forall j :: 0 <= j < q || q + len <= j < dst.Length ==> dst[j] == old(dst[j])
  {
    for n := 0 to len
      invariant forall j :: 0 <= j < q || q + n <= j < dst.Length ==> dst[j] == old(dst[j])
      invariant forall j :: q <= j < q + n ==> dst[j] == Add(tmp[j - q], ivec[j - q])
    {
      dst[q + n] := Add(tmp[n], ivec[n]);
    }
  }

  method DecryptFull(ghost d: Bytes -> Bytes, ghost l: Layers<Block>, key: AesKey, src: array<bv8>, p: nat,
                     dst: array<bv8>, q: nat, ivec: array<bv8>)
    requires key.Valid() && Decrypts(d, l, key.rdKey[..], key.rounds)
    requires p + 16 <= src.Length && q + 16 <= dst.Length && ivec.Length == 16 && src != ivec && dst != ivec
    modifies dst, ivec
    ensures dst[q..q + 16] == Mask(d(old(src[p..p + 16])), old(ivec[..]))
    ensures ivec[..] == old(src[p..p + 16])
    ensures forall j :: 0 <= j < q || q + 16 <= j < dst.Length ==> dst[j] == old(dst[j])
  {
    var tmp := new bv8[16];
    Copy(src, p, tmp, 0);
    DecryptBy(d, l, key, src, p, dst, q);
    AddVector(dst, q, ivec);
    Copy(tmp, 0, ivec, 0);
  }

  method DecryptTail(ghost d: Bytes -> Bytes, ghost l: Layers<Block>, key: AesKey, src: array<bv8>, p: nat, len: nat,
                     dst: array<bv8>, q: nat, ivec: array<bv8>, ghost stop: nat)
    requires key.Valid() && Decrypts(d, l, key.rdKey[..], key.rounds) && len < 16 && stop == q + len
    requires p + 16 <= src.Length && stop <= dst.Length && ivec.Length == 16 && src != ivec && dst != ivec
    modifies dst, ivec
    ensures dst[q..stop] == Mask(d(old(src[p..p + 16])), old(ivec[..]))[..len]
    ensures ivec[..] == d(old(src[p..p + 16]))
    ensures forall j :: 0 <= j < q || stop <= j < dst.Length ==> dst[j] == old(dst[j])
  {
    var tmp := new bv8[16];
    Copy(src, p, tmp, 0);
    DecryptBy(d, l, key, tmp, 0, tmp, 0);
    assert tmp[..] == tmp[0..16];
    AddTail(tmp, ivec, dst, q, len);
    Copy(tmp, 0, ivec, 0);
  }

  ghost predicate Decrypting(d: Bytes -> Bytes, iv: Bytes, left: Bytes, len: nat, done: Bytes, text: Bytes, last: Bytes) {
    && BlockMap(d) && |iv| == 16 && |left| == Padded(len)
    && done + Dec(d, iv, left, len) == text && DecIv(d, iv, left, len) == last
  }

  lemma DecryptingNext(d: Bytes -> Bytes, iv: Bytes, left: Bytes, len: nat, done: Bytes, text: Bytes, last: Bytes, out: Bytes)
    requires Decrypting(d, iv, left, len, done, text, last) && len >= 16 && out == Mask(d(left[..16]), iv)
    ensures Decrypting(d, left[..16], left[16..], len - 16, done + out, text, last)
  {
    var rest := Dec(d, left[..16], left[16..], len - 16);
    assert done + (out + rest) == (done + out) + rest;
  }

  lemma DecryptingDone(d: Bytes -> Bytes, iv: Bytes, left: Bytes, len: nat, done: Bytes, text: Bytes, last: Bytes)
    requires Decrypting(d, iv, left, len, done, text, last) && len < 16
    ensures len == 0 ==> done == text && iv == last
    ensures len > 0 ==> done + Mask(d(left[..16]), iv)[..len] == text && d(left[..16]) == last
  {
    assert done + [] == done;
  }

  method DecryptNext(ghost d: Bytes -> Bytes, ghost l: Layers<Block>, key: AesKey, src: array<bv8>, p: nat, ghost len: nat,
                     dst: array<bv8>, q: nat, ivec: array<bv8>,
                     ghost end: nat, ghost to: nat, ghost left: Bytes, ghost text: Bytes, ghost last: Bytes)
    requires key.Valid() && Decrypts(d, l, key.rdKey[..], key.rounds)
    requires len >= 16 && p + 16 <= end <= src.Length && src[p..end] == left
    requires to <= q && q + 16 <= dst.Length && ivec.Length == 16
    requires src != ivec && dst != ivec && (src != dst || q <= p || end <= q)
    requires Decrypting(d, ivec[..], left, len, dst[to..q], text, last)
    modifies dst, ivec
    ensures src[p + 16..end] == left[16..]
    ensures Decrypting(d, ivec[..], left[16..], len - 16, dst[to..q + 16], text, last)
    ensures forall j :: 0 <= j < to || q + 16 <= j < dst.Length ==> dst[j] == old(dst[j])
  {
    ghost var done, iv := dst[to..q], ivec[..];
    assert src[p..p + 16] == left[..16] && src[p + 16..end] == left[16..];
    DecryptFull(d, l, key, src, p, dst, q, ivec);
    ghost var out := dst[q..q + 16];
    DecryptingNext(d, iv, left, len, done, text, last, out);
    assert dst[to..q + 16] == done + out;
  }

  method DecryptBlocks(ghost d: Bytes -> Bytes, ghost l: Layers<Block>, key: AesKey, src: array<bv8>, at: nat,
                       dst: array<bv8>, to: nat, length: nat, ivec: array<bv8>,
                       ghost end: nat, ghost text: Bytes, ghost last: Bytes)
    returns (p: nat, q: nat, len: nat, ghost left: Bytes)
    requires key.Valid() && Decrypts(d, l, key.rdKey[..], key.rounds)
    requires end == at + Padded(length) <= src.Length && to + length <= dst.Length && ivec.Length == 16
    requires src != ivec && dst != ivec && Apart(src, at, dst, to, Padded(length))
    requires Decrypting(d, ivec[..], src[at..end], length, [], text, last)
    modifies dst, ivec
    ensures len < 16 && p + Padded(len) == end && q - to == p - at && q + len == to + length
    ensures src[p..end] == left && Decrypting(d, ivec[..], left, len, dst[to..q], text, last)
    ensures forall j :: 0 <= j < to || q <= j < dst.Length ==> dst[j] == old(dst[j])
  {
    p, q, len, left := at, to, length, src[at..end];
    assert dst[to..q] == [];
    while len >= 16
      invariant p + Padded(len) == end && q - to == p - at >= 0 && q + len == to + length
      invariant src[p..end] == left && Decrypting(d, ivec[..], left, len, dst[to..q], text, last)
      invariant forall j :: 0 <= j < to || q <= j < dst.Length ==> dst[j] == old(dst[j])
    {
      var rest := len - 16;
      assert Padded(len) == 16 + Padded(rest);
      DecryptNext(d, l, key, src, p, len, dst, q, ivec, end, to, left, text, last);
      left := left[16..];
      p, q, len := p + 16, q + 16, rest;
    }
  }

  method DecryptAll(ghost d: Bytes -> Bytes, ghost l: Layers<Block>, key: AesKey, src: array<bv8>, at: nat,
                    dst: array<bv8>, to: nat, length: nat, ivec: array<bv8>,
                    ghost end: nat, ghost stop: nat, ghost text: Bytes, ghost last: Bytes)
    requires key.Valid() && Decrypts(d, l, key.rdKey[..], key.rounds)
    requires end == at + Padded(length) <= src.Length && stop == to + length <= dst.Length && ivec.Length == 16
    requires src != ivec && dst != ivec && Apart(src, at, dst, to, Padded(length))
    requires Decrypting(d, ivec[..], src[at..end], length, [], text, last)
    modifies dst, ivec
    ensures dst[to..stop] == text && ivec[..] == last
    ensures forall j :: 0 <= j < to || stop <= j < dst.Length ==> dst[j] == old(dst[j])
  {
    ghost var left;
    var p, q, len;
    p, q, len, left := DecryptBlocks(d, l, key, src, at, dst, to, length, ivec, end, text, last);
    DecryptingDone(d, ivec[..], left, len, dst[to..q], text, last);
    if len > 0 {
      ghost var done := dst[to..q];
      assert src[p..p + 16] == left[..16];
      DecryptTail(d, l, key, src, p, len, dst, q, ivec, stop);
      assert dst[to..stop] == done + dst[q..stop];
    }
  }

  method DecryptCbc(ghost d: Bytes -> Bytes, ghost l: Layers<Block>, key: AesKey, src: array<bv8>, at: nat,
                    dst: array<bv8>, to: nat, length: nat, ivec: array<bv8>, ghost end: nat, ghost stop: nat)
    requires key.Valid() && Decrypts(d, l, key.rdKey[..], key.rounds)
    requires end == at + Padded(length) <= src.Length && stop == to + length <= dst.Length && ivec.Length == 16
    requires src != ivec && dst != ivec && Apart(src, at, dst, to, Padded(length))
    modifies dst, ivec
    ensures dst[to..stop] == Dec(d, old(ivec[..]), old(src[at..end]), length)
    ensures ivec[..] == DecIv(d, old(ivec[..]), old(src[at..end]), length)
    ensures forall j :: 0 <= j < to || stop <= j < dst.Length ==> dst[j] == old(dst[j])
  {
    ghost var text, last := Dec(d, ivec[..], src[at..end], length), DecIv(d, ivec[..], src[at..end], length);
    assert [] + text == text;
    DecryptAll(d, l, key, src, at, dst, to, length, ivec, end, stop, text, last);
  }

  // ----- there and back

  method Vector(iv: array<bv8>) returns (ivec: array<bv8>)
    requires iv.Length == 16
    ensures fresh(ivec) && ivec.Length == 16 && ivec[..] == iv[..]
  {
    ivec := new bv8[16];
    forall i | 0 <= i < 16 {
      ivec[i] := iv[i];
    }
  }

  method EncryptInPlace(ghost e: Bytes -> Bytes, ghost l: Layers<Block>, key: AesKey, buf: array<bv8>, length: nat,
                        iv: array<bv8>, ghost end: nat)
    requires key.Valid() && Encrypts(e, l, key.rdKey[..], key.rounds)
    requires end == Padded(length) <= buf.Length && length <= buf.Length && iv.Length == 16
    modifies buf
    ensures buf[0..end] == Enc(e, old(iv[..]), old(buf[0..length]))
  {
    var ivec := Vector(iv);
    EncryptCbc(e, l, key, buf, 0, buf, 0, length, ivec, length, end);
  }

  method DecryptInPlace(ghost d: Bytes -> Bytes, ghost l: Layers<Block>, key: AesKey, buf: array<bv8>, length: nat,
                        iv: array<bv8>, ghost end: nat)
    requires key.Valid() && Decrypts(d, l, key.rdKey[..], key.rounds)
    requires end == Padded(length) <= buf.Length && length <= buf.Length && iv.Length == 16
    modifies buf
    ensures buf[0..length] == Dec(d, old(iv[..]), old(buf[0..end]), length)
  {
    var ivec := Vector(iv);
    DecryptCbc(d, l, key, buf, 0, buf, 0, length, ivec, end, length);
  }

  // A key's block functions.
  lemma BlockFunctions(l: Layers<Block>, w: seq<bv32>, w': seq<bv32>, rounds: nat) returns (e: Bytes -> Bytes, d: Bytes -> Bytes)
    requires IsAes(l) && Usable(w, rounds) && Usable(w', rounds)
    ensures Encrypts(e, l, w, rounds) && Decrypts(d, l, w', rounds) && e == Encryptor(l, w, rounds)
  {
    e, d := Encryptor(l, w, rounds), Decryptor(l, w', rounds);
    AreBlockFunctions(l, w, rounds);
    AreBlockFunctions(l, w', rounds);
  }

  // The ciphertext of this data under this cipher key and its schedule.
  ghost predicate IsCiphertext(l: Layers<Block>, user: Bytes, bits: int, iv: Bytes, data: Bytes, text: Bytes, w: seq<bv32>, rounds: nat) {
    && EncryptionKey(w, rounds, user, bits) && Usable(w, rounds) && |iv| == 16
    && text == Enc(Encryptor(l, w, rounds), iv, data)
  }

  method Recrypt(ghost l: Layers<Block>, ek: AesKey, dk: AesKey, ghost user: seq<bv8>, ghost bits: int,
                 buf: array<bv8>, length: nat, iv: array<bv8>, end: nat) returns (text: Bytes)
    requires IsAes(l) && ek.Valid() && dk.Valid()
    requires EncryptionKey(ek.rdKey[..], ek.rounds, user, bits) && DecryptionKey(dk.rdKey[..], dk.rounds, user, bits)
    requires end == Padded(length) <= buf.Length && length <= buf.Length && iv.Length == 16 && buf != iv
    modifies buf
    ensures IsCiphertext(l, user, bits, iv[..], old(buf[0..length]), text, ek.rdKey[..], ek.rounds)
    ensures buf[0..length] == old(buf[0..length])
  {
    ghost var w, w' := ek.rdKey[..], dk.rdKey[..];
    ghost var e, d := BlockFunctions(l, w, w', ek.rounds);
    CbcRoundTrip(l, w, w', ek.rounds, user, bits, e, d, iv[..], buf[0..length]);
    EncryptInPlace(e, l, ek, buf, length, iv, end);
    text := buf[0..end];
    DecryptInPlace(d, l, dk, buf, length, iv, end);
  }

  // AES_set_encrypt_key and AES_set_decrypt_key for one cipher key.
  method SetKeys(userKey: array<bv8>, bits: int) returns (status: int, ek: AesKey, dk: AesKey)
    requires KeySize(bits) ==> bits / 8 <= userKey.Length
    ensures fresh(ek) && fresh(dk) && fresh(ek.rdKey) && fresh(dk.rdKey) && status == if KeySize(bits) then 0 else -2
    ensures status == 0 ==> ek.Valid() && EncryptionKey(ek.rdKey[..], ek.rounds, userKey[..], bits)
    ensures status == 0 ==> dk.Valid() && DecryptionKey(dk.rdKey[..], dk.rounds, userKey[..], bits)
  {
    ek := new AesKey();
    dk := new AesKey();
    status := AesKey.SetEncryptKey(userKey, bits, ek);
    if status == 0 {
      status := AesKey.SetDecryptKey(userKey, bits, dk);
    }
  }

  method ThereAndBackBy(ghost l: Layers<Block>, userKey: array<bv8>, bits: int, buf: array<bv8>, length: nat, iv: array<bv8>)
    returns (status: int, text: Bytes, ghost w: seq<bv32>, ghost rounds: nat)
    requires IsAes(l) && (KeySize(bits) ==> bits / 8 <= userKey.Length)
    requires length <= buf.Length && Padded(length) <= buf.Length && iv.Length == 16 && buf != iv && buf != userKey
    modifies buf
    ensures status == if KeySize(bits) then 0 else -2
    ensures status == 0 ==> IsCiphertext(l, userKey[..], bits, iv[..], old(buf[0..length]), text, w, rounds)
    ensures buf[0..length] == old(buf[0..length])
  {
    var ek, dk;
    text, w, rounds := [], [], 0;
    status, ek, dk := SetKeys(userKey, bits);
    if status < 0 {
      return;
    }
    w, rounds := ek.rdKey[..], ek.rounds;
    text := Recrypt(l, ek, dk, userKey[..], bits, buf, length, iv, Padded(length));
  }

  // Both key schedules from one cipher key, then encryption and decryption of a buffer in
  // place under the same vector.  The text in between is the ciphertext under that key, and
  // in the end the buffer holds what it held.
  method ThereAndBack(userKey: array<bv8>, bits: int, buf: array<bv8>, length: nat, iv: array<bv8>)
    returns (status: int, text: Bytes, ghost w: seq<bv32>, ghost rounds: nat)
    requires KeySize(bits) ==> bits / 8 <= userKey.Length
    requires length <= buf.Length && Padded(length) <= buf.Length && iv.Length == 16 && buf != iv && buf != userKey
    modifies buf
    ensures status == if KeySize(bits) then 0 else -2
    ensures status == 0 ==> IsCiphertext(AES, userKey[..], bits, iv[..], old(buf[0..length]), text, w, rounds)
    ensures buf[0..length] == old(buf[0..length])
  {
    AesIs();
    status, text, w, rounds := ThereAndBackBy(AES, userKey, bits, buf, length, iv);
  }
}
