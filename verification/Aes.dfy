/** AES key set-up and single-block encryption and decryption. */
module Aes {
  import opened Gf256
  import opened AesSpec
  import opened AesColumns
  import opened IteratedCipher
  import opened KeySchedule
  import opened CipherRounds

  // ----- key expansion (FIPS 197 section 5.2)

  function RotWord(w: bv32): bv32 { Word(Byte1(w), Byte2(w), Byte3(w), Byte0(w)) }

  // {02} to the power n.
  function Power(n: nat): bv8 { if n == 0 then 1 else Double(Power(n - 1)) }

  function Rcon(i: nat): bv32 { Word(Power(if i == 0 then 0 else i - 1), 0, 0, 0) }

  function RotSub(w: bv32, i: nat): bv32 { Xor(SubWord(RotWord(w)), Rcon(i)) }

  const FIPS := Expander(Xor, RotSub, SubWord)

  // What the code does with the word before the one it computes, the i-th time.
  const RCON: seq<bv32> := [0x01000000, 0x02000000, 0x04000000, 0x08000000, 0x10000000,
                            0x20000000, 0x40000000, 0x80000000, 0x1B000000, 0x36000000]

  function RotLookup(w: bv32, i: nat): bv32 {
    EncLastColumn(Byte1(w), Byte2(w), Byte3(w), Byte0(w), if 0 < i <= 10 then RCON[i - 1] else 0)
  }

  function SubLookup(w: bv32): bv32 { EncLastColumn(Byte0(w), Byte1(w), Byte2(w), Byte3(w), 0) }

  const LOOKUP := Expander(Xor, RotLookup, SubLookup)

  lemma Powers()
    ensures Power(0) == 0x01 && Power(1) == 0x02 && Power(2) == 0x04 && Power(3) == 0x08 && Power(4) == 0x10
    ensures Power(5) == 0x20 && Power(6) == 0x40 && Power(7) == 0x80 && Power(8) == 0x1B && Power(9) == 0x36
  {
    assert Power(1) == Double(1) == 0x02;
    assert Power(2) == Double(2) == 0x04;
    assert Power(3) == Double(4) == 0x08;
    assert Power(4) == Double(8) == 0x10;
    assert Power(5) == Double(0x10) == 0x20;
    assert Power(6) == Double(0x20) == 0x40;
    assert Power(7) == Double(0x40) == 0x80;
    assert Power(8) == Double(0x80) == 0x1B;
    assert Power(9) == Double(0x1B) == 0x36;
  }

  lemma WordOfTop(a: bv8, w: bv32)
    requires w == (a as bv32) << 24
    ensures Word(a, 0, 0, 0) == w
  {
  }

  // The table of round constants.
  lemma RconEntries(i: nat)
    requires 0 < i <= 10
    ensures Rcon(i) == RCON[i - 1]
  {
    Powers();
    WordOfTop(Power(i - 1), RCON[i - 1]);
  }

  // The code's expansion is the standard's wherever its ten round constants suffice.
  lemma LookupExpands(key: seq<bv32>, i: nat)
    requires key != [] && i / |key| <= 10
    ensures Expanded(LOOKUP, key, i) == Expanded(FIPS, key, i)
  {
    forall w: bv32 ensures LOOKUP.sub(w) == FIPS.sub(w) {
      SubLookupIs(w);
    }
    forall w: bv32, n: nat | 0 < n <= 10 ensures LOOKUP.rot(w, n) == FIPS.rot(w, n) {
      RotLookupIs(w, n);
    }
    ExpandersAgree(LOOKUP, FIPS, key, i, 10);
  }

  lemma SubLookupIs(w: bv32)
    ensures SubLookup(w) == SubWord(w)
  {
    EncLastColumnIs(Byte0(w), Byte1(w), Byte2(w), Byte3(w), 0);
  }

  lemma RotLookupIs(w: bv32, n: nat)
    requires 0 < n <= 10
    ensures RotLookup(w, n) == RotSub(w, n)
  {
    EncLastColumnIs(Byte1(w), Byte2(w), Byte3(w), Byte0(w), RCON[n - 1]);
    WordBytes(Byte1(w), Byte2(w), Byte3(w), Byte0(w));
    RconEntries(n);
  }

  // ----- bytes, words and blocks

  function GetU32(s: seq<bv8>, o: nat): bv32
    requires o + 4 <= |s|
  {
    Word(s[o], s[o + 1], s[o + 2], s[o + 3])
  }

  function ToBlock(s: seq<bv8>): Block
    requires |s| == 16
  {
    Block(GetU32(s, 0), GetU32(s, 4), GetU32(s, 8), GetU32(s, 12))
  }

  function PutU32(w: bv32, n: nat): bv8
    requires n < 4
  {
    if n == 0 then Byte0(w) else if n == 1 then Byte1(w) else if n == 2 then Byte2(w) else Byte3(w)
  }

  // Byte n of a block.
  function BlockByte(b: Block, n: nat): bv8
    requires n < 16
  {
    if n < 4 then PutU32(b.c0, n)
    else if n < 8 then PutU32(b.c1, n - 4)
    else if n < 12 then PutU32(b.c2, n - 8)
    else PutU32(b.c3, n - 12)
  }

  function FromBlock(b: Block): (s: seq<bv8>)
    ensures |s| == 16
  {
    seq(16, n requires 0 <= n < 16 => BlockByte(b, n))
  }

  lemma ToFrom(b: Block)
    ensures ToBlock(FromBlock(b)) == b
  {
    BytesWord(b.c0);
    BytesWord(b.c1);
    BytesWord(b.c2);
    BytesWord(b.c3);
  }

  lemma PutGet(s: seq<bv8>, o: nat, n: nat)
    requires n < 4 && o + 4 <= |s|
    ensures PutU32(GetU32(s, o), n) == s[o + n]
  {
    WordBytes(s[o], s[o + 1], s[o + 2], s[o + 3]);
  }

  lemma FromTo(s: seq<bv8>)
    requires |s| == 16
    ensures FromBlock(ToBlock(s)) == s
  {
    forall n | 0 <= n < 16 ensures BlockByte(ToBlock(s), n) == s[n] {
      if n < 4 {
        PutGet(s, 0, n);
      } else if n < 8 {
        PutGet(s, 4, n - 4);
      } else if n < 12 {
        PutGet(s, 8, n - 8);
      } else {
        PutGet(s, 12, n - 12);
      }
    }
  }

  function MakeBlock(a: bv32, b: bv32, c: bv32, d: bv32): Block { Block(a, b, c, d) }

  // ----- what key set-up and the block functions compute

  predicate KeySize(bits: int) { bits == 128 || bits == 192 || bits == 256 }

  function Rounds(bits: int): nat
    requires KeySize(bits)
  {
    bits / 32 + 6
  }

  function KeyWords(user: seq<bv8>, nk: nat): seq<bv32>
    requires 4 * nk <= |user|
  {
    seq(nk, i requires 0 <= i < nk => GetU32(user, 4 * i))
  }

  // The key schedule of the standard for a cipher key.
  function Schedule(user: seq<bv8>, bits: int): (w: seq<bv32>)
    requires KeySize(bits) && bits / 8 <= |user|
    ensures |w| == 4 * Rounds(bits) + 4
  {
    Words(FIPS, KeyWords(user, bits / 32), 4 * Rounds(bits) + 4)
  }

  lemma ScheduleIsWords(user: seq<bv8>, bits: int, nk: nat, n: nat, key: seq<bv32>)
    requires KeySize(bits) && bits / 8 <= |user| && nk == bits / 32 && n == 4 * Rounds(bits) + 4 && key == KeyWords(user, nk)
    ensures Schedule(user, bits) == Words(FIPS, key, n)
  {
  }

  // Key holds the schedule for encryption, or the one for decryption.
  ghost predicate EncryptionKey(w: seq<bv32>, rounds: nat, user: seq<bv8>, bits: int) {
    && KeySize(bits) && bits / 8 <= |user| && rounds == Rounds(bits) && |w| == 60
    && w[..4 * rounds + 4] == Schedule(user, bits)
  }

  ghost predicate DecryptionKey(w: seq<bv32>, rounds: nat, user: seq<bv8>, bits: int) {
    && KeySize(bits) && bits / 8 <= |user| && rounds == Rounds(bits) && |w| == 60
    && forall r: nat :: r <= rounds ==> Key(w, r) == Inverted(UnmixLookup, Schedule(user, bits), rounds, r)
  }

  predicate Usable(w: seq<bv32>, rounds: nat) { |w| == 60 && rounds % 2 == 0 && 0 < rounds <= 14 }

  // The cipher, and the equivalent inverse cipher, on sixteen bytes.
  function CipherBytes(l: Layers<Block>, keys: seq<Block>, full: nat, s: seq<bv8>): (r: seq<bv8>)
    requires full + 1 < |keys| && |s| == 16
    ensures |r| == 16
  {
    FromBlock(Cipher(l, ToBlock(s), keys, full))
  }

  function EqInvCipherBytes(l: Layers<Block>, keys: seq<Block>, full: nat, s: seq<bv8>): (r: seq<bv8>)
    requires full + 1 < |keys| && |s| == 16
    ensures |r| == 16
  {
    FromBlock(EqInvCipher(l, ToBlock(s), keys, full))
  }

  lemma RoundTrip(l: Layers<Block>, s: seq<bv8>, keys: seq<Block>, dkeys: seq<Block>, full: nat)
    requires Invertible(l) && Reversed(l, keys, dkeys, full) && |s| == 16
    ensures EqInvCipherBytes(l, dkeys, full, CipherBytes(l, keys, full, s)) == s
  {
    ToFrom(Cipher(l, ToBlock(s), keys, full));
    InverseCipher(l, ToBlock(s), keys, dkeys, full);
    FromTo(s);
  }

  function Encrypted(l: Layers<Block>, w: seq<bv32>, rounds: nat, s: seq<bv8>): (r: seq<bv8>)
    requires Usable(w, rounds) && |s| == 16
    ensures |r| == 16
  {
    CipherBytes(l, Keys(MakeBlock, w, rounds), rounds - 1, s)
  }

  function Decrypted(l: Layers<Block>, w: seq<bv32>, rounds: nat, s: seq<bv8>): (r: seq<bv8>)
    requires Usable(w, rounds) && |s| == 16
    ensures |r| == 16
  {
    EqInvCipherBytes(l, Keys(MakeBlock, w, rounds), rounds - 1, s)
  }

  lemma UnmixBlock(a: bv32, b: bv32, c: bv32, d: bv32)
    ensures InvMixColumns(MakeBlock(a, b, c, d)) == MakeBlock(UnmixLookup(a), UnmixLookup(b), UnmixLookup(c), UnmixLookup(d))
  {
    UnmixLookupIs(a);
    UnmixLookupIs(b);
    UnmixLookupIs(c);
    UnmixLookupIs(d);
  }

  lemma DecryptionKeys(w: seq<bv32>, w': seq<bv32>, rounds: nat, user: seq<bv8>, bits: int)
    requires EncryptionKey(w, rounds, user, bits) && DecryptionKey(w', rounds, user, bits)
    ensures forall r: nat :: r <= rounds ==> Key(w', r) == Inverted(UnmixLookup, w, rounds, r)
  {
    var e := w[..4 * rounds + 4];
    forall r: nat | r <= rounds ensures Key(w', r) == Inverted(UnmixLookup, w, rounds, r) {
      assert Key(w, rounds - r) == Key(e, rounds - r);
    }
  }

  // The keys set up for encryption and decryption from one cipher key are in the order of
  // the equivalent inverse cipher.
  lemma SchedulesReverse(l: Layers<Block>, w: seq<bv32>, w': seq<bv32>, rounds: nat, user: seq<bv8>, bits: int)
    requires IsAes(l) && EncryptionKey(w, rounds, user, bits) && DecryptionKey(w', rounds, user, bits)
    ensures Reversed(l, Keys(MakeBlock, w, rounds), Keys(MakeBlock, w', rounds), rounds - 1)
  {
    forall a, b, c, d
      ensures l.unmix(MakeBlock(a, b, c, d)) == MakeBlock(UnmixLookup(a), UnmixLookup(b), UnmixLookup(c), UnmixLookup(d))
    {
      UnmixBlock(a, b, c, d);
    }
    DecryptionKeys(w, w', rounds, user, bits);
    InvertedReverses(l, MakeBlock, UnmixLookup, w, w', rounds);
  }

  // Decryption undoes encryption, for every key size, key and block.
  lemma DecryptEncrypted(l: Layers<Block>, w: seq<bv32>, w': seq<bv32>, rounds: nat, user: seq<bv8>, bits: int, s: seq<bv8>)
    requires IsAes(l) && EncryptionKey(w, rounds, user, bits) && DecryptionKey(w', rounds, user, bits) && |s| == 16
    ensures Decrypted(l, w', rounds, Encrypted(l, w, rounds, s)) == s
  {
    AesInvertible(l);
    SchedulesReverse(l, w, w', rounds, user, bits);
    RoundTrip(l, s, Keys(MakeBlock, w, rounds), Keys(MakeBlock, w', rounds), rounds - 1);
  }

  // ----- the code

  // The code's look-ups are the rounds of the ciphers.
  lemma EncryptRuns(l: Layers<Block>)
    requires IsAes(l)
    ensures EncRounds(l, EncStep, EncLast, AddRoundKey)
  {
    forall s, k ensures EncStep(s, k) == l.add(l.mix(l.sub(s)), k) {
      EncStepIs(s, k);
    }
    forall s, k ensures EncLast(s, k) == l.add(l.sub(s), k) {
      EncLastIs(s, k);
    }
  }

  lemma DecryptRuns(l: Layers<Block>)
    requires IsAes(l)
    ensures DecRounds(l, DecStep, DecLast, AddRoundKey)
  {
    forall s, k ensures DecStep(s, k) == l.add(l.unmix(l.unsub(s)), k) {
      DecStepIs(s, k);
    }
    forall s, k ensures DecLast(s, k) == l.add(l.unsub(s), k) {
      DecLastIs(s, k);
    }
  }

  method LoadBlock(src: array<bv8>, at: nat) returns (b: Block)
    requires at + 16 <= src.Length
    ensures b == ToBlock(src[at..at + 16])
  {
    b := Block(Word(src[at], src[at + 1], src[at + 2], src[at + 3]),
               Word(src[at + 4], src[at + 5], src[at + 6], src[at + 7]),
               Word(src[at + 8], src[at + 9], src[at + 10], src[at + 11]),
               Word(src[at + 12], src[at + 13], src[at + 14], src[at + 15]));
  }

  method StoreWord(dst: array<bv8>, at: nat, w: bv32)
    requires at + 4 <= dst.Length
    modifies dst
    ensures forall j :: at <= j < at + 4 ==> dst[j] == PutU32(w, j - at)
    ensures forall j :: 0 <= j < at || at + 4 <= j < dst.Length ==> dst[j] == old(dst[j])
  {
    dst[at], dst[at + 1], dst[at + 2], dst[at + 3] := Byte0(w), Byte1(w), Byte2(w), Byte3(w);
  }

  method StoreBlock(dst: array<bv8>, at: nat, b: Block)
    requires at + 16 <= dst.Length
    modifies dst
    ensures dst[at..at + 16] == FromBlock(b)
    ensures forall j :: 0 <= j < at || at + 16 <= j < dst.Length ==> dst[j] == old(dst[j])
  {
    StoreWord(dst, at, b.c0);
    StoreWord(dst, at + 4, b.c1);
    StoreWord(dst, at + 8, b.c2);
    StoreWord(dst, at + 12, b.c3);
    assert forall j :: at <= j < at + 16 ==> dst[j] == BlockByte(b, j - at);
  }

  lemma ExpandsToo(key: seq<bv32>, w: seq<bv32>, n: nat)
    requires Expands(LOOKUP, key, w, n) && (forall i :: 0 <= i < n ==> i / |key| <= 10)
    ensures Expands(FIPS, key, w, n)
  {
    forall i | 0 <= i < n ensures w[i] == Expanded(FIPS, key, i) {
      LookupExpands(key, i);
    }
  }

  lemma ScheduleIs(user: seq<bv8>, bits: int, key: seq<bv32>, w: seq<bv32>)
    requires KeySize(bits) && bits / 8 <= |user| && key == KeyWords(user, bits / 32)
    requires Expands(LOOKUP, key, w, 4 * Rounds(bits) + 4)
    ensures w[..4 * Rounds(bits) + 4] == Schedule(user, bits)
  {
    ExpandsToo(key, w, 4 * Rounds(bits) + 4);
  }

  class AesKey {
    const rdKey: array<bv32>
    var rounds: nat

    ghost predicate Valid()
      reads this
    {
      rdKey.Length == 60
    }

    constructor ()
      ensures Valid() && fresh(rdKey)
    {
      rdKey := new bv32[60];
      rounds := 0;
    }

    // Words from up to to of the cipher key.
    method LoadWords(userKey: array<bv8>, from: nat, to: nat)
      requires Valid() && from <= to <= 8 && 4 * to <= userKey.Length
      requires forall i :: 0 <= i < from ==> rdKey[i] == GetU32(userKey[..], 4 * i)
      modifies rdKey
      ensures forall i :: 0 <= i < to ==> rdKey[i] == GetU32(userKey[..], 4 * i)
    {
      for n := from to to
        invariant forall i :: 0 <= i < n ==> rdKey[i] == GetU32(userKey[..], 4 * i)
      {
        rdKey[n] := Word(userKey[4 * n], userKey[4 * n + 1], userKey[4 * n + 2], userKey[4 * n + 3]);
      }
    }

    method Expand(userKey: array<bv8>, bits: int)
      requires Valid() && KeySize(bits) && bits / 8 <= userKey.Length
      modifies rdKey
      ensures Valid() && rdKey[..4 * Rounds(bits) + 4] == Schedule(userKey[..], bits)
    {
      LoadWords(userKey, 0, 4);
      ghost var key;
      if bits == 128 {
        key := rdKey[..4];
        Expand128(LOOKUP, rdKey);
      } else {
        LoadWords(userKey, 4, 6);
        if bits == 192 {
          key := rdKey[..6];
          Expand192(LOOKUP, rdKey);
        } else {
          LoadWords(userKey, 6, 8);
          key := rdKey[..8];
          Expand256(LOOKUP, rdKey);
        }
      }
      assert key == KeyWords(userKey[..], bits / 32);
      ScheduleIs(userKey[..], bits, key, rdKey[..]);
    }

    static method SetEncryptKey(userKey: array?<bv8>, bits: int, key: AesKey?) returns (status: int)
      requires key != null ==> key.Valid()
      requires userKey != null && KeySize(bits) ==> bits / 8 <= userKey.Length
      modifies if key == null then {} else {key, key.rdKey}
      ensures status == if userKey == null || key == null then -1 else if !KeySize(bits) then -2 else 0
      ensures status == 0 ==> key.Valid() && EncryptionKey(key.rdKey[..], key.rounds, userKey[..], bits)
      ensures status != 0 && key != null ==> key.rounds == old(key.rounds) && key.rdKey[..] == old(key.rdKey[..])
    {
      if userKey == null || key == null {
        return -1;
      }
      if bits != 128 && bits != 192 && bits != 256 {
        return -2;
      }
      key.rounds := if bits == 128 then 10 else if bits == 192 then 12 else 14;
      key.Expand(userKey, bits);
      return 0;
    }

    static method SetDecryptKey(userKey: array?<bv8>, bits: int, key: AesKey?) returns (status: int)
      requires key != null ==> key.Valid()
      requires userKey != null && KeySize(bits) ==> bits / 8 <= userKey.Length
      modifies if key == null then {} else {key, key.rdKey}
      ensures status == if userKey == null || key == null then -1 else if !KeySize(bits) then -2 else 0
      ensures status == 0 ==> key.Valid() && DecryptionKey(key.rdKey[..], key.rounds, userKey[..], bits)
      ensures status != 0 && key != null ==> key.rounds == old(key.rounds) && key.rdKey[..] == old(key.rdKey[..])
    {
      status := SetEncryptKey(userKey, bits, key);
      if status < 0 {
        return;
      }
      ghost var w := key.rdKey[..];
      Invert(UnmixLookup, key.rdKey, key.rounds);
      InvertedPrefix(w, key.rdKey[..], key.rounds, userKey[..], bits);
    }

    method EncryptState(ghost l: Layers<Block>, b: Block, ghost s: seq<bv8>) returns (out: Block)
      requires Valid() && Usable(rdKey[..], rounds) && IsAes(l) && |s| == 16 && b == ToBlock(s)
      ensures FromBlock(out) == Encrypted(l, rdKey[..], rounds, s)
    {
      EncryptRuns(l);
      out := RunCipher(l, MakeBlock, EncStep, EncLast, AddRoundKey, b, rdKey, rounds);
    }

    method DecryptState(ghost l: Layers<Block>, b: Block, ghost s: seq<bv8>) returns (out: Block)
      requires Valid() && Usable(rdKey[..], rounds) && IsAes(l) && |s| == 16 && b == ToBlock(s)
      ensures FromBlock(out) == Decrypted(l, rdKey[..], rounds, s)
    {
      DecryptRuns(l);
      out := RunInverse(l, MakeBlock, DecStep, DecLast, AddRoundKey, b, rdKey, rounds);
    }

    // The two buffers may overlap in any way. The layers l are those of AES; a contract that
    // names them so stays independent of the tables they are computed from.
    method Encrypt(ghost l: Layers<Block>, src: array<bv8>, at: nat, dst: array<bv8>, to: nat)
      requires Valid() && Usable(rdKey[..], rounds) && IsAes(l) && at + 16 <= src.Length && to + 16 <= dst.Length
      modifies dst
      ensures dst[to..to + 16] == Encrypted(l, rdKey[..], rounds, old(src[at..at + 16]))
      ensures forall j :: 0 <= j < to || to + 16 <= j < dst.Length ==> dst[j] == old(dst[j])
    {
      var b := LoadBlock(src, at);
      var out := EncryptState(l, b, src[at..at + 16]);
      StoreBlock(dst, to, out);
    }

    method Decrypt(ghost l: Layers<Block>, src: array<bv8>, at: nat, dst: array<bv8>, to: nat)
      requires Valid() && Usable(rdKey[..], rounds) && IsAes(l) && at + 16 <= src.Length && to + 16 <= dst.Length
      modifies dst
      ensures dst[to..to + 16] == Decrypted(l, rdKey[..], rounds, old(src[at..at + 16]))
      ensures forall j :: 0 <= j < to || to + 16 <= j < dst.Length ==> dst[j] == old(dst[j])
    {
      var b := LoadBlock(src, at);
      var out := DecryptState(l, b, src[at..at + 16]);
      StoreBlock(dst, to, out);
    }
  }

  lemma InvertedPrefix(w: seq<bv32>, w': seq<bv32>, rounds: nat, user: seq<bv8>, bits: int)
    requires EncryptionKey(w, rounds, user, bits) && |w'| == 60
    requires forall r: nat :: r <= rounds ==> Key(w', r) == Inverted(UnmixLookup, w, rounds, r)
    ensures DecryptionKey(w', rounds, user, bits)
  {
    var e := w[..4 * rounds + 4];
    forall r: nat | r <= rounds ensures Key(w', r) == Inverted(UnmixLookup, e, rounds, r) {
      assert Key(w, rounds - r) == Key(e, rounds - r);
    }
  }
}
