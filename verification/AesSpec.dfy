/** The cipher of FIPS 197 on four columns of four bytes, its inverse, and the equivalent
    inverse cipher of section 5.3.5. */
module AesSpec {
  import opened AesTables
  import opened Gf256
  import opened IteratedCipher

  // ----- bytes and words

  function Byte0(w: bv32): bv8 { ((w >> 24) & 0xff) as bv8 }
  function Byte1(w: bv32): bv8 { ((w >> 16) & 0xff) as bv8 }
  function Byte2(w: bv32): bv8 { ((w >> 8) & 0xff) as bv8 }
  function Byte3(w: bv32): bv8 { (w & 0xff) as bv8 }

  function Word(a: bv8, b: bv8, c: bv8, d: bv8): bv32 {
    ((a as bv32) << 24) ^ ((b as bv32) << 16) ^ ((c as bv32) << 8) ^ (d as bv32)
  }

  lemma WordBytes(a: bv8, b: bv8, c: bv8, d: bv8)
    ensures Byte0(Word(a, b, c, d)) == a && Byte1(Word(a, b, c, d)) == b
    ensures Byte2(Word(a, b, c, d)) == c && Byte3(Word(a, b, c, d)) == d
  {
  }

  lemma BytesWord(w: bv32)
    ensures Word(Byte0(w), Byte1(w), Byte2(w), Byte3(w)) == w
  {
  }

  // ----- the substitution boxes

  function S(x: bv8): bv8 { Byte3(Te4(x)) }
  function Si(x: bv8): bv8 { Byte3(Td4(x)) }

  lemma InverseS(x: bv8)
    ensures Si(S(x)) == x
  {
  }

  // The affine transformation of section 5.1.1, and what undoes it.
  function Affine(y: bv8): bv8 {
    y ^ y.RotateLeft(4) ^ y.RotateLeft(3) ^ y.RotateLeft(2) ^ y.RotateLeft(1) ^ 0x63
  }

  function Unaffine(s: bv8): bv8 { s.RotateLeft(1) ^ s.RotateLeft(3) ^ s.RotateLeft(6) ^ 0x05 }

  lemma UndoUnaffine(s: bv8)
    ensures Affine(Unaffine(s)) == s
  {
  }

  // y is the multiplicative inverse of x, 0 for 0.
  predicate Inverses(x: bv8, y: bv8) { if x == 0 then y == 0 else Mul(x, y) == 1 }

  lemma LowHalf(x: bv8)
    requires x < 0x80
    ensures Inverses(x, Unaffine(S(x)))
  {
  }

  lemma HighHalf(x: bv8)
    requires x >= 0x80
    ensures Inverses(x, Unaffine(S(x)))
  {
  }

  // The S-box is the affine transformation of the inverse.
  lemma SubstitutionBox(x: bv8)
    ensures Inverses(x, Unaffine(S(x))) && Affine(Unaffine(S(x))) == S(x)
  {
    UndoUnaffine(S(x));
    if x < 0x80 {
      LowHalf(x);
    } else {
      HighHalf(x);
    }
  }

  lemma Te0Entries(x: bv8)
    ensures Te0(x) == Word(Double(S(x)), S(x), S(x), Mul3(S(x)))
  {
  }

  lemma Te1Entries(x: bv8)
    ensures Te1(x) == Word(Mul3(S(x)), Double(S(x)), S(x), S(x))
  {
  }

  lemma Te2Entries(x: bv8)
    ensures Te2(x) == Word(S(x), Mul3(S(x)), Double(S(x)), S(x))
  {
  }

  lemma Te3Entries(x: bv8)
    ensures Te3(x) == Word(S(x), S(x), Mul3(S(x)), Double(S(x)))
  {
  }

  lemma Te4Entries(x: bv8)
    ensures Byte0(Te4(x)) == S(x) && Byte1(Te4(x)) == S(x) && Byte2(Te4(x)) == S(x)
  {
  }

  lemma Td0Entries(x: bv8)
    ensures Td0(x) == Word(Mul14(Si(x)), Mul9(Si(x)), Mul13(Si(x)), Mul11(Si(x)))
  {
  }

  lemma Td1Entries(x: bv8)
    ensures Td1(x) == Word(Mul11(Si(x)), Mul14(Si(x)), Mul9(Si(x)), Mul13(Si(x)))
  {
  }

  lemma Td2Entries(x: bv8)
    ensures Td2(x) == Word(Mul13(Si(x)), Mul11(Si(x)), Mul14(Si(x)), Mul9(Si(x)))
  {
  }

  lemma Td3Entries(x: bv8)
    ensures Td3(x) == Word(Mul9(Si(x)), Mul13(Si(x)), Mul11(Si(x)), Mul14(Si(x)))
  {
  }

  lemma Td4Entries(x: bv8)
    ensures Byte0(Td4(x)) == Si(x) && Byte1(Td4(x)) == Si(x) && Byte2(Td4(x)) == Si(x)
  {
  }

  // The entries are the products of the field that a column of MixColumns sums up.
  lemma EncryptionTables(x: bv8)
    ensures Te0(x) == Word(Mul(S(x), 0x02), S(x), S(x), Mul(S(x), 0x03))
    ensures Te1(x) == Word(Mul(S(x), 0x03), Mul(S(x), 0x02), S(x), S(x))
    ensures Te2(x) == Word(S(x), Mul(S(x), 0x03), Mul(S(x), 0x02), S(x))
    ensures Te3(x) == Word(S(x), S(x), Mul(S(x), 0x03), Mul(S(x), 0x02))
  {
    Te0Entries(x);
    Te1Entries(x);
    Te2Entries(x);
    Te3Entries(x);
    Multiples(S(x));
  }

  lemma DecryptionTables(x: bv8)
    ensures Td0(x) == Word(Mul(Si(x), 0x0e), Mul(Si(x), 0x09), Mul(Si(x), 0x0d), Mul(Si(x), 0x0b))
    ensures Td1(x) == Word(Mul(Si(x), 0x0b), Mul(Si(x), 0x0e), Mul(Si(x), 0x09), Mul(Si(x), 0x0d))
    ensures Td2(x) == Word(Mul(Si(x), 0x0d), Mul(Si(x), 0x0b), Mul(Si(x), 0x0e), Mul(Si(x), 0x09))
    ensures Td3(x) == Word(Mul(Si(x), 0x09), Mul(Si(x), 0x0d), Mul(Si(x), 0x0b), Mul(Si(x), 0x0e))
  {
    Td0Entries(x);
    Td1Entries(x);
    Td2Entries(x);
    Td3Entries(x);
    Multiples(Si(x));
  }

  // ----- columns

  function MixColumn(w: bv32): bv32 {
    var a, b, c, d := Byte0(w), Byte1(w), Byte2(w), Byte3(w);
    Word(Sum4(Double(a), Mul3(b), c, d), Sum4(Double(b), Mul3(c), d, a),
         Sum4(Double(c), Mul3(d), a, b), Sum4(Double(d), Mul3(a), b, c))
  }

  function InvMixColumn(w: bv32): bv32 {
    var a, b, c, d := Byte0(w), Byte1(w), Byte2(w), Byte3(w);
    Word(Sum4(Mul14(a), Mul11(b), Mul13(c), Mul9(d)), Sum4(Mul14(b), Mul11(c), Mul13(d), Mul9(a)),
         Sum4(Mul14(c), Mul11(d), Mul13(a), Mul9(b)), Sum4(Mul14(d), Mul11(a), Mul13(b), Mul9(c)))
  }

  lemma InverseMix(w: bv32)
    ensures InvMixColumn(MixColumn(w)) == w
  {
    var a, b, c, d := Byte0(w), Byte1(w), Byte2(w), Byte3(w);
    BytesWord(w);
    WordBytes(Sum4(Double(a), Mul3(b), c, d), Sum4(Double(b), Mul3(c), d, a),
              Sum4(Double(c), Mul3(d), a, b), Sum4(Double(d), Mul3(a), b, c));
    UnmixRow(a, b, c, d);
    UnmixRow(b, c, d, a);
    UnmixRow(c, d, a, b);
    UnmixRow(d, a, b, c);
  }

  // Addition of words, column by column.
  function Xor(v: bv32, w: bv32): bv32 { v ^ w }

  lemma XorByte0(v: bv32, w: bv32)
    ensures Byte0(Xor(v, w)) == Add(Byte0(v), Byte0(w))
  {
  }

  lemma XorByte1(v: bv32, w: bv32)
    ensures Byte1(Xor(v, w)) == Add(Byte1(v), Byte1(w))
  {
  }

  lemma XorByte2(v: bv32, w: bv32)
    ensures Byte2(Xor(v, w)) == Add(Byte2(v), Byte2(w))
  {
  }

  lemma XorByte3(v: bv32, w: bv32)
    ensures Byte3(Xor(v, w)) == Add(Byte3(v), Byte3(w))
  {
  }

  lemma XorBytes(v: bv32, w: bv32)
    ensures Byte0(Xor(v, w)) == Add(Byte0(v), Byte0(w)) && Byte1(Xor(v, w)) == Add(Byte1(v), Byte1(w))
    ensures Byte2(Xor(v, w)) == Add(Byte2(v), Byte2(w)) && Byte3(Xor(v, w)) == Add(Byte3(v), Byte3(w))
  {
    XorByte0(v, w);
    XorByte1(v, w);
    XorByte2(v, w);
    XorByte3(v, w);
  }

  lemma XorWords(a: bv8, b: bv8, c: bv8, d: bv8, a': bv8, b': bv8, c': bv8, d': bv8)
    ensures Xor(Word(a, b, c, d), Word(a', b', c', d')) == Word(Add(a, a'), Add(b, b'), Add(c, c'), Add(d, d'))
  {
    WordBytes(a, b, c, d);
    WordBytes(a', b', c', d');
    XorBytes(Word(a, b, c, d), Word(a', b', c', d'));
    BytesWord(Xor(Word(a, b, c, d), Word(a', b', c', d')));
  }

  lemma XorTwice(v: bv32, k: bv32)
    ensures Xor(Xor(v, k), k) == v
  {
  }

  lemma MulsLinear(x: bv8, y: bv8)
    ensures Mul9(Add(x, y)) == Add(Mul9(x), Mul9(y)) && Mul11(Add(x, y)) == Add(Mul11(x), Mul11(y))
    ensures Mul13(Add(x, y)) == Add(Mul13(x), Mul13(y)) && Mul14(Add(x, y)) == Add(Mul14(x), Mul14(y))
  {
    Mul9Linear(x, y);
    Mul11Linear(x, y);
    Mul13Linear(x, y);
    Mul14Linear(x, y);
  }

  lemma UnmixRowLinear(a: bv8, b: bv8, c: bv8, d: bv8, a': bv8, b': bv8, c': bv8, d': bv8)
    ensures Sum4(Mul14(Add(a, a')), Mul11(Add(b, b')), Mul13(Add(c, c')), Mul9(Add(d, d')))
         == Add(Sum4(Mul14(a), Mul11(b), Mul13(c), Mul9(d)), Sum4(Mul14(a'), Mul11(b'), Mul13(c'), Mul9(d')))
  {
    MulsLinear(a, a');
    MulsLinear(b, b');
    MulsLinear(c, c');
    MulsLinear(d, d');
    AddSums(Mul14(a), Mul11(b), Mul13(c), Mul9(d), Mul14(a'), Mul11(b'), Mul13(c'), Mul9(d'));
  }

  lemma InvMixLinear(v: bv32, w: bv32)
    ensures InvMixColumn(Xor(v, w)) == Xor(InvMixColumn(v), InvMixColumn(w))
  {
    var a, b, c, d := Byte0(v), Byte1(v), Byte2(v), Byte3(v);
    var a', b', c', d' := Byte0(w), Byte1(w), Byte2(w), Byte3(w);
    XorBytes(v, w);
    UnmixRowLinear(a, b, c, d, a', b', c', d');
    UnmixRowLinear(b, c, d, a, b', c', d', a');
    UnmixRowLinear(c, d, a, b, c', d', a', b');
    UnmixRowLinear(d, a, b, c, d', a', b', c');
    XorWords(Sum4(Mul14(a), Mul11(b), Mul13(c), Mul9(d)), Sum4(Mul14(b), Mul11(c), Mul13(d), Mul9(a)),
             Sum4(Mul14(c), Mul11(d), Mul13(a), Mul9(b)), Sum4(Mul14(d), Mul11(a), Mul13(b), Mul9(c)),
             Sum4(Mul14(a'), Mul11(b'), Mul13(c'), Mul9(d')), Sum4(Mul14(b'), Mul11(c'), Mul13(d'), Mul9(a')),
             Sum4(Mul14(c'), Mul11(d'), Mul13(a'), Mul9(b')), Sum4(Mul14(d'), Mul11(a'), Mul13(b'), Mul9(c')));
  }

  // ----- the state and its transformations (sections 5.1 and 5.3)

  datatype Block = Block(c0: bv32, c1: bv32, c2: bv32, c3: bv32)

  function SubWord(w: bv32): bv32 { Word(S(Byte0(w)), S(Byte1(w)), S(Byte2(w)), S(Byte3(w))) }
  function InvSubWord(w: bv32): bv32 { Word(Si(Byte0(w)), Si(Byte1(w)), Si(Byte2(w)), Si(Byte3(w))) }

  // A column of ShiftRows: one byte from each of four columns.
  function Diagonal(p: bv32, q: bv32, r: bv32, s: bv32): bv32 { Word(Byte0(p), Byte1(q), Byte2(r), Byte3(s)) }

  function SubBytes(b: Block): Block { Block(SubWord(b.c0), SubWord(b.c1), SubWord(b.c2), SubWord(b.c3)) }

  function InvSubBytes(b: Block): Block {
    Block(InvSubWord(b.c0), InvSubWord(b.c1), InvSubWord(b.c2), InvSubWord(b.c3))
  }

  function ShiftRows(b: Block): Block {
    Block(Diagonal(b.c0, b.c1, b.c2, b.c3), Diagonal(b.c1, b.c2, b.c3, b.c0),
          Diagonal(b.c2, b.c3, b.c0, b.c1), Diagonal(b.c3, b.c0, b.c1, b.c2))
  }

  function InvShiftRows(b: Block): Block {
    Block(Diagonal(b.c0, b.c3, b.c2, b.c1), Diagonal(b.c1, b.c0, b.c3, b.c2),
          Diagonal(b.c2, b.c1, b.c0, b.c3), Diagonal(b.c3, b.c2, b.c1, b.c0))
  }

  function MixColumns(b: Block): Block {
    Block(MixColumn(b.c0), MixColumn(b.c1), MixColumn(b.c2), MixColumn(b.c3))
  }

  function InvMixColumns(b: Block): Block {
    Block(InvMixColumn(b.c0), InvMixColumn(b.c1), InvMixColumn(b.c2), InvMixColumn(b.c3))
  }

  function AddRoundKey(b: Block, k: Block): Block {
    Block(Xor(b.c0, k.c0), Xor(b.c1, k.c1), Xor(b.c2, k.c2), Xor(b.c3, k.c3))
  }

  lemma InverseSubWord(w: bv32)
    ensures InvSubWord(SubWord(w)) == w
  {
    WordBytes(S(Byte0(w)), S(Byte1(w)), S(Byte2(w)), S(Byte3(w)));
    InverseS(Byte0(w));
    InverseS(Byte1(w));
    InverseS(Byte2(w));
    InverseS(Byte3(w));
    BytesWord(w);
  }

  lemma InverseSub(b: Block)
    ensures InvSubBytes(SubBytes(b)) == b
  {
    InverseSubWord(b.c0);
    InverseSubWord(b.c1);
    InverseSubWord(b.c2);
    InverseSubWord(b.c3);
  }

  lemma DiagonalBytes(p: bv32, q: bv32, r: bv32, s: bv32)
    ensures var d := Diagonal(p, q, r, s);
            Byte0(d) == Byte0(p) && Byte1(d) == Byte1(q) && Byte2(d) == Byte2(r) && Byte3(d) == Byte3(s)
  {
    WordBytes(Byte0(p), Byte1(q), Byte2(r), Byte3(s));
  }

  lemma InverseShift(b: Block)
    ensures InvShiftRows(ShiftRows(b)) == b
  {
    DiagonalBytes(b.c0, b.c1, b.c2, b.c3);
    DiagonalBytes(b.c1, b.c2, b.c3, b.c0);
    DiagonalBytes(b.c2, b.c3, b.c0, b.c1);
    DiagonalBytes(b.c3, b.c0, b.c1, b.c2);
    BytesWord(b.c0);
    BytesWord(b.c1);
    BytesWord(b.c2);
    BytesWord(b.c3);
  }

  lemma InvSubDiagonal(p: bv32, q: bv32, r: bv32, s: bv32)
    ensures InvSubWord(Diagonal(p, q, r, s)) == Diagonal(InvSubWord(p), InvSubWord(q), InvSubWord(r), InvSubWord(s))
  {
    DiagonalBytes(p, q, r, s);
    WordBytes(Si(Byte0(p)), Si(Byte1(p)), Si(Byte2(p)), Si(Byte3(p)));
    WordBytes(Si(Byte0(q)), Si(Byte1(q)), Si(Byte2(q)), Si(Byte3(q)));
    WordBytes(Si(Byte0(r)), Si(Byte1(r)), Si(Byte2(r)), Si(Byte3(r)));
    WordBytes(Si(Byte0(s)), Si(Byte1(s)), Si(Byte2(s)), Si(Byte3(s)));
  }

  // InvSubBytes commutes with ShiftRows (section 5.3.5, property 1).
  lemma SubCommutesShift(b: Block)
    ensures InvSubBytes(ShiftRows(b)) == ShiftRows(InvSubBytes(b))
  {
    InvSubDiagonal(b.c0, b.c1, b.c2, b.c3);
    InvSubDiagonal(b.c1, b.c2, b.c3, b.c0);
    InvSubDiagonal(b.c2, b.c3, b.c0, b.c1);
    InvSubDiagonal(b.c3, b.c0, b.c1, b.c2);
  }

  function SubShift(b: Block): Block { ShiftRows(SubBytes(b)) }
  function InvSubShift(b: Block): Block { InvShiftRows(InvSubBytes(b)) }

  lemma UndoSubShift(b: Block)
    ensures InvSubShift(SubShift(b)) == b
  {
    SubCommutesShift(SubBytes(b));
    InverseSub(b);
    InverseShift(b);
  }

  // InvMixColumns undoes a round's MixColumns under a transformed key (property 2).
  lemma UndoMix(b: Block, k: Block)
    ensures AddRoundKey(InvMixColumns(AddRoundKey(MixColumns(b), k)), InvMixColumns(k)) == b
  {
    UndoMixColumn(b.c0, k.c0);
    UndoMixColumn(b.c1, k.c1);
    UndoMixColumn(b.c2, k.c2);
    UndoMixColumn(b.c3, k.c3);
  }

  lemma UndoMixColumn(w: bv32, k: bv32)
    ensures Xor(InvMixColumn(Xor(MixColumn(w), k)), InvMixColumn(k)) == w
  {
    InvMixLinear(MixColumn(w), k);
    XorTwice(InvMixColumn(MixColumn(w)), InvMixColumn(k));
    InverseMix(w);
  }

  lemma UndoKey(b: Block, k: Block)
    ensures AddRoundKey(AddRoundKey(b, k), k) == b
  {
    XorTwice(b.c0, k.c0);
    XorTwice(b.c1, k.c1);
    XorTwice(b.c2, k.c2);
    XorTwice(b.c3, k.c3);
  }

  // The layers of the cipher.
  ghost predicate IsAes(l: Layers<Block>) {
    && (forall b {:trigger SubShift(b)} :: l.sub(b) == SubShift(b))
    && (forall b {:trigger InvSubShift(b)} :: l.unsub(b) == InvSubShift(b))
    && (forall b {:trigger MixColumns(b)} :: l.mix(b) == MixColumns(b))
    && (forall b {:trigger InvMixColumns(b)} :: l.unmix(b) == InvMixColumns(b))
    && (forall b, k {:trigger AddRoundKey(b, k)} :: l.add(b, k) == AddRoundKey(b, k))
  }

  const AES := Layers(SubShift, InvSubShift, MixColumns, InvMixColumns, AddRoundKey)

  lemma AesIs()
    ensures IsAes(AES)
  {
  }

  lemma AesInvertible(l: Layers<Block>)
    requires IsAes(l)
    ensures Invertible(l)
  {
    forall b ensures l.unsub(l.sub(b)) == b {
      UndoSubShift(b);
    }
    forall b, k ensures l.add(l.add(b, k), k) == b {
      UndoKey(b, k);
    }
    forall b, k ensures l.add(l.unmix(l.add(l.mix(b), k)), l.unmix(k)) == b {
      UndoMix(b, k);
    }
  }
}
