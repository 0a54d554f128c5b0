/** The table look-ups of the round loops compute the rounds of the cipher. */
module AesColumns {
  import opened Gf256
  import opened AesTables
  import opened AesSpec

  // One word of a full round: four look-ups and the round key.
  function EncColumn(a: bv8, b: bv8, c: bv8, d: bv8, k: bv32): bv32 {
    Xor(Xor(Xor(Xor(Te0(a), Te1(b)), Te2(c)), Te3(d)), k)
  }

  function DecColumn(a: bv8, b: bv8, c: bv8, d: bv8, k: bv32): bv32 {
    Xor(Xor(Xor(Xor(Td0(a), Td1(b)), Td2(c)), Td3(d)), k)
  }

  function Mask0(w: bv32): bv32 { w & 0xff000000 }
  function Mask1(w: bv32): bv32 { w & 0x00ff0000 }
  function Mask2(w: bv32): bv32 { w & 0x0000ff00 }
  function Mask3(w: bv32): bv32 { w & 0x000000ff }

  // One word of the last round: masked look-ups.
  function EncLastColumn(a: bv8, b: bv8, c: bv8, d: bv8, k: bv32): bv32 {
    Xor(Xor(Xor(Xor(Mask0(Te4(a)), Mask1(Te4(b))), Mask2(Te4(c))), Mask3(Te4(d))), k)
  }

  function DecLastColumn(a: bv8, b: bv8, c: bv8, d: bv8, k: bv32): bv32 {
    Xor(Xor(Xor(Xor(Mask0(Td4(a)), Mask1(Td4(b))), Mask2(Td4(c))), Mask3(Td4(d))), k)
  }

  function EncStep(s: Block, k: Block): Block {
    Block(EncColumn(Byte0(s.c0), Byte1(s.c1), Byte2(s.c2), Byte3(s.c3), k.c0),
          EncColumn(Byte0(s.c1), Byte1(s.c2), Byte2(s.c3), Byte3(s.c0), k.c1),
          EncColumn(Byte0(s.c2), Byte1(s.c3), Byte2(s.c0), Byte3(s.c1), k.c2),
          EncColumn(Byte0(s.c3), Byte1(s.c0), Byte2(s.c1), Byte3(s.c2), k.c3))
  }

  function EncLast(t: Block, k: Block): Block {
    Block(EncLastColumn(Byte0(t.c0), Byte1(t.c1), Byte2(t.c2), Byte3(t.c3), k.c0),
          EncLastColumn(Byte0(t.c1), Byte1(t.c2), Byte2(t.c3), Byte3(t.c0), k.c1),
          EncLastColumn(Byte0(t.c2), Byte1(t.c3), Byte2(t.c0), Byte3(t.c1), k.c2),
          EncLastColumn(Byte0(t.c3), Byte1(t.c0), Byte2(t.c1), Byte3(t.c2), k.c3))
  }

  function DecStep(s: Block, k: Block): Block {
    Block(DecColumn(Byte0(s.c0), Byte1(s.c3), Byte2(s.c2), Byte3(s.c1), k.c0),
          DecColumn(Byte0(s.c1), Byte1(s.c0), Byte2(s.c3), Byte3(s.c2), k.c1),
          DecColumn(Byte0(s.c2), Byte1(s.c1), Byte2(s.c0), Byte3(s.c3), k.c2),
          DecColumn(Byte0(s.c3), Byte1(s.c2), Byte2(s.c1), Byte3(s.c0), k.c3))
  }

  function DecLast(t: Block, k: Block): Block {
    Block(DecLastColumn(Byte0(t.c0), Byte1(t.c3), Byte2(t.c2), Byte3(t.c1), k.c0),
          DecLastColumn(Byte0(t.c1), Byte1(t.c0), Byte2(t.c3), Byte3(t.c2), k.c1),
          DecLastColumn(Byte0(t.c2), Byte1(t.c1), Byte2(t.c0), Byte3(t.c3), k.c2),
          DecLastColumn(Byte0(t.c3), Byte1(t.c2), Byte2(t.c1), Byte3(t.c0), k.c3))
  }

  lemma XorWords4(a0: bv8, b0: bv8, c0: bv8, d0: bv8, a1: bv8, b1: bv8, c1: bv8, d1: bv8,
                  a2: bv8, b2: bv8, c2: bv8, d2: bv8, a3: bv8, b3: bv8, c3: bv8, d3: bv8)
    ensures Xor(Xor(Xor(Word(a0, b0, c0, d0), Word(a1, b1, c1, d1)), Word(a2, b2, c2, d2)), Word(a3, b3, c3, d3))
         == Word(Sum4(a0, a1, a2, a3), Sum4(b0, b1, b2, b3), Sum4(c0, c1, c2, c3), Sum4(d0, d1, d2, d3))
  {
    XorWords(a0, b0, c0, d0, a1, b1, c1, d1);
    XorWords(Add(a0, a1), Add(b0, b1), Add(c0, c1), Add(d0, d1), a2, b2, c2, d2);
    XorWords(Add(Add(a0, a1), a2), Add(Add(b0, b1), b2), Add(Add(c0, c1), c2), Add(Add(d0, d1), d2), a3, b3, c3, d3);
    Associates(Add(a0, a1), a2, a3);
    Associates(Add(b0, b1), b2, b3);
    Associates(Add(c0, c1), c2, c3);
    Associates(Add(d0, d1), d2, d3);
  }

  // Four columns of products are the mixed column.
  lemma MixByColumns(a: bv8, b: bv8, c: bv8, d: bv8)
    ensures Xor(Xor(Xor(Word(Double(a), a, a, Mul3(a)), Word(Mul3(b), Double(b), b, b)),
                    Word(c, Mul3(c), Double(c), c)), Word(d, d, Mul3(d), Double(d)))
         == MixColumn(Word(a, b, c, d))
  {
    WordBytes(a, b, c, d);
    XorWords4(Double(a), a, a, Mul3(a), Mul3(b), Double(b), b, b, c, Mul3(c), Double(c), c, d, d, Mul3(d), Double(d));
    Rotate4(a, Double(b), Mul3(c), d);
    Rotate4(a, b, Double(c), Mul3(d));
    Rotate4(b, Double(c), Mul3(d), a);
    Rotate4(Mul3(a), b, c, Double(d));
    Rotate4(b, c, Double(d), Mul3(a));
    Rotate4(c, Double(d), Mul3(a), b);
  }

  lemma UnmixByColumns(a: bv8, b: bv8, c: bv8, d: bv8)
    ensures Xor(Xor(Xor(Word(Mul14(a), Mul9(a), Mul13(a), Mul11(a)), Word(Mul11(b), Mul14(b), Mul9(b), Mul13(b))),
                    Word(Mul13(c), Mul11(c), Mul14(c), Mul9(c))), Word(Mul9(d), Mul13(d), Mul11(d), Mul14(d)))
         == InvMixColumn(Word(a, b, c, d))
  {
    WordBytes(a, b, c, d);
    XorWords4(Mul14(a), Mul9(a), Mul13(a), Mul11(a), Mul11(b), Mul14(b), Mul9(b), Mul13(b),
              Mul13(c), Mul11(c), Mul14(c), Mul9(c), Mul9(d), Mul13(d), Mul11(d), Mul14(d));
    Rotate4(Mul9(a), Mul14(b), Mul11(c), Mul13(d));
    Rotate4(Mul13(a), Mul9(b), Mul14(c), Mul11(d));
    Rotate4(Mul9(b), Mul14(c), Mul11(d), Mul13(a));
    Rotate4(Mul11(a), Mul13(b), Mul9(c), Mul14(d));
    Rotate4(Mul13(b), Mul9(c), Mul14(d), Mul11(a));
    Rotate4(Mul9(c), Mul14(d), Mul11(a), Mul13(b));
  }

  lemma EncColumnIs(a: bv8, b: bv8, c: bv8, d: bv8, k: bv32)
    ensures EncColumn(a, b, c, d, k) == Xor(MixColumn(Word(S(a), S(b), S(c), S(d))), k)
  {
    Te0Entries(a);
    Te1Entries(b);
    Te2Entries(c);
    Te3Entries(d);
    MixByColumns(S(a), S(b), S(c), S(d));
  }

  lemma DecColumnIs(a: bv8, b: bv8, c: bv8, d: bv8, k: bv32)
    ensures DecColumn(a, b, c, d, k) == Xor(InvMixColumn(Word(Si(a), Si(b), Si(c), Si(d))), k)
  {
    Td0Entries(a);
    Td1Entries(b);
    Td2Entries(c);
    Td3Entries(d);
    UnmixByColumns(Si(a), Si(b), Si(c), Si(d));
  }

  lemma MaskedWord(p: bv32, q: bv32, r: bv32, s: bv32)
    ensures Xor(Xor(Xor(Mask0(p), Mask1(q)), Mask2(r)), Mask3(s))
         == Word(Byte0(p), Byte1(q), Byte2(r), Byte3(s))
  {
  }

  // Entries that repeat one byte, masked, make a word of four such bytes.
  lemma MaskedEntries(p: bv32, q: bv32, r: bv32, s: bv32, a: bv8, b: bv8, c: bv8, d: bv8, k: bv32)
    requires Byte0(p) == a && Byte1(q) == b && Byte2(r) == c && Byte3(s) == d
    ensures Xor(Xor(Xor(Xor(Mask0(p), Mask1(q)), Mask2(r)), Mask3(s)), k)
         == Xor(Word(a, b, c, d), k)
  {
    MaskedWord(p, q, r, s);
  }

  lemma EncLastColumnIs(a: bv8, b: bv8, c: bv8, d: bv8, k: bv32)
    ensures EncLastColumn(a, b, c, d, k) == Xor(Word(S(a), S(b), S(c), S(d)), k)
  {
    Te4Entries(a);
    Te4Entries(b);
    Te4Entries(c);
    MaskedEntries(Te4(a), Te4(b), Te4(c), Te4(d), S(a), S(b), S(c), S(d), k);
  }

  lemma DecLastColumnIs(a: bv8, b: bv8, c: bv8, d: bv8, k: bv32)
    ensures DecLastColumn(a, b, c, d, k) == Xor(Word(Si(a), Si(b), Si(c), Si(d)), k)
  {
    Td4Entries(a);
    Td4Entries(b);
    Td4Entries(c);
    MaskedEntries(Td4(a), Td4(b), Td4(c), Td4(d), Si(a), Si(b), Si(c), Si(d), k);
  }

  // A diagonal of substituted columns is a word of substituted bytes.
  lemma SubDiagonal(p: bv32, q: bv32, r: bv32, s: bv32)
    ensures Diagonal(SubWord(p), SubWord(q), SubWord(r), SubWord(s)) == Word(S(Byte0(p)), S(Byte1(q)), S(Byte2(r)), S(Byte3(s)))
  {
    WordBytes(S(Byte0(p)), S(Byte1(p)), S(Byte2(p)), S(Byte3(p)));
    WordBytes(S(Byte0(q)), S(Byte1(q)), S(Byte2(q)), S(Byte3(q)));
    WordBytes(S(Byte0(r)), S(Byte1(r)), S(Byte2(r)), S(Byte3(r)));
    WordBytes(S(Byte0(s)), S(Byte1(s)), S(Byte2(s)), S(Byte3(s)));
  }

  lemma InvSubDiagonalWord(p: bv32, q: bv32, r: bv32, s: bv32)
    ensures Diagonal(InvSubWord(p), InvSubWord(q), InvSubWord(r), InvSubWord(s))
         == Word(Si(Byte0(p)), Si(Byte1(q)), Si(Byte2(r)), Si(Byte3(s)))
  {
    WordBytes(Si(Byte0(p)), Si(Byte1(p)), Si(Byte2(p)), Si(Byte3(p)));
    WordBytes(Si(Byte0(q)), Si(Byte1(q)), Si(Byte2(q)), Si(Byte3(q)));
    WordBytes(Si(Byte0(r)), Si(Byte1(r)), Si(Byte2(r)), Si(Byte3(r)));
    WordBytes(Si(Byte0(s)), Si(Byte1(s)), Si(Byte2(s)), Si(Byte3(s)));
  }

  lemma EncWordIs(p: bv32, q: bv32, r: bv32, s: bv32, k: bv32)
    ensures EncColumn(Byte0(p), Byte1(q), Byte2(r), Byte3(s), k)
         == Xor(MixColumn(Diagonal(SubWord(p), SubWord(q), SubWord(r), SubWord(s))), k)
  {
    EncColumnIs(Byte0(p), Byte1(q), Byte2(r), Byte3(s), k);
    SubDiagonal(p, q, r, s);
  }

  lemma EncLastWordIs(p: bv32, q: bv32, r: bv32, s: bv32, k: bv32)
    ensures EncLastColumn(Byte0(p), Byte1(q), Byte2(r), Byte3(s), k)
         == Xor(Diagonal(SubWord(p), SubWord(q), SubWord(r), SubWord(s)), k)
  {
    EncLastColumnIs(Byte0(p), Byte1(q), Byte2(r), Byte3(s), k);
    SubDiagonal(p, q, r, s);
  }

  lemma DecWordIs(p: bv32, q: bv32, r: bv32, s: bv32, k: bv32)
    ensures DecColumn(Byte0(p), Byte1(q), Byte2(r), Byte3(s), k)
         == Xor(InvMixColumn(Diagonal(InvSubWord(p), InvSubWord(q), InvSubWord(r), InvSubWord(s))), k)
  {
    DecColumnIs(Byte0(p), Byte1(q), Byte2(r), Byte3(s), k);
    InvSubDiagonalWord(p, q, r, s);
  }

  lemma DecLastWordIs(p: bv32, q: bv32, r: bv32, s: bv32, k: bv32)
    ensures DecLastColumn(Byte0(p), Byte1(q), Byte2(r), Byte3(s), k)
         == Xor(Diagonal(InvSubWord(p), InvSubWord(q), InvSubWord(r), InvSubWord(s)), k)
  {
    DecLastColumnIs(Byte0(p), Byte1(q), Byte2(r), Byte3(s), k);
    InvSubDiagonalWord(p, q, r, s);
  }

  // The look-ups of one iteration are a round of the cipher (section 5.1) ...
  lemma EncStepIs(s: Block, k: Block)
    ensures EncStep(s, k) == AddRoundKey(MixColumns(SubShift(s)), k)
  {
    EncWordIs(s.c0, s.c1, s.c2, s.c3, k.c0);
    EncWordIs(s.c1, s.c2, s.c3, s.c0, k.c1);
    EncWordIs(s.c2, s.c3, s.c0, s.c1, k.c2);
    EncWordIs(s.c3, s.c0, s.c1, s.c2, k.c3);
  }

  lemma EncLastIs(t: Block, k: Block)
    ensures EncLast(t, k) == AddRoundKey(SubShift(t), k)
  {
    EncLastWordIs(t.c0, t.c1, t.c2, t.c3, k.c0);
    EncLastWordIs(t.c1, t.c2, t.c3, t.c0, k.c1);
    EncLastWordIs(t.c2, t.c3, t.c0, t.c1, k.c2);
    EncLastWordIs(t.c3, t.c0, t.c1, t.c2, k.c3);
  }

  // ... and of the equivalent inverse cipher (section 5.3.5).
  lemma DecStepIs(s: Block, k: Block)
    ensures DecStep(s, k) == AddRoundKey(InvMixColumns(InvSubShift(s)), k)
  {
    DecWordIs(s.c0, s.c3, s.c2, s.c1, k.c0);
    DecWordIs(s.c1, s.c0, s.c3, s.c2, k.c1);
    DecWordIs(s.c2, s.c1, s.c0, s.c3, k.c2);
    DecWordIs(s.c3, s.c2, s.c1, s.c0, k.c3);
  }

  lemma DecLastIs(t: Block, k: Block)
    ensures DecLast(t, k) == AddRoundKey(InvSubShift(t), k)
  {
    DecLastWordIs(t.c0, t.c3, t.c2, t.c1, k.c0);
    DecLastWordIs(t.c1, t.c0, t.c3, t.c2, k.c1);
    DecLastWordIs(t.c2, t.c1, t.c0, t.c3, k.c2);
    DecLastWordIs(t.c3, t.c2, t.c1, t.c0, k.c3);
  }

  // The look-ups AES_set_decrypt_key makes for a word of a round key.
  function UnmixLookup(w: bv32): bv32 {
    Xor(Xor(Xor(Td0(Byte3(Te4(Byte0(w)))), Td1(Byte3(Te4(Byte1(w))))), Td2(Byte3(Te4(Byte2(w))))), Td3(Byte3(Te4(Byte3(w)))))
  }

  lemma UnmixLookupIs(w: bv32)
    ensures UnmixLookup(w) == InvMixColumn(w)
  {
    var a, b, c, d := Byte0(w), Byte1(w), Byte2(w), Byte3(w);
    Td0Entries(S(a));
    Td1Entries(S(b));
    Td2Entries(S(c));
    Td3Entries(S(d));
    InverseS(a);
    InverseS(b);
    InverseS(c);
    InverseS(d);
    UnmixByColumns(a, b, c, d);
    BytesWord(w);
  }
}
