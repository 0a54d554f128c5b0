/** Known answers of FIPS 197: the key expansions of appendix A, for each key size, and the
    cipher example of appendix C.1. */
module AesAnswers {
  import opened Gf256
  import opened AesSpec
  import opened KeySchedule
  import opened IteratedCipher
  import opened CipherRounds
  import opened Aes

  // RotWord moves the first byte to the end (section 5.2).
  lemma RotWordIs(w: bv32)
    ensures RotWord(w) == w.RotateLeft(8)
  {
  }

  lemma RotSubAt(w: bv32, s: bv32, i: nat, r: bv32)
    requires 0 < i <= 10 && SubWord(RotWord(w)) == s && r == Xor(s, RCON[i - 1])
    ensures FIPS.rot(w, i) == r
  {
    RconEntries(i);
  }

  // ----- the expansion of a 128-bit key (appendix A.1)

  function A1(i: nat): bv32 {
    if i == 0 then 0x2b7e1516 else if i == 1 then 0x28aed2a6 else if i == 2 then 0xabf71588 else
    if i == 3 then 0x09cf4f3c else if i == 4 then 0xa0fafe17 else if i == 5 then 0x88542cb1 else
    if i == 6 then 0x23a33939 else if i == 7 then 0x2a6c7605 else if i == 8 then 0xf2c295f2 else
    if i == 9 then 0x7a96b943 else if i == 10 then 0x5935807a else if i == 11 then 0x7359f67f else
    if i == 12 then 0x3d80477d else if i == 13 then 0x4716fe3e else if i == 14 then 0x1e237e44 else
    if i == 15 then 0x6d7a883b else if i == 16 then 0xef44a541 else if i == 17 then 0xa8525b7f else
    if i == 18 then 0xb671253b else if i == 19 then 0xdb0bad00 else if i == 20 then 0xd4d1c6f8 else
    if i == 21 then 0x7c839d87 else if i == 22 then 0xcaf2b8bc else if i == 23 then 0x11f915bc else
    if i == 24 then 0x6d88a37a else if i == 25 then 0x110b3efd else if i == 26 then 0xdbf98641 else
    if i == 27 then 0xca0093fd else if i == 28 then 0x4e54f70e else if i == 29 then 0x5f5fc9f3 else
    if i == 30 then 0x84a64fb2 else if i == 31 then 0x4ea6dc4f else if i == 32 then 0xead27321 else
    if i == 33 then 0xb58dbad2 else if i == 34 then 0x312bf560 else if i == 35 then 0x7f8d292f else
    if i == 36 then 0xac7766f3 else if i == 37 then 0x19fadc21 else if i == 38 then 0x28d12941 else
    if i == 39 then 0x575c006e else if i == 40 then 0xd014f9a8 else if i == 41 then 0xc9ee2589 else
    if i == 42 then 0xe13f0cc8 else 0xb6630ca6
  }

  lemma A1Step1(i: nat)
    requires 4 <= i < 8
    ensures A1(i) == Next(FIPS, 4, A1(i - 4), A1(i - 1), i)
  {
    RotSubAt(0x09cf4f3c, 0x8a84eb01, 1, 0x8b84eb01);
  }

  lemma A1Step2(i: nat)
    requires 8 <= i < 12
    ensures A1(i) == Next(FIPS, 4, A1(i - 4), A1(i - 1), i)
  {
    RotSubAt(0x2a6c7605, 0x50386be5, 2, 0x52386be5);
  }

  lemma A1Step3(i: nat)
    requires 12 <= i < 16
    ensures A1(i) == Next(FIPS, 4, A1(i - 4), A1(i - 1), i)
  {
    RotSubAt(0x7359f67f, 0xcb42d28f, 3, 0xcf42d28f);
  }

  lemma A1Step4(i: nat)
    requires 16 <= i < 20
    ensures A1(i) == Next(FIPS, 4, A1(i - 4), A1(i - 1), i)
  {
    RotSubAt(0x6d7a883b, 0xdac4e23c, 4, 0xd2c4e23c);
  }

  lemma A1Step5(i: nat)
    requires 20 <= i < 24
    ensures A1(i) == Next(FIPS, 4, A1(i - 4), A1(i - 1), i)
  {
    RotSubAt(0xdb0bad00, 0x2b9563b9, 5, 0x3b9563b9);
  }

  lemma A1Step6(i: nat)
    requires 24 <= i < 28
    ensures A1(i) == Next(FIPS, 4, A1(i - 4), A1(i - 1), i)
  {
    RotSubAt(0x11f915bc, 0x99596582, 6, 0xb9596582);
  }

  lemma A1Step7(i: nat)
    requires 28 <= i < 32
    ensures A1(i) == Next(FIPS, 4, A1(i - 4), A1(i - 1), i)
  {
    RotSubAt(0xca0093fd, 0x63dc5474, 7, 0x23dc5474);
  }

  lemma A1Step8(i: nat)
    requires 32 <= i < 36
    ensures A1(i) == Next(FIPS, 4, A1(i - 4), A1(i - 1), i)
  {
    RotSubAt(0x4ea6dc4f, 0x2486842f, 8, 0xa486842f);
  }

  lemma A1Step9(i: nat)
    requires 36 <= i < 40
    ensures A1(i) == Next(FIPS, 4, A1(i - 4), A1(i - 1), i)
  {
    RotSubAt(0x7f8d292f, 0x5da515d2, 9, 0x46a515d2);
  }

  lemma A1Step10(i: nat)
    requires 40 <= i < 44
    ensures A1(i) == Next(FIPS, 4, A1(i - 4), A1(i - 1), i)
  {
    RotSubAt(0x575c006e, 0x4a639f5b, 10, 0x7c639f5b);
  }

  ghost predicate IsA1(key: seq<bv32>) {
    |key| == 4 && forall j :: 0 <= j < 4 ==> key[j] == A1(j)
  }

  lemma A1Words(key: seq<bv32>)
    requires IsA1(key)
    ensures forall i {:trigger Words(FIPS, key, 44)[i]} :: 0 <= i < 44 ==> Words(FIPS, key, 44)[i] == A1(i)
  {
    forall j | 4 <= j < 44 ensures A1(j) == Next(FIPS, 4, A1(j - 4), A1(j - 1), j) {
      if j < 8 {
        A1Step1(j);
      } else if j < 12 {
        A1Step2(j);
      } else if j < 16 {
        A1Step3(j);
      } else if j < 20 {
        A1Step4(j);
      } else if j < 24 {
        A1Step5(j);
      } else if j < 28 {
        A1Step6(j);
      } else if j < 32 {
        A1Step7(j);
      } else if j < 36 {
        A1Step8(j);
      } else if j < 40 {
        A1Step9(j);
      } else {
        A1Step10(j);
      }
    }
    WordsAre(FIPS, key, A1, 44);
  }

  lemma A1Answer(user: seq<bv8>, key: seq<bv32>)
    requires 16 <= |user| && key == KeyWords(user, 4) && IsA1(key)
    ensures forall i :: 0 <= i < 44 ==> Schedule(user, 128)[i] == A1(i)
  {
    ScheduleIsWords(user, 128, 4, 44, key);
    A1Words(key);
  }

  // ----- the expansion of a 192-bit key (appendix A.2)

  function A2(i: nat): bv32 {
    if i == 0 then 0x8e73b0f7 else if i == 1 then 0xda0e6452 else if i == 2 then 0xc810f32b else
    if i == 3 then 0x809079e5 else if i == 4 then 0x62f8ead2 else if i == 5 then 0x522c6b7b else
    if i == 6 then 0xfe0c91f7 else if i == 7 then 0x2402f5a5 else if i == 8 then 0xec12068e else
    if i == 9 then 0x6c827f6b else if i == 10 then 0x0e7a95b9 else if i == 11 then 0x5c56fec2 else
    if i == 12 then 0x4db7b4bd else if i == 13 then 0x69b54118 else if i == 14 then 0x85a74796 else
    if i == 15 then 0xe92538fd else if i == 16 then 0xe75fad44 else if i == 17 then 0xbb095386 else
    if i == 18 then 0x485af057 else if i == 19 then 0x21efb14f else if i == 20 then 0xa448f6d9 else
    if i == 21 then 0x4d6dce24 else if i == 22 then 0xaa326360 else if i == 23 then 0x113b30e6 else
    if i == 24 then 0xa25e7ed5 else if i == 25 then 0x83b1cf9a else if i == 26 then 0x27f93943 else
    if i == 27 then 0x6a94f767 else if i == 28 then 0xc0a69407 else if i == 29 then 0xd19da4e1 else
    if i == 30 then 0xec1786eb else if i == 31 then 0x6fa64971 else if i == 32 then 0x485f7032 else
    if i == 33 then 0x22cb8755 else if i == 34 then 0xe26d1352 else if i == 35 then 0x33f0b7b3 else
    if i == 36 then 0x40beeb28 else if i == 37 then 0x2f18a259 else if i == 38 then 0x6747d26b else
    if i == 39 then 0x458c553e else if i == 40 then 0xa7e1466c else if i == 41 then 0x9411f1df else
    if i == 42 then 0x821f750a else if i == 43 then 0xad07d753 else if i == 44 then 0xca400538 else
    if i == 45 then 0x8fcc5006 else if i == 46 then 0x282d166a else if i == 47 then 0xbc3ce7b5 else
    if i == 48 then 0xe98ba06f else if i == 49 then 0x448c773c else if i == 50 then 0x8ecc7204 else 0x01002202
  }

  lemma A2Step1(i: nat)
    requires 6 <= i < 12
    ensures A2(i) == Next(FIPS, 6, A2(i - 6), A2(i - 1), i)
  {
    RotSubAt(0x522c6b7b, 0x717f2100, 1, 0x707f2100);
  }

  lemma A2Step2(i: nat)
    requires 12 <= i < 18
    ensures A2(i) == Next(FIPS, 6, A2(i - 6), A2(i - 1), i)
  {
    RotSubAt(0x5c56fec2, 0xb1bb254a, 2, 0xb3bb254a);
  }

  lemma A2Step3(i: nat)
    requires 18 <= i < 24
    ensures A2(i) == Next(FIPS, 6, A2(i - 6), A2(i - 1), i)
  {
    RotSubAt(0xbb095386, 0x01ed44ea, 3, 0x05ed44ea);
  }

  lemma A2Step4(i: nat)
    requires 24 <= i < 30
    ensures A2(i) == Next(FIPS, 6, A2(i - 6), A2(i - 1), i)
  {
    RotSubAt(0x113b30e6, 0xe2048e82, 4, 0xea048e82);
  }

  lemma A2Step5(i: nat)
    requires 30 <= i < 36
    ensures A2(i) == Next(FIPS, 6, A2(i - 6), A2(i - 1), i)
  {
    RotSubAt(0xd19da4e1, 0x5e49f83e, 5, 0x4e49f83e);
  }

  lemma A2Step6(i: nat)
    requires 36 <= i < 42
    ensures A2(i) == Next(FIPS, 6, A2(i - 6), A2(i - 1), i)
  {
    RotSubAt(0x33f0b7b3, 0x8ca96dc3, 6, 0xaca96dc3);
  }

  lemma A2Step7(i: nat)
    requires 42 <= i < 48
    ensures A2(i) == Next(FIPS, 6, A2(i - 6), A2(i - 1), i)
  {
    RotSubAt(0x9411f1df, 0x82a19e22, 7, 0xc2a19e22);
  }

  lemma A2Step8(i: nat)
    requires 48 <= i < 52
    ensures A2(i) == Next(FIPS, 6, A2(i - 6), A2(i - 1), i)
  {
    RotSubAt(0xbc3ce7b5, 0xeb94d565, 8, 0x6b94d565);
  }

  ghost predicate IsA2(key: seq<bv32>) {
    |key| == 6 && forall j :: 0 <= j < 6 ==> key[j] == A2(j)
  }

  lemma A2Words(key: seq<bv32>)
    requires IsA2(key)
    ensures forall i {:trigger Words(FIPS, key, 52)[i]} :: 0 <= i < 52 ==> Words(FIPS, key, 52)[i] == A2(i)
  {
    forall j | 6 <= j < 52 ensures A2(j) == Next(FIPS, 6, A2(j - 6), A2(j - 1), j) {
      if j < 12 {
        A2Step1(j);
      } else if j < 18 {
        A2Step2(j);
      } else if j < 24 {
        A2Step3(j);
      } else if j < 30 {
        A2Step4(j);
      } else if j < 36 {
        A2Step5(j);
      } else if j < 42 {
        A2Step6(j);
      } else if j < 48 {
        A2Step7(j);
      } else {
        A2Step8(j);
      }
    }
    WordsAre(FIPS, key, A2, 52);
  }

  lemma A2Answer(user: seq<bv8>, key: seq<bv32>)
    requires 24 <= |user| && key == KeyWords(user, 6) && IsA2(key)
    ensures forall i :: 0 <= i < 52 ==> Schedule(user, 192)[i] == A2(i)
  {
    ScheduleIsWords(user, 192, 6, 52, key);
    A2Words(key);
  }

  // ----- the expansion of a 256-bit key (appendix A.3)

  function A3(i: nat): bv32 {
    if i == 0 then 0x603deb10 else if i == 1 then 0x15ca71be else if i == 2 then 0x2b73aef0 else
    if i == 3 then 0x857d7781 else if i == 4 then 0x1f352c07 else if i == 5 then 0x3b6108d7 else
    if i == 6 then 0x2d9810a3 else if i == 7 then 0x0914dff4 else if i == 8 then 0x9ba35411 else
    if i == 9 then 0x8e6925af else if i == 10 then 0xa51a8b5f else if i == 11 then 0x2067fcde else
    if i == 12 then 0xa8b09c1a else if i == 13 then 0x93d194cd else if i == 14 then 0xbe49846e else
    if i == 15 then 0xb75d5b9a else if i == 16 then 0xd59aecb8 else if i == 17 then 0x5bf3c917 else
    if i == 18 then 0xfee94248 else if i == 19 then 0xde8ebe96 else if i == 20 then 0xb5a9328a else
    if i == 21 then 0x2678a647 else if i == 22 then 0x98312229 else if i == 23 then 0x2f6c79b3 else
    if i == 24 then 0x812c81ad else if i == 25 then 0xdadf48ba else if i == 26 then 0x24360af2 else
    if i == 27 then 0xfab8b464 else if i == 28 then 0x98c5bfc9 else if i == 29 then 0xbebd198e else
    if i == 30 then 0x268c3ba7 else if i == 31 then 0x09e04214 else if i == 32 then 0x68007bac else
    if i == 33 then 0xb2df3316 else if i == 34 then 0x96e939e4 else if i == 35 then 0x6c518d80 else
    if i == 36 then 0xc814e204 else if i == 37 then 0x76a9fb8a else if i == 38 then 0x5025c02d else
    if i == 39 then 0x59c58239 else if i == 40 then 0xde136967 else if i == 41 then 0x6ccc5a71 else
    if i == 42 then 0xfa256395 else if i == 43 then 0x9674ee15 else if i == 44 then 0x5886ca5d else
    if i == 45 then 0x2e2f31d7 else if i == 46 then 0x7e0af1fa else if i == 47 then 0x27cf73c3 else
    if i == 48 then 0x749c47ab else if i == 49 then 0x18501dda else if i == 50 then 0xe2757e4f else
    if i == 51 then 0x7401905a else if i == 52 then 0xcafaaae3 else if i == 53 then 0xe4d59b34 else
    if i == 54 then 0x9adf6ace else if i == 55 then 0xbd10190d else if i == 56 then 0xfe4890d1 else
    if i == 57 then 0xe6188d0b else if i == 58 then 0x046df344 else 0x706c631e
  }

  lemma A3Step1(i: nat)
    requires 8 <= i < 12
    ensures A3(i) == Next(FIPS, 8, A3(i - 8), A3(i - 1), i)
  {
    if i == 8 {
      RotSubAt(0x0914dff4, 0xfa9ebf01, 1, 0xfb9ebf01);
    }
  }

  lemma A3Step2(i: nat)
    requires 12 <= i < 16
    ensures A3(i) == Next(FIPS, 8, A3(i - 8), A3(i - 1), i)
  {
    if i == 12 {
      assert SubWord(0x2067fcde) == 0xb785b01d;
    }
  }

  lemma A3Step3(i: nat)
    requires 16 <= i < 20
    ensures A3(i) == Next(FIPS, 8, A3(i - 8), A3(i - 1), i)
  {
    if i == 16 {
      RotSubAt(0xb75d5b9a, 0x4c39b8a9, 2, 0x4e39b8a9);
    }
  }

  lemma A3Step4(i: nat)
    requires 20 <= i < 24
    ensures A3(i) == Next(FIPS, 8, A3(i - 8), A3(i - 1), i)
  {
    if i == 20 {
      assert SubWord(0xde8ebe96) == 0x1d19ae90;
    }
  }

  lemma A3Step5(i: nat)
    requires 24 <= i < 28
    ensures A3(i) == Next(FIPS, 8, A3(i - 8), A3(i - 1), i)
  {
    if i == 24 {
      RotSubAt(0x2f6c79b3, 0x50b66d15, 3, 0x54b66d15);
    }
  }

  lemma A3Step6(i: nat)
    requires 28 <= i < 32
    ensures A3(i) == Next(FIPS, 8, A3(i - 8), A3(i - 1), i)
  {
    if i == 28 {
      assert SubWord(0xfab8b464) == 0x2d6c8d43;
    }
  }

  lemma A3Step7(i: nat)
    requires 32 <= i < 36
    ensures A3(i) == Next(FIPS, 8, A3(i - 8), A3(i - 1), i)
  {
    if i == 32 {
      RotSubAt(0x09e04214, 0xe12cfa01, 4, 0xe92cfa01);
    }
  }

  lemma A3Step8(i: nat)
    requires 36 <= i < 40
    ensures A3(i) == Next(FIPS, 8, A3(i - 8), A3(i - 1), i)
  {
    if i == 36 {
      assert SubWord(0x6c518d80) == 0x50d15dcd;
    }
  }

  lemma A3Step9(i: nat)
    requires 40 <= i < 44
    ensures A3(i) == Next(FIPS, 8, A3(i - 8), A3(i - 1), i)
  {
    if i == 40 {
      RotSubAt(0x59c58239, 0xa61312cb, 5, 0xb61312cb);
    }
  }

  lemma A3Step10(i: nat)
    requires 44 <= i < 48
    ensures A3(i) == Next(FIPS, 8, A3(i - 8), A3(i - 1), i)
  {
    if i == 44 {
      assert SubWord(0x9674ee15) == 0x90922859;
    }
  }

  lemma A3Step11(i: nat)
    requires 48 <= i < 52
    ensures A3(i) == Next(FIPS, 8, A3(i - 8), A3(i - 1), i)
  {
    if i == 48 {
      RotSubAt(0x27cf73c3, 0x8a8f2ecc, 6, 0xaa8f2ecc);
    }
  }

  lemma A3Step12(i: nat)
    requires 52 <= i < 56
    ensures A3(i) == Next(FIPS, 8, A3(i - 8), A3(i - 1), i)
  {
    if i == 52 {
      assert SubWord(0x7401905a) == 0x927c60be;
    }
  }

  lemma A3Step13(i: nat)
    requires 56 <= i < 60
    ensures A3(i) == Next(FIPS, 8, A3(i - 8), A3(i - 1), i)
  {
    if i == 56 {
      RotSubAt(0xbd10190d, 0xcad4d77a, 7, 0x8ad4d77a);
    }
  }

  ghost predicate IsA3(key: seq<bv32>) {
    |key| == 8 && forall j :: 0 <= j < 8 ==> key[j] == A3(j)
  }

  lemma A3Words(key: seq<bv32>)
    requires IsA3(key)
    ensures forall i {:trigger Words(FIPS, key, 60)[i]} :: 0 <= i < 60 ==> Words(FIPS, key, 60)[i] == A3(i)
  {
    forall j | 8 <= j < 60 ensures A3(j) == Next(FIPS, 8, A3(j - 8), A3(j - 1), j) {
      if j < 12 {
        A3Step1(j);
      } else if j < 16 {
        A3Step2(j);
      } else if j < 20 {
        A3Step3(j);
      } else if j < 24 {
        A3Step4(j);
      } else if j < 28 {
        A3Step5(j);
      } else if j < 32 {
        A3Step6(j);
      } else if j < 36 {
        A3Step7(j);
      } else if j < 40 {
        A3Step8(j);
      } else if j < 44 {
        A3Step9(j);
      } else if j < 48 {
        A3Step10(j);
      } else if j < 52 {
        A3Step11(j);
      } else if j < 56 {
        A3Step12(j);
      } else {
        A3Step13(j);
      }
    }
    WordsAre(FIPS, key, A3, 60);
  }

  lemma A3Answer(user: seq<bv8>, key: seq<bv32>)
    requires 32 <= |user| && key == KeyWords(user, 8) && IsA3(key)
    ensures forall i :: 0 <= i < 60 ==> Schedule(user, 256)[i] == A3(i)
  {
    ScheduleIsWords(user, 256, 8, 60, key);
    A3Words(key);
  }

  // ----- the expansion of the key of the example in appendix C.1

  function C1(i: nat): bv32 {
    if i == 0 then 0x00010203 else if i == 1 then 0x04050607 else if i == 2 then 0x08090a0b else
    if i == 3 then 0x0c0d0e0f else if i == 4 then 0xd6aa74fd else if i == 5 then 0xd2af72fa else
    if i == 6 then 0xdaa678f1 else if i == 7 then 0xd6ab76fe else if i == 8 then 0xb692cf0b else
    if i == 9 then 0x643dbdf1 else if i == 10 then 0xbe9bc500 else if i == 11 then 0x6830b3fe else
    if i == 12 then 0xb6ff744e else if i == 13 then 0xd2c2c9bf else if i == 14 then 0x6c590cbf else
    if i == 15 then 0x0469bf41 else if i == 16 then 0x47f7f7bc else if i == 17 then 0x95353e03 else
    if i == 18 then 0xf96c32bc else if i == 19 then 0xfd058dfd else if i == 20 then 0x3caaa3e8 else
    if i == 21 then 0xa99f9deb else if i == 22 then 0x50f3af57 else if i == 23 then 0xadf622aa else
    if i == 24 then 0x5e390f7d else if i == 25 then 0xf7a69296 else if i == 26 then 0xa7553dc1 else
    if i == 27 then 0x0aa31f6b else if i == 28 then 0x14f9701a else if i == 29 then 0xe35fe28c else
    if i == 30 then 0x440adf4d else if i == 31 then 0x4ea9c026 else if i == 32 then 0x47438735 else
    if i == 33 then 0xa41c65b9 else if i == 34 then 0xe016baf4 else if i == 35 then 0xaebf7ad2 else
    if i == 36 then 0x549932d1 else if i == 37 then 0xf0855768 else if i == 38 then 0x1093ed9c else
    if i == 39 then 0xbe2c974e else if i == 40 then 0x13111d7f else if i == 41 then 0xe3944a17 else
    if i == 42 then 0xf307a78b else 0x4d2b30c5
  }

  lemma C1Step1(i: nat)
    requires 4 <= i < 8
    ensures C1(i) == Next(FIPS, 4, C1(i - 4), C1(i - 1), i)
  {
    RotSubAt(0x0c0d0e0f, 0xd7ab76fe, 1, 0xd6ab76fe);
  }

  lemma C1Step2(i: nat)
    requires 8 <= i < 12
    ensures C1(i) == Next(FIPS, 4, C1(i - 4), C1(i - 1), i)
  {
    RotSubAt(0xd6ab76fe, 0x6238bbf6, 2, 0x6038bbf6);
  }

  lemma C1Step3(i: nat)
    requires 12 <= i < 16
    ensures C1(i) == Next(FIPS, 4, C1(i - 4), C1(i - 1), i)
  {
    RotSubAt(0x6830b3fe, 0x046dbb45, 3, 0x006dbb45);
  }

  lemma C1Step4(i: nat)
    requires 16 <= i < 20
    ensures C1(i) == Next(FIPS, 4, C1(i - 4), C1(i - 1), i)
  {
    RotSubAt(0x0469bf41, 0xf90883f2, 4, 0xf10883f2);
  }

  lemma C1Step5(i: nat)
    requires 20 <= i < 24
    ensures C1(i) == Next(FIPS, 4, C1(i - 4), C1(i - 1), i)
  {
    RotSubAt(0xfd058dfd, 0x6b5d5454, 5, 0x7b5d5454);
  }

  lemma C1Step6(i: nat)
    requires 24 <= i < 28
    ensures C1(i) == Next(FIPS, 4, C1(i - 4), C1(i - 1), i)
  {
    RotSubAt(0xadf622aa, 0x4293ac95, 6, 0x6293ac95);
  }

  lemma C1Step7(i: nat)
    requires 28 <= i < 32
    ensures C1(i) == Next(FIPS, 4, C1(i - 4), C1(i - 1), i)
  {
    RotSubAt(0x0aa31f6b, 0x0ac07f67, 7, 0x4ac07f67);
  }

  lemma C1Step8(i: nat)
    requires 32 <= i < 36
    ensures C1(i) == Next(FIPS, 4, C1(i - 4), C1(i - 1), i)
  {
    RotSubAt(0x4ea9c026, 0xd3baf72f, 8, 0x53baf72f);
  }

  lemma C1Step9(i: nat)
    requires 36 <= i < 40
    ensures C1(i) == Next(FIPS, 4, C1(i - 4), C1(i - 1), i)
  {
    RotSubAt(0xaebf7ad2, 0x08dab5e4, 9, 0x13dab5e4);
  }

  lemma C1Step10(i: nat)
    requires 40 <= i < 44
    ensures C1(i) == Next(FIPS, 4, C1(i - 4), C1(i - 1), i)
  {
    RotSubAt(0xbe2c974e, 0x71882fae, 10, 0x47882fae);
  }

  ghost predicate IsC1(key: seq<bv32>) {
    |key| == 4 && forall j :: 0 <= j < 4 ==> key[j] == C1(j)
  }

  lemma C1Words(key: seq<bv32>)
    requires IsC1(key)
    ensures forall i {:trigger Words(FIPS, key, 44)[i]} :: 0 <= i < 44 ==> Words(FIPS, key, 44)[i] == C1(i)
  {
    forall j | 4 <= j < 44 ensures C1(j) == Next(FIPS, 4, C1(j - 4), C1(j - 1), j) {
      if j < 8 {
        C1Step1(j);
      } else if j < 12 {
        C1Step2(j);
      } else if j < 16 {
        C1Step3(j);
      } else if j < 20 {
        C1Step4(j);
      } else if j < 24 {
        C1Step5(j);
      } else if j < 28 {
        C1Step6(j);
      } else if j < 32 {
        C1Step7(j);
      } else if j < 36 {
        C1Step8(j);
      } else if j < 40 {
        C1Step9(j);
      } else {
        C1Step10(j);
      }
    }
    WordsAre(FIPS, key, C1, 44);
  }

  lemma C1Answer(user: seq<bv8>, key: seq<bv32>)
    requires 16 <= |user| && key == KeyWords(user, 4) && IsC1(key)
    ensures forall i :: 0 <= i < 44 ==> Schedule(user, 128)[i] == C1(i)
  {
    ScheduleIsWords(user, 128, 4, 44, key);
    C1Words(key);
  }

  // ----- the example of appendix C.1

  const PLAIN: seq<bv8> := [0x00, 0x11, 0x22, 0x33, 0x44, 0x55, 0x66, 0x77, 0x88, 0x99, 0xaa, 0xbb, 0xcc, 0xdd, 0xee, 0xff]

  const TEXT: seq<bv8> := [0x69, 0xc4, 0xe0, 0xd8, 0x6a, 0x7b, 0x04, 0x30, 0xd8, 0xcd, 0xb7, 0x80, 0x70, 0xb4, 0xc5, 0x5a]

  function C1RoundKey(r: nat): Block {
    MakeBlock(C1(4 * r), C1(4 * r + 1), C1(4 * r + 2), C1(4 * r + 3))
  }

  lemma C1Round1()
    ensures AddRoundKey(MixColumns(SubShift(Block(0x00102030, 0x40506070, 0x8090a0b0, 0xc0d0e0f0))),
        Block(0xd6aa74fd, 0xd2af72fa, 0xdaa678f1, 0xd6ab76fe))
         == Block(0x89d810e8, 0x855ace68, 0x2d1843d8, 0xcb128fe4)
  {
    assert SubBytes(Block(0x00102030, 0x40506070, 0x8090a0b0, 0xc0d0e0f0))
        == Block(0x63cab704, 0x0953d051, 0xcd60e0e7, 0xba70e18c);
    assert ShiftRows(Block(0x63cab704, 0x0953d051, 0xcd60e0e7, 0xba70e18c))
        == Block(0x6353e08c, 0x0960e104, 0xcd70b751, 0xbacad0e7);
    assert MixColumns(Block(0x6353e08c, 0x0960e104, 0xcd70b751, 0xbacad0e7))
        == Block(0x5f726415, 0x57f5bc92, 0xf7be3b29, 0x1db9f91a);
  }

  lemma C1Round2()
    ensures AddRoundKey(MixColumns(SubShift(Block(0x89d810e8, 0x855ace68, 0x2d1843d8, 0xcb128fe4))),
        Block(0xb692cf0b, 0x643dbdf1, 0xbe9bc500, 0x6830b3fe))
         == Block(0x4915598f, 0x55e5d7a0, 0xdaca94fa, 0x1f0a63f7)
  {
    assert SubBytes(Block(0x89d810e8, 0x855ace68, 0x2d1843d8, 0xcb128fe4))
        == Block(0xa761ca9b, 0x97be8b45, 0xd8ad1a61, 0x1fc97369);
    assert ShiftRows(Block(0xa761ca9b, 0x97be8b45, 0xd8ad1a61, 0x1fc97369))
        == Block(0xa7be1a69, 0x97ad739b, 0xd8c9ca45, 0x1f618b61);
    assert MixColumns(Block(0xa7be1a69, 0x97ad739b, 0xd8c9ca45, 0x1f618b61))
        == Block(0xff879684, 0x31d86a51, 0x645151fa, 0x773ad009);
  }

  lemma C1Round3()
    ensures AddRoundKey(MixColumns(SubShift(Block(0x4915598f, 0x55e5d7a0, 0xdaca94fa, 0x1f0a63f7))),
        Block(0xb6ff744e, 0xd2c2c9bf, 0x6c590cbf, 0x0469bf41))
         == Block(0xfa636a28, 0x25b339c9, 0x40668a31, 0x57244d17)
  {
    assert SubBytes(Block(0x4915598f, 0x55e5d7a0, 0xdaca94fa, 0x1f0a63f7))
        == Block(0x3b59cb73, 0xfcd90ee0, 0x5774222d, 0xc067fb68);
    assert ShiftRows(Block(0x3b59cb73, 0xfcd90ee0, 0x5774222d, 0xc067fb68))
        == Block(0x3bd92268, 0xfc74fb73, 0x5767cbe0, 0xc0590e2d);
    assert MixColumns(Block(0x3bd92268, 0xfc74fb73, 0x5767cbe0, 0xc0590e2d))
        == Block(0x4c9c1e66, 0xf771f076, 0x2c3f868e, 0x534df256);
  }

  lemma C1Round4()
    ensures AddRoundKey(MixColumns(SubShift(Block(0xfa636a28, 0x25b339c9, 0x40668a31, 0x57244d17))),
        Block(0x47f7f7bc, 0x95353e03, 0xf96c32bc, 0xfd058dfd))
         == Block(0x24724023, 0x6966b3fa, 0x6ed27532, 0x88425b6c)
  {
    assert SubBytes(Block(0xfa636a28, 0x25b339c9, 0x40668a31, 0x57244d17))
        == Block(0x2dfb0234, 0x3f6d12dd, 0x09337ec7, 0x5b36e3f0);
    assert ShiftRows(Block(0x2dfb0234, 0x3f6d12dd, 0x09337ec7, 0x5b36e3f0))
        == Block(0x2d6d7ef0, 0x3f33e334, 0x093602dd, 0x5bfb12c7);
    assert MixColumns(Block(0x2d6d7ef0, 0x3f33e334, 0x093602dd, 0x5bfb12c7))
        == Block(0x6385b79f, 0xfc538df9, 0x97be478e, 0x7547d691);
  }

  lemma C1Round5()
    ensures AddRoundKey(MixColumns(SubShift(Block(0x24724023, 0x6966b3fa, 0x6ed27532, 0x88425b6c))),
        Block(0x3caaa3e8, 0xa99f9deb, 0x50f3af57, 0xadf622aa))
         == Block(0xc81677bc, 0x9b7ac93b, 0x25027992, 0xb0261996)
  {
    assert SubBytes(Block(0x24724023, 0x6966b3fa, 0x6ed27532, 0x88425b6c))
        == Block(0x36400926, 0xf9336d2d, 0x9fb59d23, 0xc42c3950);
    assert ShiftRows(Block(0x36400926, 0xf9336d2d, 0x9fb59d23, 0xc42c3950))
        == Block(0x36339d50, 0xf9b53926, 0x9f2c092d, 0xc4406d23);
    assert MixColumns(Block(0x36339d50, 0xf9b53926, 0x9f2c092d, 0xc4406d23))
        == Block(0xf4bcd454, 0x32e554d0, 0x75f1d6c5, 0x1dd03b3c);
  }

  lemma C1Round6()
    ensures AddRoundKey(MixColumns(SubShift(Block(0xc81677bc, 0x9b7ac93b, 0x25027992, 0xb0261996))),
        Block(0x5e390f7d, 0xf7a69296, 0xa7553dc1, 0x0aa31f6b))
         == Block(0xc62fe109, 0xf75eedc3, 0xcc79395d, 0x84f9cf5d)
  {
    assert SubBytes(Block(0xc81677bc, 0x9b7ac93b, 0x25027992, 0xb0261996))
        == Block(0xe847f565, 0x14dadde2, 0x3f77b64f, 0xe7f7d490);
    assert ShiftRows(Block(0xe847f565, 0x14dadde2, 0x3f77b64f, 0xe7f7d490))
        == Block(0xe8dab690, 0x1477d465, 0x3ff7f5e2, 0xe747dd4f);
    assert MixColumns(Block(0xe8dab690, 0x1477d465, 0x3ff7f5e2, 0xe747dd4f))
        == Block(0x9816ee74, 0x00f87f55, 0x6b2c049c, 0x8e5ad036);
  }

  lemma C1Round7()
    ensures AddRoundKey(MixColumns(SubShift(Block(0xc62fe109, 0xf75eedc3, 0xcc79395d, 0x84f9cf5d))),
        Block(0x14f9701a, 0xe35fe28c, 0x440adf4d, 0x4ea9c026))
         == Block(0xd1876c0f, 0x79c4300a, 0xb45594ad, 0xd66ff41f)
  {
    assert SubBytes(Block(0xc62fe109, 0xf75eedc3, 0xcc79395d, 0x84f9cf5d))
        == Block(0xb415f801, 0x6858552e, 0x4bb6124c, 0x5f998a4c);
    assert ShiftRows(Block(0xb415f801, 0x6858552e, 0x4bb6124c, 0x5f998a4c))
        == Block(0xb458124c, 0x68b68a01, 0x4b99f82e, 0x5f15554c);
    assert MixColumns(Block(0xb458124c, 0x68b68a01, 0x4b99f82e, 0x5f15554c))
        == Block(0xc57e1c15, 0x9a9bd286, 0xf05f4be0, 0x98c63439);
  }

  lemma C1Round8()
    ensures AddRoundKey(MixColumns(SubShift(Block(0xd1876c0f, 0x79c4300a, 0xb45594ad, 0xd66ff41f))),
        Block(0x47438735, 0xa41c65b9, 0xe016baf4, 0xaebf7ad2))
         == Block(0xfde3bad2, 0x05e5d0d7, 0x3547964e, 0xf1fe37f1)
  {
    assert SubBytes(Block(0xd1876c0f, 0x79c4300a, 0xb45594ad, 0xd66ff41f))
        == Block(0x3e175076, 0xb61c0467, 0x8dfc2295, 0xf6a8bfc0);
    assert ShiftRows(Block(0x3e175076, 0xb61c0467, 0x8dfc2295, 0xf6a8bfc0))
        == Block(0x3e1c22c0, 0xb6fcbf76, 0x8da85067, 0xf6170495);
    assert MixColumns(Block(0x3e1c22c0, 0xb6fcbf76, 0x8da85067, 0xf6170495))
        == Block(0xbaa03de7, 0xa1f9b56e, 0xd5512cba, 0x5f414d23);
  }

  lemma C1Round9()
    ensures AddRoundKey(MixColumns(SubShift(Block(0xfde3bad2, 0x05e5d0d7, 0x3547964e, 0xf1fe37f1))),
        Block(0x549932d1, 0xf0855768, 0x1093ed9c, 0xbe2c974e))
         == Block(0xbd6e7c3d, 0xf2b5779e, 0x0b61216e, 0x8b10b689)
  {
    assert SubBytes(Block(0xfde3bad2, 0x05e5d0d7, 0x3547964e, 0xf1fe37f1))
        == Block(0x5411f4b5, 0x6bd9700e, 0x96a0902f, 0xa1bb9aa1);
    assert ShiftRows(Block(0x5411f4b5, 0x6bd9700e, 0x96a0902f, 0xa1bb9aa1))
        == Block(0x54d990a1, 0x6ba09ab5, 0x96bbf40e, 0xa111702f);
    assert MixColumns(Block(0x54d990a1, 0x6ba09ab5, 0x96bbf40e, 0xa111702f))
        == Block(0xe9f74eec, 0x023020f6, 0x1bf2ccf2, 0x353c21c7);
  }

  lemma C1Round10()
    ensures AddRoundKey(SubShift(Block(0xbd6e7c3d, 0xf2b5779e, 0x0b61216e, 0x8b10b689)),
        Block(0x13111d7f, 0xe3944a17, 0xf307a78b, 0x4d2b30c5))
         == Block(0x69c4e0d8, 0x6a7b0430, 0xd8cdb780, 0x70b4c55a)
  {
    assert SubBytes(Block(0xbd6e7c3d, 0xf2b5779e, 0x0b61216e, 0x8b10b689))
        == Block(0x7a9f1027, 0x89d5f50b, 0x2beffd9f, 0x3dca4ea7);
    assert ShiftRows(Block(0x7a9f1027, 0x89d5f50b, 0x2beffd9f, 0x3dca4ea7))
        == Block(0x7ad5fda7, 0x89ef4e27, 0x2bca100b, 0x3d9ff59f);
  }

  ghost predicate C1KeysAre(keys: seq<Block>) {
    |keys| == 11 && forall r :: 0 <= r <= 10 ==> keys[r] == C1RoundKey(r)
  }

  lemma C1After0(l: Layers<Block>, keys: seq<Block>)
    requires IsAes(l) && C1KeysAre(keys)
    ensures EncState(l, ToBlock(PLAIN), keys, 0) == Block(0x00102030, 0x40506070, 0x8090a0b0, 0xc0d0e0f0)
  {
    C1Start();
    assert keys[0] == Block(0x00010203, 0x04050607, 0x08090a0b, 0x0c0d0e0f);
  }

  lemma C1After1(l: Layers<Block>, keys: seq<Block>)
    requires IsAes(l) && C1KeysAre(keys)
    ensures EncState(l, ToBlock(PLAIN), keys, 1) == Block(0x89d810e8, 0x855ace68, 0x2d1843d8, 0xcb128fe4)
  {
    C1After0(l, keys);
    C1Round1();
    assert keys[1] == Block(0xd6aa74fd, 0xd2af72fa, 0xdaa678f1, 0xd6ab76fe);
  }

  lemma C1After2(l: Layers<Block>, keys: seq<Block>)
    requires IsAes(l) && C1KeysAre(keys)
    ensures EncState(l, ToBlock(PLAIN), keys, 2) == Block(0x4915598f, 0x55e5d7a0, 0xdaca94fa, 0x1f0a63f7)
  {
    C1After1(l, keys);
    C1Round2();
    assert keys[2] == Block(0xb692cf0b, 0x643dbdf1, 0xbe9bc500, 0x6830b3fe);
  }

  lemma C1After3(l: Layers<Block>, keys: seq<Block>)
    requires IsAes(l) && C1KeysAre(keys)
    ensures EncState(l, ToBlock(PLAIN), keys, 3) == Block(0xfa636a28, 0x25b339c9, 0x40668a31, 0x57244d17)
  {
    C1After2(l, keys);
    C1Round3();
    assert keys[3] == Block(0xb6ff744e, 0xd2c2c9bf, 0x6c590cbf, 0x0469bf41);
  }

  lemma C1After4(l: Layers<Block>, keys: seq<Block>)
    requires IsAes(l) && C1KeysAre(keys)
    ensures EncState(l, ToBlock(PLAIN), keys, 4) == Block(0x24724023, 0x6966b3fa, 0x6ed27532, 0x88425b6c)
  {
    C1After3(l, keys);
    C1Round4();
    assert keys[4] == Block(0x47f7f7bc, 0x95353e03, 0xf96c32bc, 0xfd058dfd);
  }

  lemma C1After5(l: Layers<Block>, keys: seq<Block>)
    requires IsAes(l) && C1KeysAre(keys)
    ensures EncState(l, ToBlock(PLAIN), keys, 5) == Block(0xc81677bc, 0x9b7ac93b, 0x25027992, 0xb0261996)
  {
    C1After4(l, keys);
    C1Round5();
    assert keys[5] == Block(0x3caaa3e8, 0xa99f9deb, 0x50f3af57, 0xadf622aa);
  }

  lemma C1After6(l: Layers<Block>, keys: seq<Block>)
    requires IsAes(l) && C1KeysAre(keys)
    ensures EncState(l, ToBlock(PLAIN), keys, 6) == Block(0xc62fe109, 0xf75eedc3, 0xcc79395d, 0x84f9cf5d)
  {
    C1After5(l, keys);
    C1Round6();
    assert keys[6] == Block(0x5e390f7d, 0xf7a69296, 0xa7553dc1, 0x0aa31f6b);
  }

  lemma C1After7(l: Layers<Block>, keys: seq<Block>)
    requires IsAes(l) && C1KeysAre(keys)
    ensures EncState(l, ToBlock(PLAIN), keys, 7) == Block(0xd1876c0f, 0x79c4300a, 0xb45594ad, 0xd66ff41f)
  {
    C1After6(l, keys);
    C1Round7();
    assert keys[7] == Block(0x14f9701a, 0xe35fe28c, 0x440adf4d, 0x4ea9c026);
  }

  lemma C1After8(l: Layers<Block>, keys: seq<Block>)
    requires IsAes(l) && C1KeysAre(keys)
    ensures EncState(l, ToBlock(PLAIN), keys, 8) == Block(0xfde3bad2, 0x05e5d0d7, 0x3547964e, 0xf1fe37f1)
  {
    C1After7(l, keys);
    C1Round8();
    assert keys[8] == Block(0x47438735, 0xa41c65b9, 0xe016baf4, 0xaebf7ad2);
  }

  lemma C1After9(l: Layers<Block>, keys: seq<Block>)
    requires IsAes(l) && C1KeysAre(keys)
    ensures EncState(l, ToBlock(PLAIN), keys, 9) == Block(0xbd6e7c3d, 0xf2b5779e, 0x0b61216e, 0x8b10b689)
  {
    C1After8(l, keys);
    C1Round9();
    assert keys[9] == Block(0x549932d1, 0xf0855768, 0x1093ed9c, 0xbe2c974e);
  }

  lemma C1Keys(w: seq<bv32>, user: seq<bv8>, r: nat)
    requires EncryptionKey(w, 10, user, 128) && IsC1(KeyWords(user, 4)) && r <= 10
    ensures BlockKey(MakeBlock, w, r) == C1RoundKey(r)
  {
    var ws := w[..44];
    C1Answer(user, KeyWords(user, 4));
    assert forall i :: 4 * r <= i < 4 * r + 4 ==> ws[i] == w[i] && ws[i] == C1(i);
  }

  lemma C1Start()
    ensures AddRoundKey(ToBlock(PLAIN), Block(0x00010203, 0x04050607, 0x08090a0b, 0x0c0d0e0f))
         == Block(0x00102030, 0x40506070, 0x8090a0b0, 0xc0d0e0f0)
  {
  }

  lemma C1End()
    ensures FromBlock(Block(0x69c4e0d8, 0x6a7b0430, 0xd8cdb780, 0x70b4c55a)) == TEXT
  {
  }

  // The block of the example encrypts to its text, under every schedule of its key.
  lemma C1Cipher(l: Layers<Block>, w: seq<bv32>, user: seq<bv8>)
    requires IsAes(l) && EncryptionKey(w, 10, user, 128) && IsC1(KeyWords(user, 4))
    ensures Encrypted(l, w, 10, PLAIN) == TEXT
  {
    var keys := Keys(MakeBlock, w, 10);
    forall r | 0 <= r <= 10 ensures keys[r] == C1RoundKey(r) {
      C1Keys(w, user, r);
    }
    C1After9(l, keys);
    C1Round10();
    C1End();
    assert keys[10] == Block(0x13111d7f, 0xe3944a17, 0xf307a78b, 0x4d2b30c5);
  }
}
