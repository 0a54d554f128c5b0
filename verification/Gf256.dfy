/** The field GF(2^8) of FIPS 197 section 4.2, and the inverse pair of polynomials that
    mixes and unmixes a column (sections 5.1.3 and 5.3.3). */
module Gf256 {

  function Add(x: bv8, y: bv8): bv8 { x ^ y }

  // xtime
  function Double(x: bv8): bv8 {
    if x & 0x80 == 0 then x << 1 else (x << 1) ^ 0x1b
  }

  function Mul3(x: bv8): bv8 { Add(Double(x), x) }
  function Mul9(x: bv8): bv8 { Add(Double(Double(Double(x))), x) }
  function Mul11(x: bv8): bv8 { Add(Mul9(x), Double(x)) }
  function Mul13(x: bv8): bv8 { Add(Mul9(x), Double(Double(x))) }
  function Mul14(x: bv8): bv8 { Add(Double(Double(Double(x))), Add(Double(Double(x)), Double(x))) }

  // Multiplication (section 4.2): the multiples of x by the powers of {02} that are in y.
  function Mul(x: bv8, y: bv8): bv8 {
    var x2 := Double(x);
    var x4 := Double(x2);
    var x8 := Double(x4);
    var x16 := Double(x8);
    var x32 := Double(x16);
    var x64 := Double(x32);
    var x128 := Double(x64);
    Term(x, y, 0x01) ^ Term(x2, y, 0x02) ^ Term(x4, y, 0x04) ^ Term(x8, y, 0x08)
    ^ Term(x16, y, 0x10) ^ Term(x32, y, 0x20) ^ Term(x64, y, 0x40) ^ Term(x128, y, 0x80)
  }

  function Term(x: bv8, y: bv8, bit: bv8): bv8 { if y & bit == 0 then 0 else x }

  lemma Multiple2(x: bv8)
    ensures Double(x) == Mul(x, 0x02)
  {
  }

  lemma Multiple3(x: bv8)
    ensures Mul3(x) == Mul(x, 0x03)
  {
  }

  lemma Multiple9(x: bv8)
    ensures Mul9(x) == Mul(x, 0x09)
  {
  }

  lemma Multiple11(x: bv8)
    ensures Mul11(x) == Mul(x, 0x0b)
  {
  }

  lemma Multiple13(x: bv8)
    ensures Mul13(x) == Mul(x, 0x0d)
  {
  }

  lemma Multiple14(x: bv8)
    ensures Mul14(x) == Mul(x, 0x0e)
  {
  }

  // The factors of MixColumns and InvMixColumns.
  lemma Multiples(x: bv8)
    ensures Double(x) == Mul(x, 0x02) && Mul3(x) == Mul(x, 0x03)
    ensures Mul9(x) == Mul(x, 0x09) && Mul11(x) == Mul(x, 0x0b) && Mul13(x) == Mul(x, 0x0d) && Mul14(x) == Mul(x, 0x0e)
  {
    Multiple2(x);
    Multiple3(x);
    Multiple9(x);
    Multiple11(x);
    Multiple13(x);
    Multiple14(x);
  }

  // The sum of the terms of one row of a matrix product.
  function Sum4(a: bv8, b: bv8, c: bv8, d: bv8): bv8 {
    Add(Add(a, b), Add(c, d))
  }

  // Doubling is linear, hence so is multiplication by every constant.
  lemma DoubleLinear(x: bv8, y: bv8)
    ensures Double(Add(x, y)) == Add(Double(x), Double(y))
  {
    if x & 0x80 == 0 {
      if y & 0x80 == 0 {
        assert (x ^ y) & 0x80 == 0;
      } else {
        assert (x ^ y) & 0x80 != 0;
      }
    } else {
      if y & 0x80 == 0 {
        assert (x ^ y) & 0x80 != 0;
      } else {
        assert (x ^ y) & 0x80 == 0;
      }
    }
  }

  lemma Commutes(x: bv8, y: bv8)
    ensures Add(x, y) == Add(y, x)
  {
  }

  lemma Associates(x: bv8, y: bv8, z: bv8)
    ensures Add(Add(x, y), z) == Add(x, Add(y, z))
  {
  }

  lemma Exchange(p: bv8, q: bv8, r: bv8, s: bv8)
    ensures Add(Add(p, q), Add(r, s)) == Add(Add(p, r), Add(q, s))
  {
    Associates(p, q, Add(r, s));
    Associates(q, r, s);
    Commutes(q, r);
    Associates(r, q, s);
    Associates(p, r, Add(q, s));
  }

  lemma Double2Linear(x: bv8, y: bv8)
    ensures Double(Double(Add(x, y))) == Add(Double(Double(x)), Double(Double(y)))
  {
    DoubleLinear(x, y);
    DoubleLinear(Double(x), Double(y));
  }

  lemma Double3Linear(x: bv8, y: bv8)
    ensures Double(Double(Double(Add(x, y)))) == Add(Double(Double(Double(x))), Double(Double(Double(y))))
  {
    Double2Linear(x, y);
    DoubleLinear(Double(Double(x)), Double(Double(y)));
  }

  lemma Mul9Linear(x: bv8, y: bv8)
    ensures Mul9(Add(x, y)) == Add(Mul9(x), Mul9(y))
  {
    Double3Linear(x, y);
    Exchange(Double(Double(Double(x))), Double(Double(Double(y))), x, y);
  }

  lemma Mul11Linear(x: bv8, y: bv8)
    ensures Mul11(Add(x, y)) == Add(Mul11(x), Mul11(y))
  {
    Mul9Linear(x, y);
    DoubleLinear(x, y);
    Exchange(Mul9(x), Mul9(y), Double(x), Double(y));
  }

  lemma Mul13Linear(x: bv8, y: bv8)
    ensures Mul13(Add(x, y)) == Add(Mul13(x), Mul13(y))
  {
    Mul9Linear(x, y);
    Double2Linear(x, y);
    Exchange(Mul9(x), Mul9(y), Double(Double(x)), Double(Double(y)));
  }

  lemma Mul14Linear(x: bv8, y: bv8)
    ensures Mul14(Add(x, y)) == Add(Mul14(x), Mul14(y))
  {
    Double3Linear(x, y);
    Double2Linear(x, y);
    DoubleLinear(x, y);
    Exchange(Double(Double(x)), Double(Double(y)), Double(x), Double(y));
    Exchange(Double(Double(Double(x))), Double(Double(Double(y))),
             Add(Double(Double(x)), Double(x)), Add(Double(Double(y)), Double(y)));
  }

  lemma Mul9Linear4(w: bv8, x: bv8, y: bv8, z: bv8)
    ensures Mul9(Sum4(w, x, y, z)) == Sum4(Mul9(w), Mul9(x), Mul9(y), Mul9(z))
  {
    Mul9Linear(Add(w, x), Add(y, z));
    Mul9Linear(w, x);
    Mul9Linear(y, z);
  }

  lemma Mul11Linear4(w: bv8, x: bv8, y: bv8, z: bv8)
    ensures Mul11(Sum4(w, x, y, z)) == Sum4(Mul11(w), Mul11(x), Mul11(y), Mul11(z))
  {
    Mul11Linear(Add(w, x), Add(y, z));
    Mul11Linear(w, x);
    Mul11Linear(y, z);
  }

  lemma Mul13Linear4(w: bv8, x: bv8, y: bv8, z: bv8)
    ensures Mul13(Sum4(w, x, y, z)) == Sum4(Mul13(w), Mul13(x), Mul13(y), Mul13(z))
  {
    Mul13Linear(Add(w, x), Add(y, z));
    Mul13Linear(w, x);
    Mul13Linear(y, z);
  }

  lemma Mul14Linear4(w: bv8, x: bv8, y: bv8, z: bv8)
    ensures Mul14(Sum4(w, x, y, z)) == Sum4(Mul14(w), Mul14(x), Mul14(y), Mul14(z))
  {
    Mul14Linear(Add(w, x), Add(y, z));
    Mul14Linear(w, x);
    Mul14Linear(y, z);
  }

  // {0b}x^3 + {0d}x^2 + {09}x + {0e} is the inverse of {03}x^3 + {01}x^2 + {01}x + {02}
  // modulo x^4 + 1: the four coefficients of the product are 1, 0, 0 and 0.
  lemma MixCoefficient0(x: bv8)
    ensures Sum4(Mul14(Double(x)), Mul11(x), Mul13(x), Mul9(Mul3(x))) == x
  {
  }

  lemma MixCoefficient1(x: bv8)
    ensures Sum4(Mul14(Mul3(x)), Mul11(Double(x)), Mul13(x), Mul9(x)) == 0
  {
  }

  lemma MixCoefficient2(x: bv8)
    ensures Sum4(Mul14(x), Mul11(Mul3(x)), Mul13(Double(x)), Mul9(x)) == 0
  {
  }

  lemma MixCoefficient3(x: bv8)
    ensures Sum4(Mul14(x), Mul11(x), Mul13(Mul3(x)), Mul9(Double(x))) == 0
  {
  }

  lemma AddSums(a: bv8, b: bv8, c: bv8, d: bv8, a': bv8, b': bv8, c': bv8, d': bv8)
    ensures Add(Sum4(a, b, c, d), Sum4(a', b', c', d')) == Sum4(Add(a, a'), Add(b, b'), Add(c, c'), Add(d, d'))
  {
    Exchange(Add(a, b), Add(c, d), Add(a', b'), Add(c', d'));
    Exchange(a, b, a', b');
    Exchange(c, d, c', d');
  }

  lemma Transpose(a0: bv8, b0: bv8, c0: bv8, d0: bv8, a1: bv8, b1: bv8, c1: bv8, d1: bv8,
                  a2: bv8, b2: bv8, c2: bv8, d2: bv8, a3: bv8, b3: bv8, c3: bv8, d3: bv8)
    ensures Sum4(Sum4(a0, b0, c0, d0), Sum4(a1, b1, c1, d1), Sum4(a2, b2, c2, d2), Sum4(a3, b3, c3, d3))
         == Sum4(Sum4(a0, a1, a2, a3), Sum4(b0, b1, b2, b3), Sum4(c0, c1, c2, c3), Sum4(d0, d1, d2, d3))
  {
    AddSums(a0, b0, c0, d0, a1, b1, c1, d1);
    AddSums(a2, b2, c2, d2, a3, b3, c3, d3);
    AddSums(Add(a0, a1), Add(b0, b1), Add(c0, c1), Add(d0, d1), Add(a2, a3), Add(b2, b3), Add(c2, c3), Add(d2, d3));
  }

  lemma AddZeros(a: bv8)
    ensures Sum4(a, 0, 0, 0) == a
  {
  }

  lemma Rotate4(a: bv8, b: bv8, c: bv8, d: bv8)
    ensures Sum4(a, b, c, d) == Sum4(b, c, d, a)
  {
    Commutes(a, b);
    Exchange(b, a, c, d);
    Commutes(a, d);
  }

  // One row of the inverse matrix, applied to a mixed column, gives back one byte.
  lemma UnmixRow(a: bv8, b: bv8, c: bv8, d: bv8)
    ensures Sum4(Mul14(Sum4(Double(a), Mul3(b), c, d)), Mul11(Sum4(Double(b), Mul3(c), d, a)),
                 Mul13(Sum4(Double(c), Mul3(d), a, b)), Mul9(Sum4(Double(d), Mul3(a), b, c))) == a
  {
    Rotate4(a, Double(b), Mul3(c), d);
    Rotate4(a, b, Double(c), Mul3(d));
    Rotate4(b, Double(c), Mul3(d), a);
    Rotate4(Mul3(a), b, c, Double(d));
    Rotate4(b, c, Double(d), Mul3(a));
    Rotate4(c, Double(d), Mul3(a), b);
    Mul14Linear4(Double(a), Mul3(b), c, d);
    Mul11Linear4(a, Double(b), Mul3(c), d);
    Mul13Linear4(a, b, Double(c), Mul3(d));
    Mul9Linear4(Mul3(a), b, c, Double(d));
    Transpose(Mul14(Double(a)), Mul14(Mul3(b)), Mul14(c), Mul14(d),
              Mul11(a), Mul11(Double(b)), Mul11(Mul3(c)), Mul11(d),
              Mul13(a), Mul13(b), Mul13(Double(c)), Mul13(Mul3(d)),
              Mul9(Mul3(a)), Mul9(b), Mul9(c), Mul9(Double(d)));
    MixCoefficient0(a);
    MixCoefficient1(b);
    MixCoefficient2(c);
    MixCoefficient3(d);
    AddZeros(a);
  }
}
