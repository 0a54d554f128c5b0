/** Key expansion (FIPS 197 section 5.2) by the three sliding-pointer loops, for any word
    type and any word transformations. */
module KeySchedule {

  // Word addition, the transformation of every Nk-th word, which takes the number of the
  // round constant, and the one 256-bit keys apply half-way between.
  datatype Expander<!W> = Expander(xor: (W, W) -> W, rot: (W, nat) -> W, sub: W -> W)

  // Word i of the schedule (Figure 11).
  function Expanded<W>(e: Expander<W>, key: seq<W>, i: nat): W
    requires key != []
    decreases i
  {
    var nk := |key|;
    if i < nk then key[i]
    else
      var temp := Expanded(e, key, i - 1);
      e.xor(Expanded(e, key, i - nk),
            if i % nk == 0 then e.rot(temp, i / nk)
            else if nk > 6 && i % nk == 4 then e.sub(temp)
            else temp)
  }

  // Word i from the one before it and the one nk before it.
  function Next<W>(e: Expander<W>, nk: nat, back: W, temp: W, i: nat): W
    requires nk > 0
  {
    e.xor(back, if i % nk == 0 then e.rot(temp, i / nk) else if nk > 6 && i % nk == 4 then e.sub(temp) else temp)
  }

  // Words that start with the key and follow one another so are the schedule.
  lemma {:induction false} Determined<W>(e: Expander<W>, key: seq<W>, w: nat -> W, n: nat, i: nat)
    requires key != [] && |key| <= n && i < n && forall j :: 0 <= j < |key| ==> w(j) == key[j]
    requires forall j :: |key| <= j < n ==> w(j) == Next(e, |key|, w(j - |key|), w(j - 1), j)
    ensures Expanded(e, key, i) == w(i)
    decreases i
  {
    if i >= |key| {
      Determined(e, key, w, n, i - 1);
      Determined(e, key, w, n, i - |key|);
    }
  }

  // The first n words.
  function Words<W>(e: Expander<W>, key: seq<W>, n: nat): (w: seq<W>)
    requires key != []
    ensures |w| == n && forall i :: 0 <= i < n ==> w[i] == Expanded(e, key, i)
  {
    seq(n, i requires 0 <= i => Expanded(e, key, i))
  }

  lemma WordsAre<W>(e: Expander<W>, key: seq<W>, w: nat -> W, n: nat)
    requires key != [] && |key| <= n && forall j :: 0 <= j < |key| ==> w(j) == key[j]
    requires forall j :: |key| <= j < n ==> w(j) == Next(e, |key|, w(j - |key|), w(j - 1), j)
    ensures forall i {:trigger Words(e, key, n)[i]} :: 0 <= i < n ==> Words(e, key, n)[i] == w(i)
  {
    forall i | 0 <= i < n ensures Words(e, key, n)[i] == w(i) {
      Determined(e, key, w, n, i);
    }
  }

  ghost predicate Expands<W>(e: Expander<W>, key: seq<W>, rk: seq<W>, n: nat) {
    key != [] && n <= |rk| && forall j :: 0 <= j < n ==> rk[j] == Expanded(e, key, j)
  }

  // The statements of the loops, each of which writes the first word that is missing.

  method Rotated<W>(e: Expander<W>, ghost key: seq<W>, rk: array<W>, n: nat, nk: nat, i: nat)
    requires |key| == nk <= n < rk.Length && Expands(e, key, rk[..], n) && n % nk == 0 && n / nk == i
    modifies rk
    ensures Expands(e, key, rk[..], n + 1) && forall j :: n < j < rk.Length ==> rk[j] == old(rk[j])
  {
    var temp := rk[n - 1];
    rk[n] := e.xor(rk[n - nk], e.rot(temp, i));
  }

  method Substituted<W>(e: Expander<W>, ghost key: seq<W>, rk: array<W>, n: nat, nk: nat)
    requires |key| == nk <= n < rk.Length && Expands(e, key, rk[..], n) && nk > 6 && n % nk == 4
    modifies rk
    ensures Expands(e, key, rk[..], n + 1) && forall j :: n < j < rk.Length ==> rk[j] == old(rk[j])
  {
    var temp := rk[n - 1];
    rk[n] := e.xor(rk[n - nk], e.sub(temp));
  }

  method Plain<W>(e: Expander<W>, ghost key: seq<W>, rk: array<W>, n: nat, nk: nat)
    requires |key| == nk && 0 < nk <= n < rk.Length && Expands(e, key, rk[..], n)
    requires n % nk != 0 && (nk > 6 ==> n % nk != 4)
    modifies rk
    ensures Expands(e, key, rk[..], n + 1) && forall j :: n < j < rk.Length ==> rk[j] == old(rk[j])
  {
    rk[n] := e.xor(rk[n - nk], rk[n - 1]);
  }

  method Expand128<W>(e: Expander<W>, rk: array<W>)
    requires rk.Length == 60
    modifies rk
    ensures Expands(e, old(rk[..4]), rk[..], 44) && forall j :: 44 <= j < 60 ==> rk[j] == old(rk[j])
  {
    ghost var key := rk[..4];
    var p, i := 0, 0;
    while true
      invariant 0 <= i < 10 && p == 4 * i
      invariant Expands(e, key, rk[..], p + 4) && forall j :: p + 4 <= j < 60 ==> rk[j] == old(rk[j])
      decreases 10 - i
    {
      Rotated(e, key, rk, p + 4, 4, i + 1);
      Plain(e, key, rk, p + 5, 4);
      Plain(e, key, rk, p + 6, 4);
      Plain(e, key, rk, p + 7, 4);
      i := i + 1;
      if i == 10 {
        return;
      }
      p := p + 4;
    }
  }

  method Expand192<W>(e: Expander<W>, rk: array<W>)
    requires rk.Length == 60
    modifies rk
    ensures Expands(e, old(rk[..6]), rk[..], 52) && forall j :: 52 <= j < 60 ==> rk[j] == old(rk[j])
  {
    ghost var key := rk[..6];
    var p, i := 0, 0;
    while true
      invariant 0 <= i < 8 && p == 6 * i
      invariant Expands(e, key, rk[..], p + 6) && forall j :: p + 6 <= j < 60 ==> rk[j] == old(rk[j])
      decreases 8 - i
    {
      Rotated(e, key, rk, p + 6, 6, i + 1);
      Plain(e, key, rk, p + 7, 6);
      Plain(e, key, rk, p + 8, 6);
      Plain(e, key, rk, p + 9, 6);
      i := i + 1;
      if i == 8 {
        return;
      }
      Plain(e, key, rk, p + 10, 6);
      Plain(e, key, rk, p + 11, 6);
      p := p + 6;
    }
  }

  method Expand256<W>(e: Expander<W>, rk: array<W>)
    requires rk.Length == 60
    modifies rk
    ensures Expands(e, old(rk[..8]), rk[..], 60)
  {
    ghost var key := rk[..8];
    var p, i := 0, 0;
    while true
      invariant 0 <= i < 7 && p == 8 * i
      invariant Expands(e, key, rk[..], p + 8)
      decreases 7 - i
    {
      Rotated(e, key, rk, p + 8, 8, i + 1);
      Plain(e, key, rk, p + 9, 8);
      Plain(e, key, rk, p + 10, 8);
      Plain(e, key, rk, p + 11, 8);
      i := i + 1;
      if i == 7 {
        return;
      }
      Substituted(e, key, rk, p + 12, 8);
      Plain(e, key, rk, p + 13, 8);
      Plain(e, key, rk, p + 14, 8);
      Plain(e, key, rk, p + 15, 8);
      p := p + 8;
    }
  }

  // Round key r of a schedule.
  function Key<W>(w: seq<W>, r: nat): (W, W, W, W)
    requires 4 * r + 4 <= |w|
  {
    (w[4 * r], w[4 * r + 1], w[4 * r + 2], w[4 * r + 3])
  }

  // Round key r of the decryption schedule made from the schedule w.
  function Inverted<W>(unmix: W -> W, w: seq<W>, rounds: nat, r: nat): (W, W, W, W)
    requires r <= rounds && 4 * rounds + 4 <= |w|
  {
    var k := Key(w, rounds - r);
    if 0 < r < rounds then (unmix(k.0), unmix(k.1), unmix(k.2), unmix(k.3)) else k
  }

  method SwapWords<W>(rk: array<W>, a: nat, b: nat)
    requires a + 4 <= b && b + 4 <= rk.Length
    modifies rk
    ensures rk[a] == old(rk[b]) && rk[a + 1] == old(rk[b + 1])
    ensures rk[a + 2] == old(rk[b + 2]) && rk[a + 3] == old(rk[b + 3])
    ensures rk[b] == old(rk[a]) && rk[b + 1] == old(rk[a + 1])
    ensures rk[b + 2] == old(rk[a + 2]) && rk[b + 3] == old(rk[a + 3])
    ensures forall k :: 0 <= k < a || a + 4 <= k < b || b + 4 <= k < rk.Length ==> rk[k] == old(rk[k])
  {
    rk[a], rk[b] := rk[b], rk[a];
    rk[a + 1], rk[b + 1] := rk[b + 1], rk[a + 1];
    rk[a + 2], rk[b + 2] := rk[b + 2], rk[a + 2];
    rk[a + 3], rk[b + 3] := rk[b + 3], rk[a + 3];
  }

  method SwapKeys<W>(rk: array<W>, i: nat, j: nat)
    requires i < j && 4 * j + 4 <= rk.Length
    modifies rk
    ensures Key(rk[..], i) == old(Key(rk[..], j)) && Key(rk[..], j) == old(Key(rk[..], i))
    ensures forall r: nat :: r != i && r != j && 4 * r + 4 <= rk.Length ==> Key(rk[..], r) == old(Key(rk[..], r))
    ensures forall k :: 4 * j + 4 <= k < rk.Length ==> rk[k] == old(rk[k])
  {
    SwapWords(rk, 4 * i, 4 * j);
  }

  // The order of the round keys is inverted in place.
  method ReverseKeys<W>(rk: array<W>, rounds: nat)
    requires 4 * rounds + 4 <= rk.Length
    modifies rk
    ensures forall r: nat :: r <= rounds ==> Key(rk[..], r) == old(Key(rk[..], rounds - r))
    ensures forall k :: 4 * rounds + 4 <= k < rk.Length ==> rk[k] == old(rk[k])
  {
    var i, j := 0, rounds;
    while i < j
      invariant 0 <= i <= j + 1 && i + j == rounds
      invariant forall r: nat :: r < i || j < r <= rounds ==> Key(rk[..], r) == old(Key(rk[..], rounds - r))
      invariant forall r: nat :: i <= r <= j ==> Key(rk[..], r) == old(Key(rk[..], r))
      invariant forall k :: 4 * rounds + 4 <= k < rk.Length ==> rk[k] == old(rk[k])
    {
      SwapKeys(rk, i, j);
      i, j := i + 1, j - 1;
    }
  }

  method TransformKey<W>(unmix: W -> W, rk: array<W>, i: nat)
    requires 4 * i + 4 <= rk.Length
    modifies rk
    ensures var k := old(Key(rk[..], i)); Key(rk[..], i) == (unmix(k.0), unmix(k.1), unmix(k.2), unmix(k.3))
    ensures forall r: nat :: r != i && 4 * r + 4 <= rk.Length ==> Key(rk[..], r) == old(Key(rk[..], r))
    ensures forall k :: 4 * i + 4 <= k < rk.Length ==> rk[k] == old(rk[k])
  {
    var a := 4 * i;
    rk[a] := unmix(rk[a]);
    rk[a + 1] := unmix(rk[a + 1]);
    rk[a + 2] := unmix(rk[a + 2]);
    rk[a + 3] := unmix(rk[a + 3]);
  }

  // The rest of AES_set_decrypt_key: the order is inverted, then all round keys but the
  // first and the last are transformed.
  method Invert<W>(unmix: W -> W, rk: array<W>, rounds: nat)
    requires 0 < rounds && 4 * rounds + 4 <= rk.Length
    modifies rk
    ensures forall r: nat :: r <= rounds ==> Key(rk[..], r) == Inverted(unmix, old(rk[..]), rounds, r)
    ensures forall k :: 4 * rounds + 4 <= k < rk.Length ==> rk[k] == old(rk[k])
  {
    ReverseKeys(rk, rounds);
    var i := 1;
    while i < rounds
      invariant 1 <= i <= rounds
      invariant forall r: nat :: r < i ==> Key(rk[..], r) == Inverted(unmix, old(rk[..]), rounds, r)
      invariant forall r: nat :: i <= r <= rounds ==> Key(rk[..], r) == old(Key(rk[..], rounds - r))
      invariant forall k :: 4 * rounds + 4 <= k < rk.Length ==> rk[k] == old(rk[k])
    {
      TransformKey(unmix, rk, i);
      i := i + 1;
    }
  }
}
