/** What merging a sorted list of writes does to a disk. Whether two neighbours are merged
    is a parameter here, so everything holds for every driver and every vector limit. */
module WriteMerge {

  import opened Bytes

  // A write of data at a byte offset.
  datatype Extent = Extent(at: nat, data: seq<byte>)

  function End(x: Extent): nat { x.at + |x.data| }

  predicate Covers(x: Extent, j: nat) { x.at <= j < End(x) }

  // ----- executing writes in order

  predicate Fits(d: seq<byte>, xs: seq<Extent>) { forall x :: x in xs ==> End(x) <= |d| }

  function Write(d: seq<byte>, x: Extent): (r: seq<byte>)
    requires End(x) <= |d|
    ensures |r| == |d| && forall j :: 0 <= j < |d| ==> r[j] == if Covers(x, j) then x.data[j - x.at] else d[j]
  {
    d[..x.at] + x.data + d[End(x)..]
  }

  function Exec(d: seq<byte>, xs: seq<Extent>): (r: seq<byte>)
    requires Fits(d, xs)
    ensures |r| == |d|
  {
    if xs == [] then d else Write(Exec(d, Front(xs)), Last(xs))
  }

  function Front<T>(xs: seq<T>): seq<T>
    requires xs != []
  {
    xs[..|xs| - 1]
  }

  function Last<T>(xs: seq<T>): T
    requires xs != []
  {
    xs[|xs| - 1]
  }

  // Byte j of the result: the last write that covers it.
  function At(d: seq<byte>, xs: seq<Extent>, j: nat): byte
    requires j < |d|
  {
    if xs == [] then d[j]
    else if Covers(Last(xs), j) then Last(xs).data[j - Last(xs).at]
    else At(d, Front(xs), j)
  }

  lemma {:induction false} ExecAt(d: seq<byte>, xs: seq<Extent>, j: nat)
    requires Fits(d, xs) && j < |d|
    ensures Exec(d, xs)[j] == At(d, xs, j)
  {
    if xs != [] {
      ExecAt(d, Front(xs), j);
    }
  }

  // ----- merging and what it should amount to

  // The first write up to the start of the second, zeros up to there, the second.
  function Join(x: Extent, y: Extent): (z: Extent)
    requires x.at <= y.at
    ensures z.at == x.at && End(z) == End(y)
    ensures forall j: nat :: Covers(z, j) ==>
              z.data[j - z.at] == if j >= y.at then y.data[j - y.at] else if j < End(x) then x.data[j - x.at] else 0
  {
    if y.at <= End(x) then Extent(x.at, x.data[..y.at - x.at] + y.data)
    else Extent(x.at, x.data + Zeros(y.at - End(x)) + y.data)
  }

  predicate InOrder(xs: seq<Extent>, i: nat)
    requires 0 < i < |xs|
  {
    xs[i - 1].at <= xs[i].at
  }

  ghost predicate Sorted(xs: seq<Extent>) { forall i :: 0 < i < |xs| ==> InOrder(xs, i) }

  // merge[i] says that request i is merged into what precedes it.
  ghost predicate Plan(merge: seq<bool>, xs: seq<Extent>) { |merge| == |xs| && Sorted(xs) }

  // One more request, merged into the last of the list or appended to it.
  function Step(merge: bool, r: seq<Extent>, y: Extent): seq<Extent>
    requires r != [] && Last(r).at <= y.at
  {
    if merge then Front(r) + [Join(Last(r), y)] else r + [y]
  }

  // The list after requests 0 to n - 1.
  function Merged(merge: seq<bool>, xs: seq<Extent>, n: nat): (r: seq<Extent>)
    requires Plan(merge, xs) && 0 < n <= |xs|
    ensures 0 < |r| <= n && Last(r).at <= xs[n - 1].at && End(Last(r)) == End(xs[n - 1])
  {
    if n == 1 then [xs[0]] else
      var r := Merged(merge, xs, n - 1);
      assert InOrder(xs, n - 1);
      Step(merge[n - 1], r, xs[n - 1])
  }

  // The requests themselves, with the gaps that are merged across written as zeros.
  function Gap(merge: seq<bool>, xs: seq<Extent>, i: nat): seq<Extent>
    requires Plan(merge, xs) && 0 < i < |xs|
  {
    if merge[i] && End(xs[i - 1]) < xs[i].at then [Extent(End(xs[i - 1]), Zeros(xs[i].at - End(xs[i - 1])))] else []
  }

  function Requested(merge: seq<bool>, xs: seq<Extent>, n: nat): (r: seq<Extent>)
    requires Plan(merge, xs) && 0 < n <= |xs|
    ensures r != [] && Last(r) == xs[n - 1]
  {
    if n == 1 then [xs[0]] else Requested(merge, xs, n - 1) + Gap(merge, xs, n - 1) + [xs[n - 1]]
  }

  // Without a gap that is merged across, only the requests are written.
  lemma {:induction false} NoGaps(merge: seq<bool>, xs: seq<Extent>, n: nat)
    requires Plan(merge, xs) && 0 < n <= |xs| && forall i {:trigger Gap(merge, xs, i)} :: 0 < i < |xs| ==> Gap(merge, xs, i) == []
    ensures Requested(merge, xs, n) == xs[..n]
  {
    if n > 1 {
      var m := n - 1;
      NoGaps(merge, xs, m);
      assert Gap(merge, xs, m) == [];
      assert xs[..m] + [] + [xs[m]] == xs[..n];
    }
  }

  // Request i, or the gap before it, writes byte j.
  predicate Reaches(merge: seq<bool>, xs: seq<Extent>, i: nat, j: nat)
    requires Plan(merge, xs) && 0 < i < |xs|
  {
    j < End(xs[i]) && (xs[i].at <= j || (merge[i] && End(xs[i - 1]) <= j))
  }

  // Merging request i drops byte j of the request before it.
  predicate Drops(merge: seq<bool>, xs: seq<Extent>, i: nat, j: nat)
    requires Plan(merge, xs) && 0 < i < |xs|
  {
    merge[i] && End(xs[i]) <= j < End(xs[i - 1])
  }

  // What one more request does to byte j, in the merged list ...
  lemma MergedNext(d: seq<byte>, merge: seq<bool>, xs: seq<Extent>, n: nat, j: nat)
    requires Plan(merge, xs) && 0 < n < |xs| && j < |d|
    ensures var r, r' := Merged(merge, xs, n), Merged(merge, xs, n + 1);
            At(d, r', j) == if Reaches(merge, xs, n, j) then (if j < xs[n].at then 0 else xs[n].data[j - xs[n].at])
                            else if Drops(merge, xs, n, j) then At(d, Front(r), j)
                            else At(d, r, j)
  {
    var r := Merged(merge, xs, n);
    var y := xs[n];
    assert InOrder(xs, n);
    if merge[n] {
      var z := Join(Last(r), y);
      assert Front(Front(r) + [z]) == Front(r);
    } else {
      assert Front(r + [y]) == r;
    }
  }

  // ... and in the list of requests.
  lemma RequestedNext(d: seq<byte>, merge: seq<bool>, xs: seq<Extent>, n: nat, j: nat)
    requires Plan(merge, xs) && 0 < n < |xs| && j < |d|
    ensures var r, r' := Requested(merge, xs, n), Requested(merge, xs, n + 1);
            At(d, r', j) == if Reaches(merge, xs, n, j) then (if j < xs[n].at then 0 else xs[n].data[j - xs[n].at])
                            else At(d, r, j)
  {
    var r, g := Requested(merge, xs, n), Gap(merge, xs, n);
    assert InOrder(xs, n);
    assert Front(r + g + [xs[n]]) == r + g;
    if g == [] {
      assert r + g == r;
    } else {
      assert Front(r + g) == r && Last(r + g) == g[0];
    }
  }

  // Request i drops byte j, and none up to request n - 1 writes it again.
  ghost predicate LostAt(merge: seq<bool>, xs: seq<Extent>, i: nat, n: nat, j: nat)
    requires Plan(merge, xs) && n <= |xs|
  {
    0 < i < n && Drops(merge, xs, i, j) && forall m :: i < m < n ==> !Reaches(merge, xs, m, j)
  }

  ghost predicate Lost(merge: seq<bool>, xs: seq<Extent>, n: nat, j: nat)
    requires Plan(merge, xs) && n <= |xs|
  {
    exists i: nat :: LostAt(merge, xs, i, n, j)
  }

  lemma LostNext(merge: seq<bool>, xs: seq<Extent>, n: nat, j: nat)
    requires Plan(merge, xs) && 0 < n < |xs| && !Reaches(merge, xs, n, j)
    ensures Lost(merge, xs, n + 1, j) <==> Drops(merge, xs, n, j) || Lost(merge, xs, n, j)
  {
    if Drops(merge, xs, n, j) {
      assert LostAt(merge, xs, n, n + 1, j);
    } else if Lost(merge, xs, n, j) {
      var i: nat :| LostAt(merge, xs, i, n, j);
      assert LostAt(merge, xs, i, n + 1, j);
    } else if Lost(merge, xs, n + 1, j) {
      var i: nat :| LostAt(merge, xs, i, n + 1, j);
      assert LostAt(merge, xs, i, n, j);
    }
  }

  lemma {:induction false} KeptUnlessLost(d: seq<byte>, merge: seq<bool>, xs: seq<Extent>, n: nat, j: nat)
    requires Plan(merge, xs) && 0 < n <= |xs| && j < |d| && !Lost(merge, xs, n, j)
    ensures At(d, Merged(merge, xs, n), j) == At(d, Requested(merge, xs, n), j)
  {
    if n > 1 {
      MergedNext(d, merge, xs, n - 1, j);
      RequestedNext(d, merge, xs, n - 1, j);
      if !Reaches(merge, xs, n - 1, j) {
        LostNext(merge, xs, n - 1, j);
        KeptUnlessLost(d, merge, xs, n - 1, j);
      }
    }
  }

  lemma {:induction false} ListsFit(d: seq<byte>, merge: seq<bool>, xs: seq<Extent>, n: nat)
    requires Plan(merge, xs) && 0 < n <= |xs| && Fits(d, xs)
    ensures Fits(d, Merged(merge, xs, n)) && Fits(d, Requested(merge, xs, n))
  {
    if n > 1 {
      ListsFit(d, merge, xs, n - 1);
      assert xs[n - 1] in xs && InOrder(xs, n - 1);
    }
  }

  // If nothing is lost, the merged list leaves the disk that the requests leave.
  lemma MergePreserves(d: seq<byte>, merge: seq<bool>, xs: seq<Extent>)
    requires Plan(merge, xs) && xs != [] && Fits(d, xs)
    requires forall j: nat :: !Lost(merge, xs, |xs|, j)
    ensures Fits(d, Merged(merge, xs, |xs|)) && Fits(d, Requested(merge, xs, |xs|))
    ensures Exec(d, Merged(merge, xs, |xs|)) == Exec(d, Requested(merge, xs, |xs|))
  {
    var m, r := Merged(merge, xs, |xs|), Requested(merge, xs, |xs|);
    ListsFit(d, merge, xs, |xs|);
    forall j | 0 <= j < |d| ensures Exec(d, m)[j] == Exec(d, r)[j] {
      KeptUnlessLost(d, merge, xs, |xs|, j);
      ExecAt(d, m, j);
      ExecAt(d, r, j);
    }
  }

  // ----- otherwise some data is lost

  predicate SameExtents(xs: seq<Extent>, ys: seq<Extent>) {
    |xs| == |ys| && forall i :: 0 <= i < |xs| ==> xs[i].at == ys[i].at && |xs[i].data| == |ys[i].data|
  }

  predicate Filled(x: Extent, v: byte) { forall k :: 0 <= k < |x.data| ==> x.data[k] == v }

  predicate Zero(x: Extent) { Filled(x, 0) }

  // Request a writes ones, the others zeros.
  ghost predicate Tagged(xs: seq<Extent>, ys: seq<Extent>, a: nat) {
    SameExtents(xs, ys) && forall i :: 0 <= i < |ys| ==> Filled(ys[i], if i == a then 1 else 0)
  }

  lemma Tag(xs: seq<Extent>, a: nat) returns (ys: seq<Extent>)
    ensures Tagged(xs, ys, a)
  {
    ys := seq(|xs|, i requires 0 <= i < |xs| => Extent(xs[i].at, seq(|xs[i].data|, _ => if i == a then 1 else 0)));
  }

  lemma {:induction false} MergedZero(merge: seq<bool>, xs: seq<Extent>, n: nat)
    requires Plan(merge, xs) && 0 < n <= |xs| && forall i :: 0 <= i < n ==> Zero(xs[i])
    ensures forall x :: x in Merged(merge, xs, n) ==> Zero(x)
  {
    if n > 1 {
      MergedZero(merge, xs, n - 1);
      var r := Merged(merge, xs, n - 1);
      assert InOrder(xs, n - 1);
      assert Zero(Last(r)) && Zero(xs[n - 1]);
      assert merge[n - 1] ==> Zero(Join(Last(r), xs[n - 1]));
    }
  }

  lemma {:induction false} AtZero(d: seq<byte>, xs: seq<Extent>, j: nat)
    requires j < |d| && d[j] == 0 && forall x :: x in xs ==> Zero(x)
    ensures At(d, xs, j) == 0
  {
    if xs != [] {
      assert Zero(Last(xs));
      AtZero(d, Front(xs), j);
    }
  }

  // The list before request i is merged holds nothing of request i - 1 but in its last element.
  lemma FrontZero(d: seq<byte>, merge: seq<bool>, xs: seq<Extent>, i: nat, j: nat)
    requires Plan(merge, xs) && 0 < i <= |xs| && (forall k :: 0 <= k < i - 1 ==> Zero(xs[k]))
    requires j < |d| && d[j] == 0
    ensures At(d, Front(Merged(merge, xs, i)), j) == 0
  {
    if i > 1 {
      MergedZero(merge, xs, i - 1);
      AtZero(d, Front(Merged(merge, xs, i)), j);
    }
  }

  lemma NotAgain(merge: seq<bool>, xs: seq<Extent>, i: nat, m: nat, n: nat, j: nat)
    requires Plan(merge, xs) && n <= |xs| && LostAt(merge, xs, i, n, j) && i < m < n
    ensures !Reaches(merge, xs, m, j) && !Drops(merge, xs, m, j)
  {
    assert InOrder(xs, m) && (m - 1 > i ==> !Reaches(merge, xs, m - 1, j));
  }

  lemma LostNow(d: seq<byte>, merge: seq<bool>, xs: seq<Extent>, i: nat, n: nat, j: nat)
    requires Plan(merge, xs) && 0 < i < n == i + 1 <= |xs| && Drops(merge, xs, i, j) && j < |d|
    ensures At(d, Merged(merge, xs, n), j) == At(d, Front(Merged(merge, xs, i)), j)
    ensures At(d, Requested(merge, xs, n), j) == At(d, Requested(merge, xs, i), j)
  {
    MergedNext(d, merge, xs, i, j);
    RequestedNext(d, merge, xs, i, j);
  }

  lemma Untouched(d: seq<byte>, merge: seq<bool>, xs: seq<Extent>, m: nat, n: nat, j: nat)
    requires Plan(merge, xs) && 0 < m < n == m + 1 <= |xs| && j < |d|
    requires !Reaches(merge, xs, m, j) && !Drops(merge, xs, m, j)
    ensures At(d, Merged(merge, xs, n), j) == At(d, Merged(merge, xs, m), j)
    ensures At(d, Requested(merge, xs, n), j) == At(d, Requested(merge, xs, m), j)
  {
    MergedNext(d, merge, xs, m, j);
    RequestedNext(d, merge, xs, m, j);
  }

  // Once lost, a byte stays as it is in both lists.
  lemma {:induction false} LostStays(d: seq<byte>, merge: seq<bool>, xs: seq<Extent>, i: nat, n: nat, j: nat)
    requires Plan(merge, xs) && n <= |xs| && LostAt(merge, xs, i, n, j) && j < |d|
    ensures At(d, Merged(merge, xs, n), j) == At(d, Front(Merged(merge, xs, i)), j)
    ensures At(d, Requested(merge, xs, n), j) == At(d, Requested(merge, xs, i), j)
    decreases n
  {
    var m := n - 1;
    if m == i {
      LostNow(d, merge, xs, i, n, j);
    } else {
      NotAgain(merge, xs, i, m, n, j);
      LostStays(d, merge, xs, i, m, j);
      Untouched(d, merge, xs, m, n, j);
    }
  }

  lemma ShapePlan(merge: seq<bool>, xs: seq<Extent>, ys: seq<Extent>)
    requires Plan(merge, xs) && SameExtents(xs, ys)
    ensures Plan(merge, ys)
  {
    assert forall m :: 0 < m < |xs| ==> InOrder(xs, m) == InOrder(ys, m);
  }

  lemma RequestedLast(d: seq<byte>, merge: seq<bool>, xs: seq<Extent>, i: nat, k: nat, j: nat)
    requires Plan(merge, xs) && 0 < i == k + 1 <= |xs| && Covers(xs[k], j) && j < |d|
    ensures At(d, Requested(merge, xs, i), j) == xs[k].data[j - xs[k].at]
  {
  }

  // With ones in the request that loses byte j and zeros before it, the loss shows.
  lemma LossShows(d: seq<byte>, merge: seq<bool>, ys: seq<Extent>, i: nat, k: nat, n: nat, j: nat)
    requires Plan(merge, ys) && n == |ys| && LostAt(merge, ys, i, n, j) && i == k + 1 && j < |d| && d[j] == 0
    requires Covers(ys[k], j) && ys[k].data[j - ys[k].at] == 1 && forall m :: 0 <= m < k ==> Zero(ys[m])
    ensures At(d, Merged(merge, ys, n), j) == 0 && At(d, Requested(merge, ys, n), j) == 1
  {
    LostStays(d, merge, ys, i, n, j);
    FrontZero(d, merge, ys, i, j);
    RequestedLast(d, merge, ys, i, k, j);
  }

  lemma TaggedLoses(merge: seq<bool>, xs: seq<Extent>, ys: seq<Extent>, i: nat, k: nat, n: nat, j: nat)
    requires Plan(merge, xs) && n == |xs| && LostAt(merge, xs, i, n, j) && i == k + 1 && Tagged(xs, ys, k)
    ensures Plan(merge, ys) && |ys| == n && LostAt(merge, ys, i, n, j)
    ensures Covers(ys[k], j) && ys[k].data[j - ys[k].at] == 1 && forall m :: 0 <= m < k ==> Zero(ys[m])
  {
    ShapePlan(merge, xs, ys);
    assert InOrder(xs, i) && Drops(merge, ys, i, j);
    assert forall m :: i < m < n ==> Reaches(merge, ys, m, j) == Reaches(merge, xs, m, j);
  }

  // Executing the merged list of these writes, or the requests, on this disk is the same.
  ghost predicate Preserves(merge: seq<bool>, xs: seq<Extent>, d: seq<byte>) {
    && Plan(merge, xs) && xs != []
    && Fits(d, Merged(merge, xs, |xs|)) && Fits(d, Requested(merge, xs, |xs|))
    && Exec(d, Merged(merge, xs, |xs|)) == Exec(d, Requested(merge, xs, |xs|))
  }

  lemma Differs(d: seq<byte>, merge: seq<bool>, ys: seq<Extent>, n: nat, j: nat)
    requires Plan(merge, ys) && n == |ys| && ys != [] && Fits(d, ys) && j < |d|
    requires At(d, Merged(merge, ys, n), j) != At(d, Requested(merge, ys, n), j)
    ensures !Preserves(merge, ys, d)
  {
    ListsFit(d, merge, ys, n);
    ExecAt(d, Merged(merge, ys, n), j);
    ExecAt(d, Requested(merge, ys, n), j);
  }

  lemma LossDiffers(d: seq<byte>, merge: seq<bool>, ys: seq<Extent>, i: nat, k: nat, n: nat, j: nat)
    requires Plan(merge, ys) && n == |ys| && LostAt(merge, ys, i, n, j) && i == k + 1 && j < |d| && d[j] == 0
    requires Covers(ys[k], j) && ys[k].data[j - ys[k].at] == 1 && (forall m :: 0 <= m < k ==> Zero(ys[m])) && Fits(d, ys)
    ensures !Preserves(merge, ys, d)
  {
    LossShows(d, merge, ys, i, k, n, j);
    Differs(d, merge, ys, n, j);
  }

  lemma Loses(merge: seq<bool>, xs: seq<Extent>, size: nat, j: nat) returns (ys: seq<Extent>, d: seq<byte>)
    requires Plan(merge, xs) && (forall x :: x in xs ==> End(x) <= size) && Lost(merge, xs, |xs|, j)
    ensures SameExtents(xs, ys) && |d| == size && !Preserves(merge, ys, d)
  {
    var i: nat :| LostAt(merge, xs, i, |xs|, j);
    var k := i - 1;
    ys := Tag(xs, k);
    d := Zeros(size);
    assert End(xs[k]) <= size;
    TaggedLoses(merge, xs, ys, i, k, |xs|, j);
    FitsToo(xs, ys, d);
    LossDiffers(d, merge, ys, i, k, |xs|, j);
  }

  lemma Keeps(merge: seq<bool>, xs: seq<Extent>, ys: seq<Extent>, d: seq<byte>)
    requires Plan(merge, xs) && xs != [] && (forall x :: x in xs ==> End(x) <= |d|) && SameExtents(xs, ys)
    requires forall j: nat :: !Lost(merge, xs, |xs|, j)
    ensures Preserves(merge, ys, d)
  {
    ShapePlan(merge, xs, ys);
    forall j: nat ensures !Lost(merge, ys, |ys|, j) {
      ShapeOnly(merge, xs, ys, j);
    }
    FitsToo(xs, ys, d);
    MergePreserves(d, merge, ys);
  }

  // Merging preserves the writes, whatever their data and whatever the disk, if and only
  // if every byte that is dropped is written again by a later request or gap.
  lemma MergeExact(merge: seq<bool>, xs: seq<Extent>, size: nat)
    requires Plan(merge, xs) && xs != [] && forall x :: x in xs ==> End(x) <= size
    ensures (forall ys, d :: SameExtents(xs, ys) && |d| == size ==> Preserves(merge, ys, d))
            <==> (forall j: nat :: !Lost(merge, xs, |xs|, j))
  {
    if j: nat :| Lost(merge, xs, |xs|, j) {
      var _, _ := Loses(merge, xs, size, j);
    } else {
      forall ys, d: seq<byte> | SameExtents(xs, ys) && |d| == size ensures Preserves(merge, ys, d) {
        Keeps(merge, xs, ys, d);
      }
    }
  }

  lemma FitsToo(xs: seq<Extent>, ys: seq<Extent>, d: seq<byte>)
    requires SameExtents(xs, ys) && forall x :: x in xs ==> End(x) <= |d|
    ensures Fits(d, ys)
  {
    forall y | y in ys ensures End(y) <= |d| {
      var k :| 0 <= k < |ys| && ys[k] == y;
      assert End(xs[k]) <= |d|;
    }
  }

  lemma ShapeOnly(merge: seq<bool>, xs: seq<Extent>, ys: seq<Extent>, j: nat)
    requires Plan(merge, xs) && SameExtents(xs, ys)
    requires Plan(merge, ys)
    ensures Lost(merge, ys, |ys|, j) ==> Lost(merge, xs, |xs|, j)
  {
    if Lost(merge, ys, |ys|, j) {
      var i: nat :| LostAt(merge, ys, i, |ys|, j);
      assert Drops(merge, xs, i, j);
      assert forall m :: i < m < |xs| ==> Reaches(merge, ys, m, j) == Reaches(merge, xs, m, j);
      assert LostAt(merge, xs, i, |xs|, j);
    }
  }

  // Nothing is lost when no request ends before one that starts earlier.
  lemma EndsInOrder(merge: seq<bool>, xs: seq<Extent>)
    requires Plan(merge, xs) && forall i, j :: 0 <= i < j < |xs| ==> End(xs[i]) <= End(xs[j])
    ensures forall j: nat :: !Lost(merge, xs, |xs|, j)
  {
    assert forall i :: 0 < i < |xs| ==> End(xs[i - 1]) <= End(xs[i]);
  }

  // ----- the order of disjoint requests

  ghost predicate Disjoint(xs: seq<Extent>) {
    forall i, k, j: nat :: 0 <= i < |xs| && 0 <= k < |xs| && Covers(xs[i], j) && Covers(xs[k], j) ==> i == k
  }

  lemma {:induction false} AtCovered(d: seq<byte>, xs: seq<Extent>, i: nat, j: nat)
    requires Disjoint(xs) && i < |xs| && Covers(xs[i], j) && j < |d|
    ensures At(d, xs, j) == xs[i].data[j - xs[i].at]
  {
    if i < |xs| - 1 {
      assert !Covers(Last(xs), j);
      AtCovered(d, Front(xs), i, j);
    }
  }

  lemma {:induction false} AtUncovered(d: seq<byte>, xs: seq<Extent>, j: nat)
    requires (forall x :: x in xs ==> !Covers(x, j)) && j < |d|
    ensures At(d, xs, j) == d[j]
  {
    if xs != [] {
      AtUncovered(d, Front(xs), j);
    }
  }

  // Sorting requests that do not overlap does not change what they do.
  lemma DisjointReorder(d: seq<byte>, xs: seq<Extent>, ys: seq<Extent>)
    requires Disjoint(xs) && Disjoint(ys) && Fits(d, xs) && (forall x :: x in xs <==> x in ys)
    ensures Fits(d, ys) && Exec(d, xs) == Exec(d, ys)
  {
    forall j | 0 <= j < |d| ensures Exec(d, xs)[j] == Exec(d, ys)[j] {
      ExecAt(d, xs, j);
      ExecAt(d, ys, j);
      if i :| 0 <= i < |xs| && Covers(xs[i], j) {
        assert xs[i] in ys;
        var k :| 0 <= k < |ys| && ys[k] == xs[i];
        AtCovered(d, xs, i, j);
        AtCovered(d, ys, k, j);
      } else {
        AtUncovered(d, xs, j);
        AtUncovered(d, ys, j);
      }
    }
  }
}
