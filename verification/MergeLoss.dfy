/** When multiwrite_merge keeps what the requests write: exactly, and a pair it does not keep. */
module MergeLoss {
  import opened Bytes
  import opened IoVector
  import opened WriteMerge
  import opened MergeRequests

  // ----- requests that differ in their data only

  ghost predicate SameLengths(a: Segments, b: Segments) {
    |a| == |b| && forall i :: 0 <= i < |a| ==> |a[i]| == |b[i]|
  }

  lemma {:induction false} FlatLength(a: Segments, b: Segments)
    requires SameLengths(a, b)
    ensures |Flat(a)| == |Flat(b)|
  {
    if a != [] {
      FlatLength(a[1..], b[1..]);
    }
  }

  lemma {:induction false} CopiedLengths(a: Segments, b: Segments, skip: nat, size: nat)
    requires SameLengths(a, b)
    ensures SameLengths(Copied(a, skip, size), Copied(b, skip, size))
    decreases |a|
  {
    if a != [] && size > 0 {
      var n := |a[0]|;
      if skip >= n {
        CopiedLengths(a[1..], b[1..], skip - n, size);
      } else if n - skip <= size {
        CopiedLengths(a[1..], b[1..], 0, size - (n - skip));
      }
    }
  }

  // These bytes, cut into segments of the same lengths.
  function Reshape(segs: Segments, data: seq<byte>): (r: Segments)
    requires |data| == |Flat(segs)|
    decreases |segs|
  {
    if segs == [] then []
    else [data[..|segs[0]|]] + Reshape(segs[1..], data[|segs[0]|..])
  }

  lemma {:induction false} ReshapeHolds(segs: Segments, data: seq<byte>)
    requires |data| == |Flat(segs)|
    ensures Flat(Reshape(segs, data)) == data && SameLengths(segs, Reshape(segs, data))
    decreases |segs|
  {
    if segs != [] {
      var n := |segs[0]|;
      ReshapeHolds(segs[1..], data[n..]);
      var r, rest := Reshape(segs, data), Reshape(segs[1..], data[n..]);
      assert r[0] == data[..n] && r[1..] == rest;
      assert data[..n] + data[n..] == data;
    }
  }

  ghost predicate SameShape(x: Request, y: Request) {
    x.sector == y.sector && x.sectors == y.sectors && SameLengths(x.segs, y.segs)
  }

  ghost predicate SameShapes(rs: seq<Request>, ss: seq<Request>) {
    |rs| == |ss| && forall i :: 0 <= i < |rs| ==> SameShape(rs[i], ss[i])
  }

  // The driver's decision does not depend on the data.
  ghost predicate ByShape(driver: (Request, Request) -> bool) {
    forall x, y, x', y' :: SameShape(x, x') && SameShape(y, y') ==> driver(x, y) == driver(x', y')
  }

  lemma CombineShape(x: Request, y: Request, x': Request, y': Request)
    requires SameShape(x, x') && SameShape(y, y') && x.sector <= y.sector
    ensures SameShape(Combine(x, y), Combine(x', y'))
  {
    var n := SECTOR * (y.sector - x.sector);
    CopiedLengths(x.segs, x'.segs, 0, n);
    FlatLength(y.segs, y'.segs);
    CopiedLengths(y.segs, y'.segs, 0, |Flat(y.segs)|);
    FlatLength(Combine(x, y).segs, Combine(x', y').segs);
  }

  lemma ShapesAscend(rs: seq<Request>, ss: seq<Request>)
    requires Ascending(rs) && SameShapes(rs, ss)
    ensures Ascending(ss)
  {
    forall i | 0 < i < |ss| ensures StartsInOrder(ss, i) {
      assert StartsInOrder(rs, i);
    }
  }

  lemma ShapesProper(rs: seq<Request>, ss: seq<Request>)
    requires Proper(rs) && SameShapes(rs, ss)
    ensures Proper(ss) && SameExtents(Extents(rs), Extents(ss))
  {
    forall i | 0 <= i < |ss| ensures Complete(ss[i]) && |ss[i].segs| <= IOV_MAX && |Flat(rs[i].segs)| == |Flat(ss[i].segs)| {
      assert rs[i] in rs;
      FlatLength(rs[i].segs, ss[i].segs);
    }
  }

  lemma StepShapes(driver: (Request, Request) -> bool, r: seq<Request>, y: Request, r': seq<Request>, y': Request)
    requires ByShape(driver) && r != [] && Last(r).sector <= y.sector && SameShapes(r, r') && SameShape(y, y')
    ensures Merges(driver, Last(r), y) == Merges(driver, Last(r'), y')
    ensures SameShapes(StepTo(driver, r, y), StepTo(driver, r', y'))
  {
    CombineShape(Last(r), y, Last(r'), y');
  }

  lemma {:induction false} MergedShapes(driver: (Request, Request) -> bool, rs: seq<Request>, ss: seq<Request>, n: nat)
    requires ByShape(driver) && Ascending(rs) && Ascending(ss) && SameShapes(rs, ss) && 0 < n <= |rs|
    ensures SameShapes(MergedTo(driver, rs, n), MergedTo(driver, ss, n))
  {
    if n > 1 {
      var m := n - 1;
      MergedShapes(driver, rs, ss, m);
      MergedToNext(driver, rs, m, n);
      MergedToNext(driver, ss, m, n);
      StepShapes(driver, MergedTo(driver, rs, m), rs[m], MergedTo(driver, ss, m), ss[m]);
    }
  }

  // Which requests are merged does not depend on the data.
  lemma SameDecisions(driver: (Request, Request) -> bool, rs: seq<Request>, ss: seq<Request>)
    requires ByShape(driver) && Ascending(rs) && Ascending(ss) && SameShapes(rs, ss)
    ensures Decisions(driver, rs) == Decisions(driver, ss)
  {
    forall i | 0 < i < |rs| ensures Decisions(driver, rs)[i] == Decisions(driver, ss)[i] {
      MergedShapes(driver, rs, ss, i);
      assert StartsInOrder(rs, i);
      StepShapes(driver, MergedTo(driver, rs, i), rs[i], MergedTo(driver, ss, i), ss[i]);
    }
  }

  // ----- what merging keeps

  // The merged requests leave the disk that the requests leave, with the gaps zeroed that
  // are merged across.
  ghost predicate KeepsWrites(driver: (Request, Request) -> bool, rs: seq<Request>, d: seq<byte>)
    requires Ascending(rs) && Proper(rs) && rs != [] && Fits(d, Extents(rs))
  {
    var merge, xs, ms := Decisions(driver, rs), Extents(rs), Extents(MergedTo(driver, rs, |rs|));
    Plan(merge, xs) && Fits(d, ms) && Fits(d, Requested(merge, xs, |rs|)) && Exec(d, ms) == Exec(d, Requested(merge, xs, |rs|))
  }

  lemma KeepsIs(driver: (Request, Request) -> bool, rs: seq<Request>, d: seq<byte>)
    requires Ascending(rs) && Proper(rs) && rs != [] && Fits(d, Extents(rs))
    ensures KeepsWrites(driver, rs, d) <==> Preserves(Decisions(driver, rs), Extents(rs), d)
  {
    MergedIs(driver, rs, |rs|);
  }

  ghost predicate Within(rs: seq<Request>, size: nat) {
    forall r :: r in rs ==> SECTOR * (r.sector + r.sectors) <= size
  }

  lemma WithinFits(rs: seq<Request>, d: seq<byte>)
    requires Proper(rs) && Within(rs, |d|)
    ensures Fits(d, Extents(rs))
  {
    forall x | x in Extents(rs) ensures End(x) <= |d| {
      var i :| 0 <= i < |rs| && x == ToExtent(rs[i]);
      assert rs[i] in rs;
    }
  }

  // Merging requests of these shapes keeps the writes, whatever their data and the disk.
  ghost predicate AlwaysKeeps(driver: (Request, Request) -> bool, rs: seq<Request>, size: nat) {
    forall ss, d: seq<byte> :: SameShapes(rs, ss) && |d| == size ==> Kept(driver, ss, d)
  }

  ghost predicate Kept(driver: (Request, Request) -> bool, rs: seq<Request>, d: seq<byte>) {
    Ascending(rs) && Proper(rs) && rs != [] && Fits(d, Extents(rs)) && KeepsWrites(driver, rs, d)
  }

  // Each byte that a merge drops is written by a later request or gap.
  ghost predicate NoneLost(driver: (Request, Request) -> bool, rs: seq<Request>)
    requires Ascending(rs)
  {
    Plan(Decisions(driver, rs), Extents(rs)) && forall j: nat :: !Lost(Decisions(driver, rs), Extents(rs), |rs|, j)
  }

  // Requests of the given shapes with the given data.
  lemma WithData(rs: seq<Request>, ys: seq<Extent>) returns (ss: seq<Request>)
    requires Proper(rs) && SameExtents(Extents(rs), ys)
    ensures SameShapes(rs, ss) && Extents(ss) == ys
  {
    ss := seq(|rs|, i requires 0 <= i < |rs| =>
            assert Extents(rs)[i] == ToExtent(rs[i]);
            Request(rs[i].sector, rs[i].sectors, Reshape(rs[i].segs, ys[i].data)));
    forall i | 0 <= i < |rs| ensures SameShape(rs[i], ss[i]) && ToExtent(ss[i]) == ys[i] {
      assert Extents(rs)[i] == ToExtent(rs[i]);
      ReshapeHolds(rs[i].segs, ys[i].data);
    }
  }

  lemma KeptAlways(driver: (Request, Request) -> bool, rs: seq<Request>, ss: seq<Request>, d: seq<byte>)
    requires ByShape(driver) && Ascending(rs) && Proper(rs) && rs != [] && Within(rs, |d|) && SameShapes(rs, ss)
    requires NoneLost(driver, rs)
    ensures Kept(driver, ss, d)
  {
    ShapesAscend(rs, ss);
    ShapesProper(rs, ss);
    SameDecisions(driver, rs, ss);
    WithinFits(rs, d);
    FitsToo(Extents(rs), Extents(ss), d);
    Keeps(Decisions(driver, rs), Extents(rs), Extents(ss), d);
    KeepsIs(driver, ss, d);
  }

  lemma NothingLost(driver: (Request, Request) -> bool, rs: seq<Request>, size: nat)
    requires ByShape(driver) && Ascending(rs) && Proper(rs) && rs != [] && Within(rs, size) && NoneLost(driver, rs)
    ensures AlwaysKeeps(driver, rs, size)
  {
    forall ss, d: seq<byte> | SameShapes(rs, ss) && |d| == size ensures Kept(driver, ss, d) {
      KeptAlways(driver, rs, ss, d);
    }
  }

  lemma LossFound(driver: (Request, Request) -> bool, rs: seq<Request>, size: nat, j: nat)
    requires ByShape(driver) && Ascending(rs) && Proper(rs) && rs != [] && Within(rs, size)
    requires Plan(Decisions(driver, rs), Extents(rs)) && Lost(Decisions(driver, rs), Extents(rs), |rs|, j)
    ensures !AlwaysKeeps(driver, rs, size)
  {
    WithinFits(rs, Zeros(size));
    var ys, d := Loses(Decisions(driver, rs), Extents(rs), size, j);
    var ss := WithData(rs, ys);
    ShapesAscend(rs, ss);
    ShapesProper(rs, ss);
    SameDecisions(driver, rs, ss);
    FitsToo(Extents(rs), ys, d);
    KeepsIs(driver, ss, d);
    assert !Kept(driver, ss, d);
  }

  // multiwrite_merge keeps what requests of these shapes write, whatever their data and the
  // disk, if and only if each byte that a merge drops is written by a later request or gap.
  lemma MergeRequestsExact(driver: (Request, Request) -> bool, rs: seq<Request>, size: nat)
    requires ByShape(driver) && Ascending(rs) && Proper(rs) && rs != [] && Within(rs, size)
    ensures AlwaysKeeps(driver, rs, size) <==> NoneLost(driver, rs)
  {
    ExtentsSorted(rs);
    if NoneLost(driver, rs) {
      NothingLost(driver, rs, size);
    } else {
      var j: nat :| Lost(Decisions(driver, rs), Extents(rs), |rs|, j);
      LossFound(driver, rs, size, j);
    }
  }

  // ----- a pair of requests that is not kept

  function Ones(n: nat): (z: seq<byte>)
    ensures |z| == n && forall k :: 0 <= k < n ==> z[k] == 1
  {
    seq(n, _ => 1)
  }

  const OUTER := Request(0, 3, [Ones(1536)])
  const INNER := Request(1, 1, [Ones(512)])

  lemma PairFlat()
    ensures Flat(OUTER.segs) == Ones(1536) && Flat(INNER.segs) == Ones(512)
  {
    assert OUTER.segs[1..] == [] && INNER.segs[1..] == [];
    assert Flat([]) == [];
  }

  // A write of sectors 0 to 2 and one of sector 1: every driver's merge drops sector 2.
  lemma OverlapLoses(driver: (Request, Request) -> bool) returns (rs: seq<Request>, d: seq<byte>)
    ensures rs == [OUTER, INNER] && d == Zeros(1536)
    ensures Ascending(rs) && Proper(rs) && Fits(d, Extents(rs)) && !KeepsWrites(driver, rs, d)
  {
    rs, d := [OUTER, INNER], Zeros(1536);
    PairFlat();
    var xs := Extents(rs);
    assert xs == [Extent(0, Ones(1536)), Extent(512, Ones(512))];
    ExtentsSorted(rs);
    var merge := Decisions(driver, rs);
    assert MergedTo(driver, rs, 1) == [OUTER];
    assert merge[1];
    assert LostAt(merge, xs, 1, 2, 1024);
    LossDiffers(d, merge, xs, 1, 0, 2, 1024);
    KeepsIs(driver, rs, d);
  }
}
