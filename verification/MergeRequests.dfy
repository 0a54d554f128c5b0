/** multiwrite_merge: combining a sorted array of write requests in place. */
module MergeRequests {
  import opened Bytes
  import opened IoVector
  import opened WriteMerge

  const IOV_MAX: nat := 1024

  // A request's start, length in sectors, and buffers.
  datatype Request = Request(sector: nat, sectors: nat, segs: Segments)

  predicate Complete(r: Request) { |Flat(r.segs)| == SECTOR * r.sectors }

  function ToExtent(r: Request): Extent { Extent(SECTOR * r.sector, Flat(r.segs)) }

  function Extents(rs: seq<Request>): (xs: seq<Extent>)
    ensures |xs| == |rs| && forall i :: 0 <= i < |rs| ==> xs[i] == ToExtent(rs[i])
  {
    seq(|rs|, i requires 0 <= i < |rs| => ToExtent(rs[i]))
  }

  // Whether y is merged into x: it starts where x ends or before, or the driver takes the
  // gap, and the vectors and one more segment stay within the limit.
  predicate Merges(driver: (Request, Request) -> bool, x: Request, y: Request) {
    && (y.sector <= x.sector + x.sectors || driver(x, y))
    && |x.segs| + |y.segs| + 1 <= IOV_MAX
  }

  function Fill(x: Request, y: Request): (z: Segments)
    ensures |z| <= 1
  {
    var last := x.sector + x.sectors;
    if y.sector > last then [Zeros(SECTOR * (y.sector - last))] else []
  }

  function Combine(x: Request, y: Request): Request
    requires x.sector <= y.sector
  {
    var segs := Copied(x.segs, 0, SECTOR * (y.sector - x.sector)) + Fill(x, y) + Copied(y.segs, 0, |Flat(y.segs)|);
    Request(x.sector, |Flat(segs)| / SECTOR, segs)
  }

  lemma CombineBytes(x: Request, y: Request)
    requires x.sector <= y.sector
    ensures Flat(Combine(x, y).segs)
         == Cut(Flat(x.segs), 0, SECTOR * (y.sector - x.sector)) + Flat(Fill(x, y)) + Flat(y.segs)
  {
    var n, m := SECTOR * (y.sector - x.sector), |Flat(y.segs)|;
    var a, b, c := Copied(x.segs, 0, n), Fill(x, y), Copied(y.segs, 0, m);
    CopiedBytes(x.segs, 0, n);
    CopiedBytes(y.segs, 0, m);
    assert Flat(c) == Flat(y.segs);
    FlatAppend(a, b);
    FlatAppend(a + b, c);
  }

  // Two parts of whole sectors, and what Join makes of them.
  lemma JoinBytes(x: Extent, y: Extent, fill: seq<byte>)
    requires x.at <= y.at && fill == Zeros(if y.at > End(x) then y.at - End(x) else 0)
    ensures Join(x, y) == Extent(x.at, Cut(x.data, 0, y.at - x.at) + fill + y.data)
  {
    var s := Cut(x.data, 0, y.at - x.at);
    if y.at <= End(x) {
      assert s == x.data[..y.at - x.at] && s + fill == s;
    } else {
      assert s == x.data;
    }
  }

  lemma FillBytes(x: Request, y: Request)
    requires Complete(x) && x.sector <= y.sector
    ensures var a, b := ToExtent(x), ToExtent(y);
            Flat(Fill(x, y)) == Zeros(if b.at > End(a) then b.at - End(a) else 0)
  {
    assert Flat(Fill(x, y)) == if Fill(x, y) == [] then [] else Fill(x, y)[0];
  }

  lemma CombineIs(x: Request, y: Request)
    requires Complete(x) && Complete(y) && x.sector <= y.sector
    ensures Complete(Combine(x, y)) && ToExtent(Combine(x, y)) == Join(ToExtent(x), ToExtent(y))
  {
    var a, b := ToExtent(x), ToExtent(y);
    CombineBytes(x, y);
    FillBytes(x, y);
    JoinBytes(a, b, Flat(Fill(x, y)));
    assert |Join(a, b).data| == SECTOR * (y.sector + y.sectors - x.sector);
  }

  predicate StartsInOrder(rs: seq<Request>, i: nat)
    requires 0 < i < |rs|
  {
    rs[i - 1].sector <= rs[i].sector
  }

  // What qsort establishes.
  ghost predicate Ascending(rs: seq<Request>) { forall i :: 0 < i < |rs| ==> StartsInOrder(rs, i) }

  function StepTo(driver: (Request, Request) -> bool, r: seq<Request>, y: Request): seq<Request>
    requires r != [] && Last(r).sector <= y.sector
  {
    if Merges(driver, Last(r), y) then Front(r) + [Combine(Last(r), y)] else r + [y]
  }

  // The list after requests 0 to n - 1.
  function MergedTo(driver: (Request, Request) -> bool, rs: seq<Request>, n: nat): (r: seq<Request>)
    requires Ascending(rs) && 0 < n <= |rs|
    ensures 0 < |r| <= n && Last(r).sector <= rs[n - 1].sector
  {
    if n == 1 then [rs[0]] else
      var r := MergedTo(driver, rs, n - 1);
      assert StartsInOrder(rs, n - 1);
      StepTo(driver, r, rs[n - 1])
  }

  function Decisions(driver: (Request, Request) -> bool, rs: seq<Request>): (merge: seq<bool>)
    requires Ascending(rs)
    ensures |merge| == |rs|
  {
    seq(|rs|, i requires 0 <= i < |rs| => i > 0 && Merges(driver, Last(MergedTo(driver, rs, i)), rs[i]))
  }

  ghost predicate Proper(rs: seq<Request>) { forall r :: r in rs ==> Complete(r) && |r.segs| <= IOV_MAX }

  lemma ExtentsSorted(rs: seq<Request>)
    requires Ascending(rs)
    ensures Sorted(Extents(rs))
  {
    forall i | 0 < i < |rs| ensures InOrder(Extents(rs), i) {
      assert StartsInOrder(rs, i);
    }
  }

  lemma StepIs(driver: (Request, Request) -> bool, r: seq<Request>, y: Request)
    requires r != [] && Last(r).sector <= y.sector && Proper(r) && Complete(y) && |y.segs| <= IOV_MAX
    ensures Proper(StepTo(driver, r, y))
    ensures Extents(StepTo(driver, r, y)) == Step(Merges(driver, Last(r), y), Extents(r), ToExtent(y))
  {
    assert Last(r) in r;
    if Merges(driver, Last(r), y) {
      CombineIs(Last(r), y);
    }
  }

  // The vectors stay within the limit, and the list is the merged list of the writes.
  lemma {:induction false} MergedIs(driver: (Request, Request) -> bool, rs: seq<Request>, n: nat)
    requires Ascending(rs) && Proper(rs) && 0 < n <= |rs|
    ensures Proper(MergedTo(driver, rs, n)) && Sorted(Extents(rs))
    ensures Extents(MergedTo(driver, rs, n)) == Merged(Decisions(driver, rs), Extents(rs), n)
  {
    ExtentsSorted(rs);
    if n > 1 {
      var m := n - 1;
      MergedIs(driver, rs, m);
      assert StartsInOrder(rs, m) && rs[m] in rs;
      StepIs(driver, MergedTo(driver, rs, m), rs[m]);
    }
  }

  // Executing the merged requests leaves the disk the sorted requests leave, with the gaps
  // the driver takes zeroed, when no request ends before one that starts earlier.
  lemma MergeKeepsWrites(driver: (Request, Request) -> bool, rs: seq<Request>, d: seq<byte>)
    requires Ascending(rs) && Proper(rs) && rs != [] && Fits(d, Extents(rs))
    requires forall i, j :: 0 <= i < j < |rs| ==> rs[i].sector + rs[i].sectors <= rs[j].sector + rs[j].sectors
    ensures var merge, xs := Decisions(driver, rs), Extents(rs);
            && Plan(merge, xs) && Fits(d, Extents(MergedTo(driver, rs, |rs|))) && Fits(d, Requested(merge, xs, |rs|))
            && Exec(d, Extents(MergedTo(driver, rs, |rs|))) == Exec(d, Requested(merge, xs, |rs|))
  {
    var merge, xs := Decisions(driver, rs), Extents(rs);
    MergedIs(driver, rs, |rs|);
    forall i, j | 0 <= i < j < |xs| ensures End(xs[i]) <= End(xs[j]) {
      assert rs[i] in rs && rs[j] in rs;
    }
    EndsInOrder(merge, xs);
    MergePreserves(d, merge, xs);
  }

  // ----- which requests are merged

  // A gap that the driver does not take, or vectors that exceed the limit with one more segment.
  ghost predicate KeptApart(driver: (Request, Request) -> bool, x: Request, y: Request) {
    (x.sector + x.sectors < y.sector && !driver(x, y)) || |x.segs| + |y.segs| + 1 > IOV_MAX
  }

  // Request y starts where z does and could not be merged into x.
  ghost predicate ApartBy(driver: (Request, Request) -> bool, rs: seq<Request>, x: Request, z: Request) {
    exists i :: 0 <= i < |rs| && rs[i].sector == z.sector && KeptApart(driver, x, rs[i])
  }

  // Neighbours that are left apart had to be.
  lemma {:induction false} NeighboursApart(driver: (Request, Request) -> bool, rs: seq<Request>, n: nat, k: nat)
    requires Ascending(rs) && 0 < n <= |rs| && k + 1 < |MergedTo(driver, rs, n)|
    ensures ApartBy(driver, rs, MergedTo(driver, rs, n)[k], MergedTo(driver, rs, n)[k + 1])
  {
    if n > 1 {
      var m := n - 1;
      var r := MergedTo(driver, rs, m);
      MergedToNext(driver, rs, m, n);
      if k + 1 < |r| {
        NeighboursApart(driver, rs, m, k);
        var i :| 0 <= i < |rs| && rs[i].sector == r[k + 1].sector && KeptApart(driver, r[k], rs[i]);
        assert MergedTo(driver, rs, n)[k] == r[k];
      } else {
        assert KeptApart(driver, Last(r), rs[m]);
      }
    }
  }

  function SegmentTotal(rs: seq<Request>, n: nat): nat
    requires n <= |rs|
  {
    if n == 0 then 0 else SegmentTotal(rs, n - 1) + |rs[n - 1].segs|
  }

  lemma {:induction false} TotalGrows(rs: seq<Request>, n: nat, m: nat)
    requires n <= m <= |rs|
    ensures SegmentTotal(rs, n) <= SegmentTotal(rs, m)
  {
    if n < m {
      TotalGrows(rs, n, m - 1);
    }
  }

  // A request that touches or overlaps the one it is combined with adds no segment.
  lemma CombineTouching(x: Request, y: Request)
    requires Complete(x) && Complete(y) && x.sector <= y.sector <= x.sector + x.sectors
    ensures |Combine(x, y).segs| <= |x.segs| + |y.segs| && Complete(Combine(x, y))
    ensures Combine(x, y).sector == x.sector && Combine(x, y).sector + Combine(x, y).sectors == y.sector + y.sectors
  {
    CombineEnds(x, y);
  }

  lemma TouchingStep(driver: (Request, Request) -> bool, r: seq<Request>, x: Request, y: Request)
    requires r == [x] && Complete(x) && Complete(y) && x.sector <= y.sector <= x.sector + x.sectors
    requires |x.segs| + |y.segs| + 1 <= IOV_MAX
    ensures StepTo(driver, r, y) == [Combine(x, y)]
  {
    assert Front(r) == [];
  }

  // Requests of which each starts where the one before ends, or earlier, come out as one if
  // their segments are few enough.
  lemma {:induction false} TouchingMerge(driver: (Request, Request) -> bool, rs: seq<Request>, n: nat)
    requires Ascending(rs) && Proper(rs) && 0 < n <= |rs| && SegmentTotal(rs, |rs|) + 1 <= IOV_MAX
    requires forall i :: 0 < i < |rs| ==> rs[i].sector <= rs[i - 1].sector + rs[i - 1].sectors
    ensures var r := MergedTo(driver, rs, n);
            && |r| == 1 && Complete(r[0]) && r[0].sector == rs[0].sector && |r[0].segs| <= SegmentTotal(rs, n)
            && r[0].sector + r[0].sectors == rs[n - 1].sector + rs[n - 1].sectors
  {
    assert rs[n - 1] in rs;
    if n > 1 {
      var m := n - 1;
      TouchingMerge(driver, rs, m);
      var r := MergedTo(driver, rs, m);
      MergedToNext(driver, rs, m, n);
      TotalGrows(rs, n, |rs|);
      TouchingStep(driver, r, r[0], rs[m]);
      CombineTouching(r[0], rs[m]);
    }
  }

  lemma CombineEnds(x: Request, y: Request)
    requires Complete(x) && Complete(y) && x.sector <= y.sector
    ensures Complete(Combine(x, y)) && Combine(x, y).sector + Combine(x, y).sectors == y.sector + y.sectors
  {
    CombineIs(x, y);
    var z := Combine(x, y);
    assert End(ToExtent(z)) == End(ToExtent(y));
    assert SECTOR * (z.sector + z.sectors) == SECTOR * (y.sector + y.sectors);
  }

  // The last request left ends where the last one handled does.
  lemma {:induction false} LastEnds(driver: (Request, Request) -> bool, rs: seq<Request>, n: nat)
    requires Ascending(rs) && Proper(rs) && 0 < n <= |rs|
    ensures var last := Last(MergedTo(driver, rs, n));
            Complete(last) && last.sector + last.sectors == rs[n - 1].sector + rs[n - 1].sectors
  {
    assert rs[n - 1] in rs;
    if n > 1 {
      var m := n - 1;
      LastEnds(driver, rs, m);
      MergedToNext(driver, rs, m, n);
      CombineEnds(Last(MergedTo(driver, rs, m)), rs[m]);
    }
  }

  lemma NoGapAt(driver: (Request, Request) -> bool, rs: seq<Request>, m: nat)
    requires Ascending(rs) && Proper(rs) && 0 < m < |rs| && Sorted(Extents(rs)) && forall x, y :: !driver(x, y)
    ensures Gap(Decisions(driver, rs), Extents(rs), m) == []
  {
    LastEnds(driver, rs, m);
    assert rs[m - 1] in rs;
    var x, y := rs[m - 1], rs[m];
    assert Extents(rs)[m - 1] == ToExtent(x) && Extents(rs)[m] == ToExtent(y);
    if Decisions(driver, rs)[m] {
      assert y.sector <= x.sector + x.sectors;
      assert SECTOR * y.sector <= SECTOR * (x.sector + x.sectors);
    }
  }

  // Under a driver that takes no gap nothing but the requests is written.
  lemma NoGapTaken(driver: (Request, Request) -> bool, rs: seq<Request>)
    requires Ascending(rs) && Proper(rs) && rs != [] && forall x, y :: !driver(x, y)
    ensures Sorted(Extents(rs)) && Requested(Decisions(driver, rs), Extents(rs), |rs|) == Extents(rs)
  {
    ExtentsSorted(rs);
    var merge, xs := Decisions(driver, rs), Extents(rs);
    forall i | 0 < i < |xs| ensures Gap(merge, xs, i) == [] {
      NoGapAt(driver, rs, i);
    }
    NoGaps(merge, xs, |xs|);
    assert xs[..|xs|] == xs;
  }

  // ----- the code

  datatype BlockRequest = BlockRequest(sector: nat, sectors: nat, qiov: Vector)

  ghost function View(r: BlockRequest): Request
    reads r.qiov
  {
    Request(r.sector, r.sectors, r.qiov.iov)
  }

  method CombineVectors(x: BlockRequest, y: BlockRequest) returns (z: BlockRequest)
    requires x.qiov.Valid() && y.qiov.Valid() && x.sector <= y.sector
    ensures fresh(z.qiov) && z.qiov.Valid() && View(z) == Combine(View(x), View(y))
  {
    var qiov := new Vector(|x.qiov.iov| + |y.qiov.iov| + 1);
    qiov.Copy(x.qiov, 0, SECTOR * (y.sector - x.sector));
    ghost var a := qiov.iov;
    assert a == Copied(x.qiov.iov, 0, SECTOR * (y.sector - x.sector));
    var last := x.sector + x.sectors;
    if y.sector > last {
      qiov.Add(Zeros(SECTOR * (y.sector - last)));
    }
    assert qiov.iov == a + Fill(View(x), View(y));
    qiov.Copy(y.qiov, 0, y.qiov.size);
    z := BlockRequest(x.sector, qiov.size / SECTOR, qiov);
  }

  method Wants(driver: (Request, Request) -> bool, x: BlockRequest, y: BlockRequest) returns (merge: bool)
    ensures merge == Merges(driver, View(x), View(y))
  {
    merge := y.sector <= x.sector + x.sectors;
    if !merge {
      merge := driver(Request(x.sector, x.sectors, x.qiov.iov), Request(y.sector, y.sectors, y.qiov.iov));
    }
    if |x.qiov.iov| + |y.qiov.iov| + 1 > IOV_MAX {
      merge := false;
    }
  }

  lemma MergedToNext(driver: (Request, Request) -> bool, rs: seq<Request>, m: nat, n: nat)
    requires Ascending(rs) && 0 < m < n == m + 1 <= |rs|
    ensures Last(MergedTo(driver, rs, m)).sector <= rs[m].sector
    ensures MergedTo(driver, rs, n) == StepTo(driver, MergedTo(driver, rs, m), rs[m])
  {
    assert StartsInOrder(rs, m);
  }

  ghost predicate Holds(r: BlockRequest, v: Request)
    reads r.qiov
  {
    r.qiov.Valid() && View(r) == v
  }

  // Request i joins those already done in places 0 to outidx.
  method MergeStep(driver: (Request, Request) -> bool, reqs: array<BlockRequest>, outidx: nat, i: nat,
                   ghost done: seq<Request>, ghost y: Request)
    returns (o: nat, ghost done': seq<Request>)
    requires outidx < i < reqs.Length && |done| == outidx + 1 && Last(done).sector <= y.sector
    requires (forall k :: 0 <= k <= outidx ==> Holds(reqs[k], done[k])) && Holds(reqs[i], y)
    modifies reqs
    ensures o <= i && |done'| == o + 1 && done' == StepTo(driver, done, y)
    ensures forall k :: 0 <= k <= o ==> Holds(reqs[k], done'[k])
    ensures forall k :: i < k < reqs.Length ==> reqs[k] == old(reqs[k])
  {
    var p, q := reqs[outidx], reqs[i];
    assert Holds(p, Last(done));
    var merge := Wants(driver, p, q);
    if merge {
      var z := CombineVectors(p, q);
      o := outidx;
      reqs[o] := z;
    } else {
      o := outidx + 1;
      reqs[o] := q;
    }
    done' := StepTo(driver, done, y);
  }

  method MergeOne(driver: (Request, Request) -> bool, reqs: array<BlockRequest>, outidx: nat, i: nat,
                  ghost rs: seq<Request>, ghost n: nat, ghost done: seq<Request>)
    returns (o: nat, ghost done': seq<Request>)
    requires Ascending(rs) && 0 < i < n == i + 1 <= |rs| == reqs.Length
    requires outidx < i && |done| == outidx + 1 && done == MergedTo(driver, rs, i)
    requires (forall k :: 0 <= k <= outidx ==> Holds(reqs[k], done[k])) && Holds(reqs[i], rs[i])
    modifies reqs
    ensures o <= i && |done'| == o + 1 && done' == MergedTo(driver, rs, n)
    ensures forall k :: 0 <= k <= o ==> Holds(reqs[k], done'[k])
    ensures forall k :: i < k < reqs.Length ==> reqs[k] == old(reqs[k])
  {
    MergedToNext(driver, rs, i, n);
    o, done' := MergeStep(driver, reqs, outidx, i, done, rs[i]);
  }

  method Merge(driver: (Request, Request) -> bool, reqs: array<BlockRequest>, ghost rs: seq<Request>)
    returns (count: nat)
    requires 0 < reqs.Length == |rs| && Ascending(rs)
    requires forall k :: 0 <= k < reqs.Length ==> Holds(reqs[k], rs[k])
    modifies reqs
    ensures count == |MergedTo(driver, rs, |rs|)| <= reqs.Length
    ensures forall k :: 0 <= k < count ==> Holds(reqs[k], MergedTo(driver, rs, |rs|)[k])
  {
    var outidx, i := 0, 1;
    ghost var done := [rs[0]];
    while i < reqs.Length
      invariant 0 < i <= reqs.Length && 0 <= outidx < i
      invariant done == MergedTo(driver, rs, i) && |done| == outidx + 1
      invariant forall k :: 0 <= k <= outidx ==> Holds(reqs[k], done[k])
      invariant forall k :: i <= k < reqs.Length ==> reqs[k] == old(reqs[k])
    {
      var n := i + 1;
      outidx, done := MergeOne(driver, reqs, outidx, i, rs, n, done);
      i := n;
    }
    count := outidx + 1;
  }
}
