/** Live block migration as a two-party protocol: what may happen on the source,
    in flight and on the destination, in any order, and what every run keeps.

    A chunk travels pending -> queue -> wire -> destination disk.  Guest writes
    come in two phases: the data lands on the image, and only when the request
    completes are the chunks it touched marked dirty.  Reads of a chunk are not
    atomic: sectors are filled in one by one between submission and completion. */
module BlockProtocol {
  import opened Disk
  import opened Options

  datatype Loc = Loc(dev: nat, chunk: nat)

  datatype Write = Write(dev: nat, at: nat, count: nat)

  // A copy of one chunk on its way; got says which sectors of buf have been read.
  datatype Blk = Blk(loc: Loc, buf: Disk, got: seq<bool>)

  datatype State = State(
    src: seq<Disk>,          // the source's devices
    dst: seq<Disk>,          // the destination's devices
    dirty: set<Loc>,         // chunks whose dirty bit is set
    unmarked: seq<Write>,    // landed guest writes that have not set their dirty bits yet
    bulk: seq<nat>,          // per device, the number of chunks submitted by the bulk phase
    pending: seq<Blk>,       // submitted reads, in submission order
    queue: seq<Blk>,         // blk_list: completed reads waiting to be sent
    wire: seq<Blk>)          // sent and not yet loaded
  {
    // Everything in flight, in the order in which the destination will see it.
    function Pipe(): seq<Blk> {
      wire + queue + pending
    }
  }

  ghost predicate ValidLoc(disks: seq<Disk>, l: Loc) {
    l.dev < |disks| && l.chunk < Chunks(|disks[l.dev]|)
  }

  ghost function At(disks: seq<Disk>, l: Loc): Disk
    requires ValidLoc(disks, l)
  {
    Chunk(disks[l.dev], l.chunk)
  }

  ghost predicate WriteTouches(w: Write, l: Loc) {
    w.dev == l.dev && Touches(w.at, w.count, l.chunk)
  }

  ghost predicate ValidWrite(disks: seq<Disk>, w: Write) {
    w.dev < |disks| && w.at + w.count <= |disks[w.dev]|
  }

  ghost predicate ValidBlk(disks: seq<Disk>, b: Blk) {
    ValidLoc(disks, b.loc) && |b.buf| == |At(disks, b.loc)| == |b.got|
  }

  ghost predicate Full(b: Blk) {
    forall k :: 0 <= k < |b.got| ==> b.got[k]
  }

  ghost predicate SameLayout(a: seq<Disk>, b: seq<Disk>) {
    |a| == |b| && forall d :: 0 <= d < |a| ==> |a[d]| == |b[d]|
  }

  ghost predicate WellFormed(st: State) {
    && SameLayout(st.src, st.dst)
    && |st.bulk| == |st.src|
    && (forall d :: 0 <= d < |st.src| ==> st.bulk[d] <= Chunks(|st.src[d]|))
    && (forall l :: l in st.dirty ==> ValidLoc(st.src, l))
    && (forall w :: w in st.unmarked ==> ValidWrite(st.src, w))
    && (forall b :: b in st.Pipe() ==> ValidBlk(st.src, b))
    && (forall b :: b in st.queue ==> Full(b))
    && (forall b :: b in st.wire ==> Full(b))
  }

  // The last copy of l in the sequence: the one the destination ends up with.
  function Newest(p: seq<Blk>, l: Loc): (r: Option<Blk>)
    ensures r.Some? ==> r.value.loc == l && r.value in p
    ensures r.None? ==> forall b :: b in p ==> b.loc != l
  {
    if p == [] then None
    else if p[|p| - 1].loc == l then Some(p[|p| - 1])
    else Newest(p[..|p| - 1], l)
  }

  // The sectors read so far are the sectors the source holds now.
  ghost predicate Fresh(disks: seq<Disk>, b: Blk)
    requires ValidBlk(disks, b)
  {
    forall k :: 0 <= k < |b.got| && b.got[k] ==> b.buf[k] == At(disks, b.loc)[k]
  }

  ghost predicate Current(st: State, l: Loc)
    requires WellFormed(st) && ValidLoc(st.src, l)
  {
    match Newest(st.Pipe(), l)
    case Some(b) => Fresh(st.src, b)
    case None => At(st.dst, l) == At(st.src, l)
  }

  // Why a chunk cannot be lost: it has yet to be read by the bulk phase, or will be
  // resent, or a guest request will mark it, or what the destination gets is current.
  ghost predicate Safe(st: State, l: Loc)
    requires WellFormed(st) && ValidLoc(st.src, l)
  {
    || st.bulk[l.dev] <= l.chunk
    || l in st.dirty
    || (exists w :: w in st.unmarked && WriteTouches(w, l))
    || Current(st, l)
  }

  ghost predicate Inv(st: State) {
    && WellFormed(st)
    && forall l :: ValidLoc(st.src, l) ==> Safe(st, l)
  }

  // ----- steps

  datatype Step =
    | Land(dev: nat, at: nat, data: Disk)   // guest data reaches the image
    | Mark(i: nat)                          // a guest request completes and sets its dirty bits
    | BulkRead(dev: nat)                    // mig_save_device_bulk
    | DirtyRead(loc: Loc)                   // mig_save_device_dirty, asynchronous
    | Fill(i: nat, k: nat)                  // a pending read copies one sector
    | Done(i: nat)                          // blk_mig_read_cb
    | Send                                  // flush_blks, one block
    | SendNow(loc: Loc)                     // mig_save_device_dirty, synchronous
    | Load                                  // block_load, one block

  function DirtyLocs(w: Write): set<Loc>
  {
    if w.count == 0 then {}
    else set c | w.at / CHUNK <= c <= (w.at + w.count - 1) / CHUNK :: Loc(w.dev, c)
  }

  ghost function BlankRead(disks: seq<Disk>, l: Loc): Blk
    requires ValidLoc(disks, l)
  {
    Blk(l, seq(|At(disks, l)|, _ => 0), seq(|At(disks, l)|, _ => false))
  }

  ghost function SyncRead(disks: seq<Disk>, l: Loc): Blk
    requires ValidLoc(disks, l)
  {
    Blk(l, At(disks, l), seq(|At(disks, l)|, _ => true))
  }

  // No earlier submitted read of the same chunk is still pending.
  ghost predicate InOrder(pending: seq<Blk>, i: nat)
    requires i < |pending|
  {
    forall j :: 0 <= j < i ==> pending[j].loc != pending[i].loc
  }

  ghost function Store(disks: seq<Disk>, b: Blk): (r: seq<Disk>)
    requires ValidBlk(disks, b)
    ensures SameLayout(r, disks)
    ensures forall l :: ValidLoc(disks, l) ==> At(r, l) == if l == b.loc then b.buf else At(disks, l)
  {
    OverwriteAllChunks(disks[b.loc.dev], b.loc.chunk, b.buf);
    disks[b.loc.dev := Overwrite(disks[b.loc.dev], Lo(b.loc.chunk), b.buf)]
  }

  lemma OverwriteAllChunks(d: Disk, c: nat, data: Disk)
    requires c < Chunks(|d|) && |data| == |Chunk(d, c)|
    ensures Lo(c) + |data| <= |d|
    ensures forall c' :: 0 <= c' < Chunks(|d|) ==>
              Chunk(Overwrite(d, Lo(c), data), c') == if c' == c then data else Chunk(d, c')
  {
    forall c' | 0 <= c' < Chunks(|d|)
      ensures Chunk(Overwrite(d, Lo(c), data), c') == if c' == c then data else Chunk(d, c')
    {
      OverwriteChunk(d, c, data, c');
    }
  }

  // Each step: when it may happen and what it changes.

  ghost predicate Lands(st: State, dev: nat, at: nat, data: Disk, st': State) {
    && dev < |st.src| && at + |data| <= |st.src[dev]|
    && st' == st.(src := st.src[dev := Overwrite(st.src[dev], at, data)],
                  unmarked := st.unmarked + [Write(dev, at, |data|)])
  }

  ghost predicate Marks(st: State, i: nat, st': State) {
    && i < |st.unmarked|
    && st' == st.(dirty := st.dirty + DirtyLocs(st.unmarked[i]),
                  unmarked := st.unmarked[..i] + st.unmarked[i + 1..])
  }

  ghost predicate BulkReads(st: State, dev: nat, st': State) {
    && dev < |st.src| && dev < |st.bulk| && st.bulk[dev] < Chunks(|st.src[dev]|)
    && var l := Loc(dev, st.bulk[dev]);
       st' == st.(pending := st.pending + [BlankRead(st.src, l)],
                  dirty := st.dirty - {l},
                  bulk := st.bulk[dev := st.bulk[dev] + 1])
  }

  ghost predicate DirtyReads(st: State, l: Loc, st': State) {
    && l in st.dirty && ValidLoc(st.src, l)
    && st' == st.(pending := st.pending + [BlankRead(st.src, l)], dirty := st.dirty - {l})
  }

  ghost predicate Fills(st: State, i: nat, k: nat, st': State) {
    && i < |st.pending| && ValidBlk(st.src, st.pending[i]) && k < |st.pending[i].buf|
    && var b := st.pending[i];
       st' == st.(pending := st.pending[i := b.(buf := b.buf[k := At(st.src, b.loc)[k]], got := b.got[k := true])])
  }

  // ordered says whether reads of one chunk are required to complete in submission order.
  ghost predicate Completes(st: State, i: nat, ordered: bool, st': State) {
    && i < |st.pending| && Full(st.pending[i]) && (ordered ==> InOrder(st.pending, i))
    && st' == st.(queue := st.queue + [st.pending[i]], pending := st.pending[..i] + st.pending[i + 1..])
  }

  ghost predicate Sends(st: State, st': State) {
    && st.queue != []
    && st' == st.(wire := st.wire + [st.queue[0]], queue := st.queue[1..])
  }

  ghost predicate SendsNow(st: State, l: Loc, st': State) {
    && l in st.dirty && ValidLoc(st.src, l)
    && st' == st.(wire := st.wire + [SyncRead(st.src, l)], dirty := st.dirty - {l})
  }

  ghost predicate Loads(st: State, st': State) {
    && st.wire != [] && ValidBlk(st.dst, st.wire[0])
    && st' == st.(dst := Store(st.dst, st.wire[0]), wire := st.wire[1..])
  }

  ghost predicate Move(st: State, s: Step, st': State, ordered: bool) {
    match s
    case Land(dev, at, data) => Lands(st, dev, at, data, st')
    case Mark(i) => Marks(st, i, st')
    case BulkRead(dev) => BulkReads(st, dev, st')
    case DirtyRead(l) => DirtyReads(st, l, st')
    case Fill(i, k) => Fills(st, i, k, st')
    case Done(i) => Completes(st, i, ordered, st')
    case Send => Sends(st, st')
    case SendNow(l) => Newest(st.queue + st.pending, l).None? && SendsNow(st, l, st')
    case Load => Loads(st, st')
  }

  // The states of a run and the steps between them.
  ghost predicate Run(states: seq<State>, steps: seq<Step>, ordered: bool) {
    && |states| == |steps| + 1
    && forall i :: 0 <= i < |steps| ==> Move(states[i], steps[i], states[i + 1], ordered)
  }

  // Migration has just started: nothing read, sent or tracked yet.
  ghost predicate Init(st: State) {
    && SameLayout(st.src, st.dst)
    && st.bulk == seq(|st.src|, _ => 0)
    && st.dirty == {} && st.unmarked == []
    && st.pending == [] && st.queue == [] && st.wire == []
  }

  // Everything read and sent, nothing left to mark, and the stream loaded.
  ghost predicate Finished(st: State) {
    && |st.bulk| == |st.src|
    && (forall d :: 0 <= d < |st.src| ==> st.bulk[d] == Chunks(|st.src[d]|))
    && st.dirty == {} && st.unmarked == []
    && st.pending == [] && st.queue == [] && st.wire == []
  }

  // ----- the newest copy, under the ways the pipeline changes

  lemma {:induction false} NewestConcat(p: seq<Blk>, q: seq<Blk>, l: Loc)
    ensures Newest(p + q, l) == if Newest(q, l).Some? then Newest(q, l) else Newest(p, l)
    decreases |q|
  {
    if q == [] {
      assert p + q == p;
    } else {
      assert (p + q)[..|p + q| - 1] == p + q[..|q| - 1];
      NewestConcat(p, q[..|q| - 1], l);
    }
  }

  lemma NewestSingle(b: Blk, l: Loc)
    ensures Newest([b], l) == if b.loc == l then Some(b) else None
  {
    assert [b][..0] == [];
  }

  // Element i replaced by another copy of the same chunk.
  lemma NewestReplace(p: seq<Blk>, i: nat, b: Blk, l: Loc)
    requires i < |p| && b.loc == p[i].loc
    ensures Newest(p[i := b], l) == Newest(p, l)
         || (l == b.loc && Newest(p, l) == Some(p[i]) && Newest(p[i := b], l) == Some(b))
  {
    assert p == p[..i] + [p[i]] + p[i + 1..];
    assert p[i := b] == p[..i] + [b] + p[i + 1..];
    NewestConcat(p[..i] + [p[i]], p[i + 1..], l);
    NewestConcat(p[..i] + [b], p[i + 1..], l);
    NewestConcat(p[..i], [p[i]], l);
    NewestConcat(p[..i], [b], l);
    NewestSingle(p[i], l);
    NewestSingle(b, l);
  }

  // A completion overtakes only reads of other chunks.
  lemma NewestOvertake(a: seq<Blk>, p: seq<Blk>, i: nat, l: Loc)
    requires i < |p| && InOrder(p, i)
    ensures Newest(a + [p[i]] + (p[..i] + p[i + 1..]), l) == Newest(a + p, l)
  {
    assert p == p[..i] + [p[i]] + p[i + 1..];
    NewestConcat(a + [p[i]], p[..i] + p[i + 1..], l);
    NewestConcat(a, [p[i]], l);
    NewestConcat(p[..i], p[i + 1..], l);
    NewestConcat(a, p, l);
    NewestConcat(p[..i] + [p[i]], p[i + 1..], l);
    NewestConcat(p[..i], [p[i]], l);
    NewestSingle(p[i], l);
    if l == p[i].loc {
      assert forall b :: b in p[..i] ==> b.loc != l;
    }
  }

  // ----- every step keeps the invariant

  // Where only the contents of chunks change, a copy that was valid stays valid.
  lemma LayoutKeepsBlk(a: seq<Disk>, b: seq<Disk>, x: Blk)
    requires SameLayout(a, b) && ValidBlk(a, x)
    ensures ValidBlk(b, x)
  {
    assert |Chunk(a[x.loc.dev], x.loc.chunk)| == |Chunk(b[x.loc.dev], x.loc.chunk)|;
  }

  lemma LandKeeps(st: State, dev: nat, at: nat, data: Disk, st': State)
    requires Inv(st) && Lands(st, dev, at, data, st')
    ensures Inv(st')
  {
    var w := Write(dev, at, |data|);
    assert st'.unmarked[|st.unmarked|] == w;
    assert SameLayout(st.src, st'.src);
    assert st'.Pipe() == st.Pipe();
    forall b | b in st'.Pipe() ensures ValidBlk(st'.src, b) { LayoutKeepsBlk(st.src, st'.src, b); }
    forall l | ValidLoc(st.src, l) && !WriteTouches(w, l)
      ensures At(st'.src, l) == At(st.src, l)
    {
      if l.dev == dev {
        OverwriteElsewhere(st.src[dev], at, data, l.chunk);
      }
    }
    forall l | ValidLoc(st'.src, l)
      ensures Safe(st', l)
    {
      assert Safe(st, l);
      if exists v :: v in st.unmarked && WriteTouches(v, l) {
        var v :| v in st.unmarked && WriteTouches(v, l);
        assert v in st'.unmarked;
      }
    }
  }

  lemma DirtyLocsTouched(w: Write, l: Loc)
    ensures l in DirtyLocs(w) <==> WriteTouches(w, l)
  {
  }

  lemma DirtyLocsValid(disks: seq<Disk>, w: Write, l: Loc)
    requires ValidWrite(disks, w) && l in DirtyLocs(w)
    ensures ValidLoc(disks, l)
  {
    DirtyLocsTouched(w, l);
  }

  lemma MarkKeeps(st: State, i: nat, st': State)
    requires Inv(st) && Marks(st, i, st')
    ensures Inv(st')
  {
    var w := st.unmarked[i];
    assert st'.Pipe() == st.Pipe();
    assert ValidWrite(st.src, w);
    forall l | l in DirtyLocs(w) ensures ValidLoc(st.src, l) { DirtyLocsValid(st.src, w, l); }
    forall l | ValidLoc(st'.src, l)
      ensures Safe(st', l)
    {
      assert Safe(st, l);
      DirtyLocsTouched(w, l);
      if exists v :: v in st.unmarked && WriteTouches(v, l) {
        var k :| 0 <= k < |st.unmarked| && WriteTouches(st.unmarked[k], l);
        if k != i {
          assert st'.unmarked[if k < i then k else k - 1] == st.unmarked[k];
        }
      }
    }
  }

  // A submitted read becomes the newest copy of its chunk and has read nothing yet.
  lemma SubmitCurrent(st: State, st': State, loc: Loc, l: Loc)
    requires WellFormed(st) && WellFormed(st') && ValidLoc(st.src, loc) && ValidLoc(st.src, l)
    requires st'.src == st.src && st'.dst == st.dst
    requires st'.Pipe() == st.Pipe() + [BlankRead(st.src, loc)]
    ensures l == loc || Current(st, l) ==> Current(st', l)
  {
    var b := BlankRead(st.src, loc);
    NewestConcat(st.Pipe(), [b], l);
    NewestSingle(b, l);
  }

  lemma SubmitWellFormed(st: State, loc: Loc, bulk: seq<nat>)
    requires WellFormed(st) && ValidLoc(st.src, loc) && |bulk| == |st.src|
    requires forall d :: 0 <= d < |st.src| ==> bulk[d] <= Chunks(|st.src[d]|)
    ensures var b := BlankRead(st.src, loc);
            var st' := st.(pending := st.pending + [b], dirty := st.dirty - {loc}, bulk := bulk);
            WellFormed(st') && st'.Pipe() == st.Pipe() + [b]
  {
    var b := BlankRead(st.src, loc);
    var st' := st.(pending := st.pending + [b], dirty := st.dirty - {loc}, bulk := bulk);
    assert st'.Pipe() == st.Pipe() + [b];
    forall x | x in st'.Pipe() ensures ValidBlk(st.src, x) {
      assert x in st.Pipe() || x == b;
    }
  }

  lemma BulkReadKeeps(st: State, dev: nat, st': State)
    requires Inv(st) && BulkReads(st, dev, st')
    ensures Inv(st')
  {
    var loc := Loc(dev, st.bulk[dev]);
    SubmitWellFormed(st, loc, st'.bulk);
    forall l | ValidLoc(st'.src, l)
      ensures Safe(st', l)
    {
      assert Safe(st, l);
      SubmitCurrent(st, st', loc, l);
    }
  }

  lemma DirtyReadKeeps(st: State, loc: Loc, st': State)
    requires Inv(st) && DirtyReads(st, loc, st')
    ensures Inv(st')
  {
    SubmitWellFormed(st, loc, st.bulk);
    forall l | ValidLoc(st'.src, l)
      ensures Safe(st', l)
    {
      assert Safe(st, l);
      SubmitCurrent(st, st', loc, l);
    }
  }

  lemma FillKeeps(st: State, i: nat, k: nat, st': State)
    requires Inv(st) && Fills(st, i, k, st')
    ensures Inv(st')
  {
    var n := |st.wire| + |st.queue| + i;
    var b := st'.pending[i];
    assert st.Pipe()[n] == st.pending[i];
    assert st'.Pipe() == st.Pipe()[n := b];
    forall l | ValidLoc(st'.src, l)
      ensures Safe(st', l)
    {
      assert Safe(st, l);
      NewestReplace(st.Pipe(), n, b, l);
    }
  }

  lemma CompleteKeeps(st: State, i: nat, st': State)
    requires Inv(st) && Completes(st, i, true, st')
    ensures Inv(st')
  {
    var a := st.wire + st.queue;
    var p := st.pending;
    assert st'.Pipe() == a + [p[i]] + (p[..i] + p[i + 1..]);
    assert st.Pipe() == a + p;
    forall b | b in st'.Pipe() ensures b in st.Pipe() { }
    forall l | ValidLoc(st'.src, l)
      ensures Safe(st', l)
    {
      assert Safe(st, l);
      NewestOvertake(a, p, i, l);
    }
  }

  // What a read that completes ahead of others must find: its chunk is going to be sent
  // again, or the newest of the reads left behind agrees with the source so far.
  ghost predicate Harmless(st: State, i: nat)
  {
    && WellFormed(st) && i < |st.pending|
    && var l := st.pending[i].loc;
       var behind := Newest(st.pending[..i] + st.pending[i + 1..], l);
       && ValidLoc(st.src, l)
       && (|| st.bulk[l.dev] <= l.chunk
           || l in st.dirty
           || (exists w :: w in st.unmarked && WriteTouches(w, l))
           || behind.None?
           || (ValidBlk(st.src, behind.value) && Fresh(st.src, behind.value)))
  }

  lemma CompleteWellFormed(st: State, i: nat, st': State)
    requires WellFormed(st) && Completes(st, i, false, st')
    ensures WellFormed(st')
  {
    forall b | b in st'.Pipe() ensures b in st.Pipe() { }
  }

  // The newest copy of each chunk after the read with index i has moved ahead of p.
  lemma NewestAhead(a: seq<Blk>, p: seq<Blk>, i: nat, l: Loc)
    requires i < |p|
    ensures var rest := Newest(p[..i] + p[i + 1..], l);
            Newest(a + [p[i]] + (p[..i] + p[i + 1..]), l) ==
              if rest.Some? then rest
              else if p[i].loc == l then Some(p[i])
              else Newest(a, l)
    ensures l != p[i].loc || Newest(p[..i] + p[i + 1..], l).None? ==>
              Newest(a + [p[i]] + (p[..i] + p[i + 1..]), l) == Newest(a + p, l)
  {
    assert p == p[..i] + [p[i]] + p[i + 1..];
    NewestConcat(a + [p[i]], p[..i] + p[i + 1..], l);
    NewestConcat(a, [p[i]], l);
    NewestConcat(p[..i], p[i + 1..], l);
    NewestConcat(a, p, l);
    NewestConcat(p[..i] + [p[i]], p[i + 1..], l);
    NewestConcat(p[..i], [p[i]], l);
    NewestSingle(p[i], l);
  }

  // A completion in any order keeps the invariant if and only if it is harmless.
  lemma CompleteExact(st: State, i: nat, st': State)
    requires Inv(st) && Completes(st, i, false, st')
    ensures Inv(st') <==> Harmless(st, i)
  {
    var a := st.wire + st.queue;
    var p := st.pending;
    var loc := p[i].loc;
    assert st'.Pipe() == a + [p[i]] + (p[..i] + p[i + 1..]);
    assert st.Pipe() == a + p;
    assert p[i] in st.Pipe();
    CompleteWellFormed(st, i, st');
    forall l | ValidLoc(st.src, l) && l != loc ensures Safe(st', l) {
      assert Safe(st, l);
      NewestAhead(a, p, i, l);
    }
    assert Safe(st, loc);
    NewestAhead(a, p, i, loc);
    var behind := Newest(p[..i] + p[i + 1..], loc);
    if behind.Some? {
      assert behind.value in st'.Pipe();
    }
    assert Safe(st', loc) <==> Harmless(st, i);
  }

  lemma SendKeeps(st: State, st': State)
    requires Inv(st) && Sends(st, st')
    ensures Inv(st')
  {
    assert st.queue == [st.queue[0]] + st.queue[1..];
    assert st'.Pipe() == st.Pipe();
    forall l | ValidLoc(st'.src, l)
      ensures Safe(st', l)
    {
      assert Safe(st, l);
    }
  }

  lemma SendNowWellFormed(st: State, loc: Loc, st': State)
    requires WellFormed(st) && SendsNow(st, loc, st')
    ensures WellFormed(st')
    ensures st'.Pipe() == st.wire + [SyncRead(st.src, loc)] + (st.queue + st.pending)
  {
    var b := SyncRead(st.src, loc);
    assert st'.Pipe() == st.wire + [b] + (st.queue + st.pending);
    forall x | x in st'.Pipe() ensures ValidBlk(st.src, x) {
      assert x in st.Pipe() || x == b;
    }
  }

  lemma SendNowKeeps(st: State, loc: Loc, st': State)
    requires Inv(st) && Newest(st.queue + st.pending, loc).None? && SendsNow(st, loc, st')
    ensures Inv(st')
  {
    var b := SyncRead(st.src, loc);
    var rest := st.queue + st.pending;
    SendNowWellFormed(st, loc, st');
    assert st.Pipe() == st.wire + rest;
    forall l | ValidLoc(st'.src, l)
      ensures Safe(st', l)
    {
      assert Safe(st, l);
      NewestConcat(st.wire, rest, l);
      NewestConcat(st.wire + [b], rest, l);
      NewestConcat(st.wire, [b], l);
      NewestSingle(b, l);
    }
  }

  lemma LoadKeeps(st: State, st': State)
    requires Inv(st) && Loads(st, st')
    ensures Inv(st')
  {
    var b := st.wire[0];
    assert st.wire == [b] + st.wire[1..];
    assert st.Pipe() == [b] + st'.Pipe();
    forall l | ValidLoc(st'.src, l)
      ensures Safe(st', l)
    {
      assert Safe(st, l);
      NewestConcat([b], st'.Pipe(), l);
      NewestSingle(b, l);
    }
  }

  lemma StepKeeps(st: State, s: Step, st': State)
    requires Inv(st) && Move(st, s, st', true)
    ensures Inv(st')
  {
    match s
    case Land(dev, at, data) => LandKeeps(st, dev, at, data, st');
    case Mark(i) => MarkKeeps(st, i, st');
    case BulkRead(dev) => BulkReadKeeps(st, dev, st');
    case DirtyRead(l) => DirtyReadKeeps(st, l, st');
    case Fill(i, k) => FillKeeps(st, i, k, st');
    case Done(i) => CompleteKeeps(st, i, st');
    case Send => SendKeeps(st, st');
    case SendNow(l) => SendNowKeeps(st, l, st');
    case Load => LoadKeeps(st, st');
  }

  lemma {:induction false} RunKeeps(states: seq<State>, steps: seq<Step>, n: nat)
    requires Run(states, steps, true) && Inv(states[0]) && n <= |steps|
    ensures Inv(states[n])
  {
    if n > 0 {
      RunKeeps(states, steps, n - 1);
      assert Move(states[n - 1], steps[n - 1], states[n - 1 + 1], true);
      StepKeeps(states[n - 1], steps[n - 1], states[n]);
    }
  }

  // A run in which reads complete in any order is safe throughout if and only if each
  // completion was harmless when it happened.
  lemma {:induction false} UnorderedSafety(states: seq<State>, steps: seq<Step>)
    requires Run(states, steps, false) && Inv(states[0])
    ensures (forall n :: 0 <= n <= |steps| ==> Inv(states[n])) <==>
            (forall n :: 0 <= n < |steps| && steps[n].Done? ==> Harmless(states[n], steps[n].i))
  {
    if forall n :: 0 <= n < |steps| && steps[n].Done? ==> Harmless(states[n], steps[n].i) {
      forall n | 0 <= n <= |steps| ensures Inv(states[n]) {
        HarmlessKeeps(states, steps, n);
      }
    }
    if forall n :: 0 <= n <= |steps| ==> Inv(states[n]) {
      forall n | 0 <= n < |steps| && steps[n].Done? ensures Harmless(states[n], steps[n].i) {
        assert Move(states[n], steps[n], states[n + 1], false);
        CompleteExact(states[n], steps[n].i, states[n + 1]);
      }
    }
  }

  lemma {:induction false} HarmlessKeeps(states: seq<State>, steps: seq<Step>, n: nat)
    requires Run(states, steps, false) && Inv(states[0]) && n <= |steps|
    requires forall k :: 0 <= k < |steps| && steps[k].Done? ==> Harmless(states[k], steps[k].i)
    ensures Inv(states[n])
  {
    if n > 0 {
      var m: nat := n - 1;
      HarmlessKeeps(states, steps, m);
      assert Move(states[m], steps[m], states[m + 1], false);
      if steps[m].Done? {
        CompleteExact(states[m], steps[m].i, states[n]);
      } else {
        StepKeeps(states[m], steps[m], states[n]);
      }
    }
  }

  // Whatever the order of completions, a finished run whose completions were harmless has
  // the destination equal to the source.
  lemma HarmlessMigration(states: seq<State>, steps: seq<Step>)
    requires Run(states, steps, false) && Init(states[0]) && Finished(states[|steps|])
    requires forall n :: 0 <= n < |steps| && steps[n].Done? ==> Harmless(states[n], steps[n].i)
    ensures states[|steps|].dst == states[|steps|].src
  {
    assert Inv(states[0]);
    HarmlessKeeps(states, steps, |steps|);
    FinishedEqual(states[|steps|]);
  }

  // ----- reachable states

  ghost predicate Leads(states: seq<State>, steps: seq<Step>, a: State, b: State) {
    Run(states, steps, true) && states[0] == a && states[|steps|] == b
  }

  // Some run in which reads of one chunk complete in order leads from a to b.
  ghost predicate Reaches(a: State, b: State) {
    exists states, steps :: Leads(states, steps, a, b)
  }

  lemma ReachesSelf(a: State)
    ensures Reaches(a, a)
  {
    assert Leads([a], [], a, a);
  }

  lemma ReachesStep(a: State, st: State, s: Step, st': State)
    requires Reaches(a, st) && Move(st, s, st', true)
    ensures Reaches(a, st')
  {
    var states, steps :| Leads(states, steps, a, st);
    var states', steps' := states + [st'], steps + [s];
    forall i | 0 <= i < |steps'| ensures Move(states'[i], steps'[i], states'[i + 1], true) {
      if i < |steps| {
        assert Move(states[i], steps[i], states[i + 1], true);
      }
    }
    assert Leads(states', steps', a, st');
  }

  lemma ReachableSafe(a: State, st: State)
    requires Init(a) && Reaches(a, st)
    ensures Inv(st)
  {
    var states, steps :| Leads(states, steps, a, st);
    MigrationSafety(states, steps, |steps|);
  }

  // Safety of migration: in every interleaving in which reads of one chunk complete
  // in submission order, every state of a run is safe, and a finished one has the
  // destination equal to the source.
  lemma MigrationSafety(states: seq<State>, steps: seq<Step>, n: nat)
    requires Run(states, steps, true) && Init(states[0]) && n <= |steps|
    ensures Inv(states[n])
    ensures Finished(states[n]) ==> states[n].dst == states[n].src
  {
    assert Inv(states[0]);
    RunKeeps(states, steps, n);
    if Finished(states[n]) {
      FinishedEqual(states[n]);
    }
  }

  lemma FinishedEqual(st: State)
    requires Inv(st) && Finished(st)
    ensures st.dst == st.src
  {
    forall d | 0 <= d < |st.src|
      ensures st.dst[d] == st.src[d]
    {
      forall c | 0 <= c < Chunks(|st.src[d]|)
        ensures Chunk(st.dst[d], c) == Chunk(st.src[d], c)
      {
        assert Safe(st, Loc(d, c));
      }
      EqualByChunks(st.dst[d], st.src[d]);
    }
  }

  // ----- the last stage

  // The destination's disks once everything on the wire is loaded.
  ghost function StoreAll(disks: seq<Disk>, wire: seq<Blk>): (r: seq<Disk>)
    requires forall b :: b in wire ==> ValidBlk(disks, b)
    ensures SameLayout(r, disks)
    decreases |wire|
  {
    if wire == [] then disks
    else
      var r := Store(disks, wire[0]);
      assert forall b :: b in wire ==> ValidBlk(r, b) by {
        forall b | b in wire ensures ValidBlk(r, b) { LayoutKeepsBlk(disks, r, b); }
      }
      StoreAll(r, wire[1..])
  }

  // What the destination has for chunk l once everything on the wire is loaded.
  ghost function Received(disks: seq<Disk>, wire: seq<Blk>, l: Loc): Disk
    requires ValidLoc(disks, l)
  {
    match Newest(wire, l)
    case Some(b) => b.buf
    case None => At(disks, l)
  }

  lemma ReceivedFirst(disks: seq<Disk>, wire: seq<Blk>, l: Loc)
    requires wire != [] && ValidLoc(disks, l) && ValidBlk(disks, wire[0])
    ensures ValidLoc(Store(disks, wire[0]), l)
    ensures Received(Store(disks, wire[0]), wire[1..], l) == Received(disks, wire, l)
  {
    assert wire == [wire[0]] + wire[1..];
    NewestConcat([wire[0]], wire[1..], l);
    NewestSingle(wire[0], l);
  }

  lemma {:induction false} StoreAllAt(disks: seq<Disk>, wire: seq<Blk>, l: Loc)
    requires ValidLoc(disks, l) && forall b :: b in wire ==> ValidBlk(disks, b)
    ensures ValidLoc(StoreAll(disks, wire), l) && At(StoreAll(disks, wire), l) == Received(disks, wire, l)
    decreases |wire|
  {
    if wire != [] {
      var r := Store(disks, wire[0]);
      forall b | b in wire[1..] ensures ValidBlk(r, b) { LayoutKeepsBlk(disks, r, b); }
      ReceivedFirst(disks, wire, l);
      StoreAllAt(r, wire[1..], l);
    }
  }

  // One synchronous copy of each chunk in locs and of no other.
  ghost predicate Resends(disks: seq<Disk>, locs: set<Loc>, sync: seq<Blk>) {
    && (forall b :: b in sync ==> ValidLoc(disks, b.loc) && b == SyncRead(disks, b.loc) && b.loc in locs)
    && (forall l :: l in locs ==> exists b :: b in sync && b.loc == l)
  }

  // Stage 3 drops what the rate limit kept in the queue.  That does no harm exactly
  // when each chunk in it is resent or was current at the destination without it.
  ghost predicate NothingLost(st: State, n: nat)
    requires WellFormed(st) && n <= |st.queue|
  {
    forall l :: ValidLoc(st.src, l) ==>
      || l in st.dirty
      || Newest(st.queue[n..], l).None?
      || Received(st.dst, st.wire + st.queue[..n], l) == At(st.src, l)
  }

  // The guest is stopped, the bulk phase is over and no read is pending.
  ghost predicate Stopped(st: State) {
    && |st.bulk| == |st.src|
    && (forall d :: 0 <= d < |st.src| ==> st.bulk[d] == Chunks(|st.src[d]|))
    && st.unmarked == [] && st.pending == []
  }

  lemma StageThreeWire(st: State, n: nat, sync: seq<Blk>)
    requires WellFormed(st) && n <= |st.queue| && Resends(st.src, st.dirty, sync)
    ensures forall b :: b in st.wire + st.queue[..n] + sync ==> ValidBlk(st.dst, b)
  {
    forall b | b in st.wire + st.queue[..n] + sync ensures ValidBlk(st.dst, b) {
      if b in st.wire || b in st.queue[..n] {
        assert b in st.Pipe();
      }
      LayoutKeepsBlk(st.src, st.dst, b);
    }
  }

  lemma StageThreeChunk(st: State, n: nat, sync: seq<Blk>, l: Loc)
    requires Inv(st) && Stopped(st) && n <= |st.queue| && Resends(st.src, st.dirty, sync)
    requires ValidLoc(st.src, l)
    ensures Received(st.dst, st.wire + st.queue[..n] + sync, l) == At(st.src, l) <==>
              || l in st.dirty
              || Newest(st.queue[n..], l).None?
              || Received(st.dst, st.wire + st.queue[..n], l) == At(st.src, l)
  {
    NewestConcat(st.wire + st.queue[..n], sync, l);
    if l !in st.dirty {
      assert Safe(st, l);
      assert st.Pipe() == st.wire + st.queue[..n] + st.queue[n..];
      NewestConcat(st.wire + st.queue[..n], st.queue[n..], l);
      if Newest(st.Pipe(), l).Some? {
        var b := Newest(st.Pipe(), l).value;
        assert b in st.wire || b in st.queue;
        assert b.buf == At(st.src, l);
      }
    }
  }

  // Stage 3 after sending n queued blocks: the destination ends equal to the source if
  // and only if dropping the rest of the queue lost nothing.
  lemma StageThree(st: State, n: nat, sync: seq<Blk>)
    requires Inv(st) && Stopped(st) && n <= |st.queue| && Resends(st.src, st.dirty, sync)
    ensures forall b :: b in st.wire + st.queue[..n] + sync ==> ValidBlk(st.dst, b)
    ensures StoreAll(st.dst, st.wire + st.queue[..n] + sync) == st.src <==> NothingLost(st, n)
  {
    StageThreeWire(st, n, sync);
    var wire := st.wire + st.queue[..n] + sync;
    var r := StoreAll(st.dst, wire);
    forall l | ValidLoc(st.src, l)
      ensures At(r, l) == At(st.src, l) <==> || l in st.dirty
                                             || Newest(st.queue[n..], l).None?
                                             || Received(st.dst, st.wire + st.queue[..n], l) == At(st.src, l)
    {
      StoreAllAt(st.dst, wire, l);
      StageThreeChunk(st, n, sync, l);
    }
    if NothingLost(st, n) {
      forall d | 0 <= d < |st.src| ensures r[d] == st.src[d] {
        forall c | 0 <= c < Chunks(|st.src[d]|) ensures Chunk(r[d], c) == Chunk(st.src[d], c) {
          assert At(r, Loc(d, c)) == At(st.src, Loc(d, c));
        }
        EqualByChunks(r[d], st.src[d]);
      }
    }
  }

  // A flush that is not cut short loses nothing.
  lemma FullFlushLosesNothing(st: State)
    requires WellFormed(st)
    ensures NothingLost(st, |st.queue|)
  {
    assert st.queue[|st.queue|..] == [];
  }

  // Loading these blocks turns the disks dst into src.
  ghost predicate Restores(dst: seq<Disk>, blks: seq<Blk>, src: seq<Disk>) {
    (forall b :: b in blks ==> ValidBlk(dst, b)) && StoreAll(dst, blks) == src
  }

  // What the source can check of chunk l when stage 3 sends n queued blocks: it is dirty,
  // or no queued copy of it is dropped, or the last copy sent is the data it holds.
  ghost predicate Kept(st: State, n: nat, l: Loc)
    requires ValidLoc(st.src, l) && n <= |st.queue|
  {
    var sent := Newest(st.wire + st.queue[..n], l);
    l in st.dirty || Newest(st.queue[n..], l).None? || (sent.Some? && sent.value.buf == At(st.src, l))
  }

  // The disks with chunk l made different from the given data.
  lemma Spoil(disks: seq<Disk>, l: Loc, data: Disk) returns (r: seq<Disk>)
    requires ValidLoc(disks, l) && |data| == |At(disks, l)|
    ensures SameLayout(r, disks) && At(r, l) != data
    ensures forall k :: ValidLoc(disks, k) && k != l ==> At(r, k) == At(disks, k)
  {
    var b := Blk(l, data[0 := data[0] + 1], seq(|data|, _ => true));
    assert b.buf[0] != data[0];
    r := Store(disks, b);
  }

  // A chunk with a copy in flight is safe whatever the destination holds of it.
  lemma SpoilKeeps(st: State, l: Loc, dst: seq<Disk>)
    requires Inv(st) && ValidLoc(st.src, l) && Newest(st.Pipe(), l).Some?
    requires SameLayout(dst, st.dst) && forall k :: ValidLoc(st.dst, k) && k != l ==> At(dst, k) == At(st.dst, k)
    ensures Inv(st.(dst := dst))
  {
    var st' := st.(dst := dst);
    assert st'.Pipe() == st.Pipe();
    forall k | ValidLoc(st.src, k) ensures Safe(st', k) {
      assert Safe(st, k);
    }
  }

  lemma KeptEnough(st: State, n: nat, sync: seq<Blk>, dst: seq<Disk>)
    requires Inv(st.(dst := dst)) && Stopped(st) && n <= |st.queue| && Resends(st.src, st.dirty, sync)
    requires forall l :: ValidLoc(st.src, l) ==> Kept(st, n, l)
    ensures Restores(dst, st.wire + st.queue[..n] + sync, st.src)
  {
    forall l | ValidLoc(st.src, l)
      ensures l in st.dirty || Newest(st.queue[n..], l).None? || Received(dst, st.wire + st.queue[..n], l) == At(st.src, l)
    {
      assert Kept(st, n, l);
    }
    StageThree(st.(dst := dst), n, sync);
  }

  lemma KeptNeeded(st: State, n: nat, sync: seq<Blk>, l: Loc)
    requires Inv(st) && Stopped(st) && n <= |st.queue| && Resends(st.src, st.dirty, sync)
    requires forall dst :: Inv(st.(dst := dst)) ==> Restores(dst, st.wire + st.queue[..n] + sync, st.src)
    requires ValidLoc(st.src, l)
    ensures Kept(st, n, l)
  {
    if Newest(st.queue[n..], l).Some? {
      assert st.Pipe() == st.wire + st.queue[..n] + st.queue[n..];
      NewestConcat(st.wire + st.queue[..n], st.queue[n..], l);
      var other := Spoil(st.dst, l, At(st.src, l));
      SpoilKeeps(st, l, other);
      var st' := st.(dst := other);
      assert Inv(st') && Restores(other, st.wire + st.queue[..n] + sync, st.src);
      StageThree(st', n, sync);
      assert NothingLost(st', n);
    }
  }

  // Stage 3 restores every destination it may be facing if and only if each chunk of
  // which it drops a copy is dirty, or was current in the last copy sent.
  lemma StageThreeEverywhere(st: State, n: nat, sync: seq<Blk>)
    requires Inv(st) && Stopped(st) && n <= |st.queue| && Resends(st.src, st.dirty, sync)
    ensures (forall dst :: Inv(st.(dst := dst)) ==> Restores(dst, st.wire + st.queue[..n] + sync, st.src)) <==>
            (forall l :: ValidLoc(st.src, l) ==> Kept(st, n, l))
  {
    if forall l :: ValidLoc(st.src, l) ==> Kept(st, n, l) {
      forall dst | Inv(st.(dst := dst)) ensures Restores(dst, st.wire + st.queue[..n] + sync, st.src) {
        KeptEnough(st, n, sync, dst);
      }
    }
    if forall dst :: Inv(st.(dst := dst)) ==> Restores(dst, st.wire + st.queue[..n] + sync, st.src) {
      forall l | ValidLoc(st.src, l) ensures Kept(st, n, l) {
        KeptNeeded(st, n, sync, l);
      }
    }
  }
}
