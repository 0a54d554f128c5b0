/** The sending side of live block migration, as the code runs it.  Each operation is
    shown to take steps of BlockProtocol only: Valid() carries an arbitrary property of
    histories that those steps keep, so what is proved of every run holds here. */
module BlockMigration {
  import opened Disk
  import opened BlockProtocol
  import opened BlockHistory
  import opened BlockRecords

  // BLOCK_SIZE: the bytes of a chunk
  const BLOCK_SIZE: nat := CHUNK * 512

  ghost predicate Distinct(names: seq<string>) {
    forall i, j :: 0 <= i < j < |names| ==> names[i] != names[j]
  }

  datatype Dev = Dev(bulkCompleted: bool, curSector: nat, curDirty: nat, completedSectors: nat)

  // The state in which migration starts.
  ghost function Begin(disks: seq<Disk>, target: seq<Disk>): State {
    State(disks, target, {}, [], seq(|disks|, _ => 0), [], [], [])
  }

  function Bulk(devs: seq<Dev>): (r: seq<nat>)
    ensures |r| == |devs| && forall d :: 0 <= d < |devs| ==> r[d] == Chunks(devs[d].curSector)
  {
    seq(|devs|, d requires 0 <= d < |devs| => Chunks(devs[d].curSector))
  }

  ghost predicate ValidDev(total: nat, dev: Dev) {
    && dev.curSector <= total && 0 < total
    && (dev.curSector % CHUNK == 0 || dev.curSector == total)
    && dev.curDirty % CHUNK == 0
    && (dev.bulkCompleted ==> dev.curSector == total)
  }

  ghost predicate ValidDevs(disks: seq<Disk>, devs: seq<Dev>) {
    |devs| == |disks| && forall d :: 0 <= d < |devs| ==> ValidDev(|disks[d]|, devs[d])
  }

  // Between calls a device is flagged as soon as its cursor is at the end.
  ghost predicate Settled(disks: seq<Disk>, devs: seq<Dev>) {
    && |devs| == |disks|
    && forall d :: 0 <= d < |devs| ==> (devs[d].bulkCompleted <==> devs[d].curSector == |disks[d]|)
  }

  ghost predicate AllBulkCompleted(devs: seq<Dev>) {
    forall d :: 0 <= d < |devs| ==> devs[d].bulkCompleted
  }

  ghost predicate ValidRequests(disks: seq<Disk>, requests: seq<Request>) {
    forall r :: r in requests ==> ValidWrite(disks, Write(r.dev, r.at, |r.data|))
  }

  ghost predicate ValidWrites(disks: seq<Disk>, writes: seq<Write>) {
    forall w :: w in writes ==> ValidWrite(disks, w)
  }

  ghost predicate ValidLocs(disks: seq<Disk>, locs: set<Loc>) {
    forall l :: l in locs ==> ValidLoc(disks, l)
  }

  ghost predicate ValidBlks(disks: seq<Disk>, blks: seq<Blk>) {
    forall b :: b in blks ==> ValidBlk(disks, b)
  }

  ghost predicate AllFull(blks: seq<Blk>) {
    forall b :: b in blks ==> Full(b)
  }

  ghost predicate InflightPending(inflight: set<Loc>, pending: seq<Blk>) {
    forall l :: l in inflight ==> exists b :: b in pending && b.loc == l
  }

  // There are as many bits as reads, so each read has a bit of its own.
  ghost predicate AllMarked(inflight: set<Loc>, pending: seq<Blk>) {
    |inflight| == |pending|
  }

  ghost function Places(blks: seq<Blk>): set<Loc> {
    set b | b in blks :: b.loc
  }

  lemma {:induction false} PlacesCount(blks: seq<Blk>)
    ensures |Places(blks)| <= |blks|
  {
    if blks != [] {
      var front, last := blks[..|blks| - 1], blks[|blks| - 1];
      PlacesCount(front);
      assert Places(blks) == Places(front) + {last.loc};
    }
  }

  lemma Within(a: set<Loc>, b: set<Loc>)
    requires a <= b
    ensures |a| <= |b| && (|a| == |b| ==> a == b)
  {
    assert b == a + (b - a);
  }

  // If all reads are marked, no two are of one chunk, so that none can overtake another.
  lemma MarkedOnce(inflight: set<Loc>, pending: seq<Blk>, i: nat)
    requires InflightPending(inflight, pending) && AllMarked(inflight, pending) && i < |pending|
    ensures pending[i].loc in inflight && InOrder(pending, i)
  {
    Within(inflight, Places(pending));
    PlacesCount(pending);
    assert pending[i] in pending;
    forall j | 0 <= j < i ensures pending[j].loc != pending[i].loc {
      if pending[j].loc == pending[i].loc {
        var rest := pending[..i] + pending[i + 1..];
        assert rest[j] in rest;
        assert forall k :: 0 <= k < |pending| && k != i ==> pending[k] == rest[if k < i then k else k - 1];
        Within(Places(pending), Places(rest));
        PlacesCount(rest);
      }
    }
  }

  lemma MarkedLess(inflight: set<Loc>, pending: seq<Blk>, i: nat)
    requires InflightPending(inflight, pending) && i < |pending|
    ensures var rest := pending[..i] + pending[i + 1..];
            InflightPending(inflight - {pending[i].loc}, rest)
            && (AllMarked(inflight, pending) ==> AllMarked(inflight - {pending[i].loc}, rest))
  {
    var rest := pending[..i] + pending[i + 1..];
    forall l | l in inflight - {pending[i].loc} ensures exists x :: x in rest && x.loc == l {
      var k :| 0 <= k < |pending| && pending[k].loc == l;
      assert rest[if k < i then k else k - 1].loc == l;
    }
    if AllMarked(inflight, pending) {
      MarkedOnce(inflight, pending, i);
    }
  }

  lemma MarkedMore(inflight: set<Loc>, pending: seq<Blk>, b: Blk)
    requires InflightPending(inflight, pending)
    ensures InflightPending(inflight + {b.loc}, pending + [b])
    ensures AllMarked(inflight, pending) && b.loc !in inflight ==> AllMarked(inflight + {b.loc}, pending + [b])
  {
    var more := pending + [b];
    forall l | l in inflight + {b.loc} ensures exists x :: x in more && x.loc == l {
      if l in inflight {
        var k :| 0 <= k < |pending| && pending[k].loc == l;
        assert more[k].loc == l;
      } else {
        assert more[|pending|].loc == l;
      }
    }
  }

  lemma ResendsMore(disks: seq<Disk>, locs: set<Loc>, sync: seq<Blk>, l: Loc)
    requires Resends(disks, locs, sync) && ValidLoc(disks, l)
    ensures Resends(disks, locs + {l}, sync + [SyncRead(disks, l)])
  {
    var more := sync + [SyncRead(disks, l)];
    assert more[|sync|].loc == l;
    forall k | k in locs ensures exists b :: b in more && b.loc == k {
      var b :| b in sync && b.loc == k;
      assert b in more;
    }
  }

  lemma ResendStep(locs: set<Loc>, base: seq<Blk>, st: State, st': State, sync: seq<Blk>) returns (more: seq<Blk>)
    requires exists l :: SendsNow(st, l, st')
    requires st.dirty <= locs && st.wire == base + sync && Resends(st.src, locs - st.dirty, sync)
    ensures st'.dirty <= locs && |st'.dirty| == |st.dirty| - 1 && |more| == |sync| + 1 && st'.src == st.src
    ensures st'.wire == base + more && Resends(st.src, locs - st'.dirty, more)
  {
    var l :| SendsNow(st, l, st');
    more := sync + [SyncRead(st.src, l)];
    assert locs - st'.dirty == locs - st.dirty + {l};
    ResendsMore(st.src, locs - st.dirty, sync, l);
    assert |st.dirty| == |st'.dirty| + 1;
  }

  // A read of the chunk that starts at sector cur covers exactly that chunk.
  lemma ChunkRead(disks: seq<Disk>, d: nat, cur: nat, nr: nat)
    requires d < |disks| && cur % CHUNK == 0 && cur < |disks[d]|
    requires nr == ChunkLength(|disks[d]|, cur)
    ensures ValidLoc(disks, Loc(d, cur / CHUNK)) && |At(disks, Loc(d, cur / CHUNK))| == nr
    ensures DirtyLocs(Write(d, cur, nr)) == {Loc(d, cur / CHUNK)}
    ensures BlankRead(disks, Loc(d, cur / CHUNK)) == Blk(Loc(d, cur / CHUNK), seq(nr, _ => 0), seq(nr, _ => false))
  {
  }

  // No chunk of device d below sector cur is dirty.
  ghost predicate CleanBelow(dirty: set<Loc>, d: nat, cur: nat) {
    forall l :: l in dirty && l.dev == d ==> cur <= Lo(l.chunk)
  }

  ghost predicate CleanCursors(dirty: set<Loc>, devs: seq<Dev>) {
    forall d :: 0 <= d < |devs| ==> CleanBelow(dirty, d, devs[d].curDirty)
  }

  // Sectors from cur to the end of its chunk or of the device.
  function ChunkLength(total: nat, cur: nat): nat
    requires cur < total
  {
    if total - cur < CHUNK then total - cur else CHUNK
  }

  lemma CursorMoves(total: nat, cur: nat)
    requires cur % CHUNK == 0 && cur < total
    ensures var next := cur + ChunkLength(total, cur);
            next <= total && (next % CHUNK == 0 || next == total) && Chunks(next) == cur / CHUNK + 1
    ensures Chunks(cur) == cur / CHUNK
  {
  }

  lemma BlkFits(disks: seq<Disk>, b: Blk)
    requires ValidBlk(disks, b)
    ensures b.loc.dev < |disks| && |b.buf| <= CHUNK
  {
  }

  lemma BulkUpdate(devs: seq<Dev>, d: nat, dev: Dev)
    requires d < |devs|
    ensures Bulk(devs[d := dev]) == Bulk(devs)[d := Chunks(dev.curSector)]
  {
  }

  // Chunks of the first n devices that the bulk phase has yet to read.
  ghost function Left(disks: seq<Disk>, bulk: seq<nat>, n: nat): int
    requires n <= |disks| && n <= |bulk|
  {
    if n == 0 then 0 else Chunks(|disks[n - 1]|) - bulk[n - 1] + Left(disks, bulk, n - 1)
  }

  lemma {:induction false} LeftNat(disks: seq<Disk>, bulk: seq<nat>, n: nat)
    requires n <= |disks| && n <= |bulk| && forall d :: 0 <= d < n ==> bulk[d] <= Chunks(|disks[d]|)
    ensures Left(disks, bulk, n) >= 0
  {
    if n > 0 {
      LeftNat(disks, bulk, n - 1);
    }
  }

  lemma {:induction false} LeftStep(disks: seq<Disk>, bulk: seq<nat>, d: nat, n: nat)
    requires n <= |disks| == |bulk| && d < |bulk|
    ensures Left(disks, bulk[d := bulk[d] + 1], n) == Left(disks, bulk, n) - (if d < n then 1 else 0)
  {
    if n > 0 {
      LeftStep(disks, bulk, d, n - 1);
    }
  }

  lemma {:induction false} LeftLayout(a: seq<Disk>, b: seq<Disk>, bulk: seq<nat>, n: nat)
    requires SameLayout(a, b) && n <= |a| && n <= |bulk|
    ensures Left(a, bulk, n) == Left(b, bulk, n)
  {
    if n > 0 {
      LeftLayout(a, b, bulk, n - 1);
    }
  }

  // Blocks read and not sent, and chunks the bulk phase has yet to read.
  ghost function Backlog(st: State): int
    requires |st.bulk| == |st.src|
  {
    |st.pending| + |st.queue| + Left(st.src, st.bulk, |st.bulk|)
  }

  lemma BulkBacklog(st: State, d: nat, st': State)
    requires |st.bulk| == |st.src| && BulkReads(st, d, st')
    ensures |st'.bulk| == |st'.src| && Backlog(st') == Backlog(st)
  {
    LeftStep(st.src, st.bulk, d, |st.bulk|);
  }

  // The dirty cursor of device d went from one sector to another, and each chunk it passed
  // was clean in one of the states from place base on.
  ghost predicate Passed(states: seq<State>, base: nat, at: seq<nat>, d: nat, from: nat, to: nat) {
    && to == from + |at| * CHUNK
    && forall i {:trigger at[i]} :: 0 <= i < |at| ==> CleanAt(states, base, at[i], Loc(d, from / CHUNK + i))
  }

  ghost predicate CleanAt(states: seq<State>, base: nat, k: nat, l: Loc) {
    base <= k < |states| && l !in states[k].dirty
  }

  lemma PassedMore(states: seq<State>, base: nat, at: seq<nat>, d: nat, from: nat, to: nat, k: nat)
    requires Passed(states, base, at, d, from, to) && from % CHUNK == 0 && CleanAt(states, base, k, Loc(d, to / CHUNK))
    ensures Passed(states, base, at + [k], d, from, to + CHUNK)
  {
    assert to / CHUNK == from / CHUNK + |at|;
    forall i | 0 <= i < |at + [k]| ensures CleanAt(states, base, (at + [k])[i], Loc(d, from / CHUNK + i)) {
      if i < |at| {
        assert CleanAt(states, base, at[i], Loc(d, from / CHUNK + i));
      }
    }
  }

  lemma PassedLater(states: seq<State>, states': seq<State>, base: nat, base': nat, at: seq<nat>, d: nat, from: nat, to: nat)
    requires Passed(states, base, at, d, from, to) && states <= states' && base' <= base
    ensures Passed(states', base', at, d, from, to)
  {
    forall i | 0 <= i < |at| ensures CleanAt(states', base', at[i], Loc(d, from / CHUNK + i)) {
      assert CleanAt(states, base, at[i], Loc(d, from / CHUNK + i));
    }
  }

  // The cursors of the devices that ats is about went to the ends of their devices.
  ghost predicate PassedAll(states: seq<State>, base: nat, ats: seq<seq<nat>>, disks: seq<Disk>, was: seq<Dev>, devs: seq<Dev>) {
    && |ats| <= |was| == |devs| == |disks|
    && forall d {:trigger ats[d]} :: 0 <= d < |ats| ==>
         Passed(states, base, ats[d], d, was[d].curDirty, devs[d].curDirty) && devs[d].curDirty >= |disks[d]|
  }

  lemma PassedEnds(states: seq<State>, base: nat, ats: seq<seq<nat>>, disks: seq<Disk>, was: seq<Dev>, devs: seq<Dev>)
    requires PassedAll(states, base, ats, disks, was, devs) && |ats| == |devs|
    ensures AtEnd(disks, devs)
  {
    forall d | 0 <= d < |devs| ensures devs[d].curDirty >= |disks[d]| {
      var at := ats[d];
    }
  }

  ghost predicate CleanOnce(states: seq<State>, base: nat, l: Loc) {
    exists k {:trigger CleanAt(states, base, k, l)} :: CleanAt(states, base, k, l)
  }

  // Each chunk of device d between the two sectors was clean in a state since base.
  ghost predicate Cleaned(states: seq<State>, base: nat, d: nat, from: nat, to: nat) {
    forall c: nat {:trigger CleanOnce(states, base, Loc(d, c))} ::
      from <= c * CHUNK < to ==> CleanOnce(states, base, Loc(d, c))
  }

  // So was each chunk that a dirty cursor passed on the way from was to devs.
  ghost predicate Swept(states: seq<State>, base: nat, was: seq<Dev>, devs: seq<Dev>) {
    && |was| == |devs|
    && forall d {:trigger Cleaned(states, base, d, was[d].curDirty, devs[d].curDirty)} ::
         0 <= d < |devs| ==> Cleaned(states, base, d, was[d].curDirty, devs[d].curDirty)
  }

  lemma SweptNone(states: seq<State>, base: nat, was: seq<Dev>, devs: seq<Dev>)
    requires |was| == |devs| && forall d :: 0 <= d < |devs| ==> devs[d].curDirty == was[d].curDirty
    ensures Swept(states, base, was, devs)
  {
  }

  ghost predicate EveryCleanOnce(states: seq<State>, base: nat, disks: seq<Disk>) {
    forall l {:trigger CleanOnce(states, base, l)} :: ValidLoc(disks, l) ==> CleanOnce(states, base, l)
  }

  lemma CleanLater(states: seq<State>, states': seq<State>, base: nat, base': nat, l: Loc)
    requires CleanOnce(states, base, l) && states <= states' && base' <= base
    ensures CleanOnce(states', base', l)
  {
    var k :| CleanAt(states, base, k, l);
    assert CleanAt(states', base', k, l);
  }

  lemma PassedCleaned(states: seq<State>, base: nat, at: seq<nat>, d: nat, from: nat, to: nat)
    requires Passed(states, base, at, d, from, to) && from % CHUNK == 0
    ensures Cleaned(states, base, d, from, to)
  {
    forall c: nat | from <= c * CHUNK < to ensures CleanOnce(states, base, Loc(d, c)) {
      var i := c - from / CHUNK;
      assert CleanAt(states, base, at[i], Loc(d, from / CHUNK + i));
    }
  }

  lemma CleanedJoin(states: seq<State>, states': seq<State>, base: nat, base': nat, d: nat, from: nat, mid: nat, to: nat)
    requires Cleaned(states, base, d, from, mid) && Cleaned(states', base', d, mid, to)
    requires states <= states' && base <= base'
    ensures Cleaned(states', base, d, from, to)
  {
    forall c: nat | from <= c * CHUNK < to ensures CleanOnce(states', base, Loc(d, c)) {
      if c * CHUNK < mid {
        CleanLater(states, states', base, base, Loc(d, c));
      } else {
        CleanLater(states', states', base', base, Loc(d, c));
      }
    }
  }

  lemma SweptJoin(states: seq<State>, states': seq<State>, base: nat, base': nat, was: seq<Dev>, mid: seq<Dev>, devs: seq<Dev>)
    requires Swept(states, base, was, mid) && Swept(states', base', mid, devs)
    requires states <= states' && base <= base'
    ensures Swept(states', base, was, devs)
  {
    forall d | 0 <= d < |devs| ensures Cleaned(states', base, d, was[d].curDirty, devs[d].curDirty) {
      assert Cleaned(states, base, d, was[d].curDirty, mid[d].curDirty);
      assert Cleaned(states', base', d, mid[d].curDirty, devs[d].curDirty);
      CleanedJoin(states, states', base, base', d, was[d].curDirty, mid[d].curDirty, devs[d].curDirty);
    }
  }

  lemma SweptOne(states: seq<State>, base: nat, was: seq<Dev>, devs: seq<Dev>, d: nat, at: seq<nat>)
    requires d < |was| == |devs| && devs == was[d := devs[d]] && was[d].curDirty % CHUNK == 0
    requires Passed(states, base, at, d, was[d].curDirty, devs[d].curDirty)
    ensures Swept(states, base, was, devs)
  {
    PassedCleaned(states, base, at, d, was[d].curDirty, devs[d].curDirty);
  }

  // Once the cursors have gone from 0 to the ends of their devices, every chunk was clean.
  lemma SweptAll(states: seq<State>, base: nat, disks: seq<Disk>, was: seq<Dev>, devs: seq<Dev>)
    requires Swept(states, base, was, devs) && AtEnd(disks, devs)
    requires forall d :: 0 <= d < |was| ==> was[d].curDirty == 0
    ensures EveryCleanOnce(states, base, disks)
  {
    forall l | ValidLoc(disks, l) ensures CleanOnce(states, base, l) {
      var dev := devs[l.dev];
      assert l.chunk * CHUNK < |disks[l.dev]|;
      assert Cleaned(states, base, l.dev, was[l.dev].curDirty, dev.curDirty);
      assert Loc(l.dev, l.chunk) == l;
    }
  }

  lemma EveryCleanLater(states: seq<State>, states': seq<State>, base: nat, base': nat, disks: seq<Disk>)
    requires EveryCleanOnce(states, base, disks) && states <= states' && base' <= base
    ensures EveryCleanOnce(states', base', disks)
  {
    forall l | ValidLoc(disks, l) ensures CleanOnce(states', base', l) {
      CleanLater(states, states', base, base', l);
    }
  }

  // The last thing that happened was the submission of a read of this dirty chunk.
  ghost predicate JustRead(states: seq<State>, l: Loc) {
    |states| > 1 && DirtyReads(states[|states| - 2], l, states[|states| - 1])
  }

  lemma ReadJust(states: seq<State>, st: State, l: Loc, st': State)
    requires states != [] && states[|states| - 1] == st && DirtyReads(st, l, st')
    ensures JustRead(states + [st'], l) && l !in st'.dirty && |st'.pending| == |st.pending| + 1
  {
  }

  // n blocks are no more than there were, or one more than fits below the rate.
  ghost predicate Bounded(n: int, before: int, rate: int) {
    n <= before || (n - 1) * BLOCK_SIZE < rate
  }

  ghost predicate Reached(n: int, rate: int) {
    n * BLOCK_SIZE >= rate
  }

  lemma BoundedMore(m: int, n: int, before: int, rate: int)
    requires n <= m + 1 && m * BLOCK_SIZE < rate
    ensures Bounded(n, before, rate)
  {
  }

  lemma ReachedMore(m: int, n: int, rate: int)
    requires m <= n
    ensures Reached(m, rate) ==> Reached(n, rate)
  {
  }

  lemma BoundedLess(m: int, n: int, before: int, before': int, rate: int)
    requires Bounded(m, before', rate) && n <= m && before' <= before
    ensures Bounded(n, before, rate)
  {
  }

  // The first n of these blocks went from the queue to the wire.
  ghost predicate SentFirst(blks: seq<Blk>, before: seq<Blk>, n: nat, queue: seq<Blk>, wire: seq<Blk>) {
    n <= |blks| && queue == blks[n..] && wire == before + blks[..n]
  }

  lemma SentMore(blks: seq<Blk>, before: seq<Blk>, n: nat, queue: seq<Blk>, wire: seq<Blk>)
    requires SentFirst(blks, before, n, queue, wire) && queue != []
    ensures SentFirst(blks, before, n + 1, queue[1..], wire + [queue[0]])
  {
    assert blks[..n + 1] == blks[..n] + [queue[0]];
  }

  // Every dirty cursor has gone through its device.
  ghost predicate AtEnd(disks: seq<Disk>, devs: seq<Dev>) {
    |devs| == |disks| && forall d :: 0 <= d < |devs| ==> devs[d].curDirty >= |disks[d]|
  }

  // Device d is the first that the bulk phase has not finished.
  ghost predicate FirstLeft(devs: seq<Dev>, d: nat) {
    d < |devs| && !devs[d].bulkCompleted && forall e :: 0 <= e < d ==> devs[e].bulkCompleted
  }

  class Migration {
    const names: seq<string>
    var disks: seq<Disk>        // the guest's devices
    var dirty: set<Loc>         // their dirty bitmaps
    var requests: seq<Request>  // guest writes whose data has not reached the image
    var unmarked: seq<Write>    // guest writes whose dirty bits are not set yet
    var devs: seq<Dev>          // bmds_list
    var inflight: set<Loc>      // the aio bitmaps
    var pending: seq<Blk>
    var queue: seq<Blk>         // blk_list
    var submitted: int
    var readDone: int
    var transferred: int
    var bulkCompleted: bool
    var prevProgress: int
    var stream: seq<Rec>        // what has been put on the stream so far
    const heap: Disk            // what a freshly allocated buffer holds
    ghost var wire: seq<Blk>    // the device blocks among it
    ghost const target: seq<Disk>   // the destination's devices before any of the stream is loaded
    ghost var history: History  // what has happened so far
    ghost const property: iset<History> // any property of histories that whatever happens keeps

    ghost function Spec(): State
      reads this
    {
      State(disks, target, dirty, unmarked, Bulk(devs), pending, queue, wire)
    }

    ghost predicate Shape()
      reads this
    {
      && |names| == |disks| && Distinct(names)
      && ValidDevs(disks, devs)
      && (bulkCompleted ==> AllBulkCompleted(devs))
      && ValidRequests(disks, requests)
      && ValidWrites(disks, unmarked)
      && ValidLocs(disks, dirty)
      && ValidBlks(disks, pending)
      && ValidBlks(disks, queue) && AllFull(queue)
      && ValidBlks(disks, wire) && AllFull(wire)
      && InflightPending(inflight, pending)
      && submitted == |pending| && readDone == |queue|
    }

    ghost predicate Valid()
      reads this
    {
      Shape() && Closed(property) && history in property && Ends(history, Spec()) && history.waiting == requests
    }

    // The records on the stream are those of the blocks sent.
    ghost predicate Streaming()
      reads this`stream, this`wire
    {
      |heap| == CHUNK && Carries(names, stream, wire)
    }

    // block_save_live, stage 1: init_blk_migration and set_dirty_tracking(1).
    constructor Start(names: seq<string>, disks: seq<Disk>, heap: Disk, ghost target: seq<Disk>, ghost property: iset<History>)
      requires |names| == |disks| && Distinct(names) && SameLayout(disks, target)
      requires |heap| == CHUNK && forall d :: 0 <= d < |disks| ==> 0 < |disks[d]|
      requires Closed(property)
      requires History([Begin(disks, target)], [], [], []) in property
      ensures Valid() && Streaming() && Settled(this.disks, devs) && Init(Spec()) && Sections(stream)
      ensures this.names == names && this.disks == disks && this.target == target && this.property == property
      ensures history == History([Begin(disks, target)], [], [], []) && !bulkCompleted && Spec() == Begin(disks, target)
    {
      this.names, this.disks, this.heap, this.target, this.property := names, disks, heap, target, property;
      dirty, requests, unmarked, inflight := {}, [], [], {};
      pending, queue, wire := [], [], [];
      submitted, readDone, transferred, bulkCompleted, prevProgress := 0, 0, 0, false, -1;
      stream := [EOS];
      history := History([Begin(disks, target)], [], [], []);
      devs := seq(|disks|, _ => Dev(false, 0, 0, 0));
      new;
      assert stream[1..] == [];
      assert Bulk(devs) == seq(|disks|, _ => 0);
    }

    // The guest submits a write; bdrv_check_request has accepted its range.
    method GuestWrite(dev: nat, at: nat, data: Disk)
      requires Valid() && ValidWrite(disks, Write(dev, at, |data|))
      modifies this`requests, this`history
      ensures Valid() && requests == old(requests) + [Request(dev, at, data)]
      ensures history == old(history).(told := old(history).told + [Request(dev, at, data)], waiting := requests)
    {
      var r := Request(dev, at, data);
      requests := requests + [r];
      history := history.(told := history.told + [r], waiting := history.waiting + [r]);
      assert Extends(old(history), old(Spec()), Ask(r), history, Spec());
    }

    // The part mig_save_device_bulk and mig_save_device_dirty share: start reading the
    // chunk at sector cur into a fresh buffer and clear its dirty bit.
    method SubmitRead(d: nat, cur: nat)
      requires Shape() && d < |disks| && cur % CHUNK == 0 && cur < |disks[d]|
      modifies this`pending, this`submitted, this`dirty
      ensures Shape()
      ensures ValidLoc(disks, Loc(d, cur / CHUNK))
      ensures pending == old(pending) + [BlankRead(disks, Loc(d, cur / CHUNK))]
      ensures dirty == old(dirty) - {Loc(d, cur / CHUNK)}
    {
      var nr := ChunkLength(|disks[d]|, cur);
      ChunkRead(disks, d, cur, nr);
      pending := pending + [Blk(Loc(d, cur / CHUNK), seq(nr, _ => 0), seq(nr, _ => false))];
      submitted := submitted + 1;
      dirty := dirty - DirtyLocs(Write(d, cur, nr));
      assert InflightPending(inflight, pending) by {
        forall l | l in inflight ensures exists x :: x in pending && x.loc == l {
          var b :| b in old(pending) && b.loc == l;
          assert b in pending;
        }
      }
    }

    method SetCursor(d: nat, cur: nat, completed: nat)
      requires Shape() && d < |devs| && cur <= |disks[d]| && (cur % CHUNK == 0 || cur == |disks[d]|)
      requires devs[d].bulkCompleted ==> cur == |disks[d]|
      modifies this`devs
      ensures Shape()
      ensures devs == old(devs)[d := old(devs)[d].(curSector := cur, completedSectors := completed)]
      ensures Bulk(devs) == old(Bulk(devs))[d := Chunks(cur)]
    {
      BulkUpdate(devs, d, devs[d].(curSector := cur, completedSectors := completed));
      assert ValidDev(|disks[d]|, devs[d]);
      devs := devs[d := devs[d].(curSector := cur, completedSectors := completed)];
    }

    method ReadBulk(d: nat, cur: nat)
      requires Valid() && d < |devs| && !devs[d].bulkCompleted && cur < |disks[d]|
      requires cur % CHUNK == 0 && cur == devs[d].curSector
      modifies this`devs, this`pending, this`submitted, this`dirty, this`history
      ensures After(old(history), history)
      ensures Valid() && BulkReads(old(Spec()), d, Spec())
      ensures devs == old(devs)[d := old(devs)[d].(curSector := devs[d].curSector, completedSectors := devs[d].completedSectors)]
    {
      CursorMoves(|disks[d]|, cur);
      SubmitRead(d, cur);
      SetCursor(d, cur + ChunkLength(|disks[d]|, cur), devs[d].curSector);
      history := history.(states := history.states + [Spec()]);
      assert Extends(old(history), old(Spec()), Take(BulkRead(d)), history, Spec());
    }

    // mig_save_device_bulk
    method SaveDeviceBulk(d: nat) returns (done: bool)
      requires Valid() && d < |devs| && !devs[d].bulkCompleted
      modifies this`devs, this`pending, this`submitted, this`dirty, this`history
      ensures After(old(history), history)
      ensures Valid() && (done <==> devs[d].curSector == |disks[d]|)
      ensures if old(devs[d].curSector) < |disks[d]| then BulkReads(old(Spec()), d, Spec())
              else Spec() == old(Spec())
      ensures devs == old(devs)[d := old(devs)[d].(curSector := devs[d].curSector, completedSectors := devs[d].completedSectors)]
    {
      var total := |disks[d]|;
      var cur := devs[d].curSector;
      assert ValidDev(total, devs[d]);
      if cur >= total {
        SetCursor(d, total, total);
        assert Spec().bulk == old(Spec()).bulk;
        return true;
      }
      ReadBulk(d, cur - cur % CHUNK);
      return devs[d].curSector >= total;
    }

    // blk_mig_read_cb: the read with index i has filled its buffer.
    method ReadCallback(i: nat)
      requires Valid() && i < |pending| && Full(pending[i]) && InOrder(pending, i)
      modifies this`queue, this`pending, this`inflight, this`submitted, this`readDone, this`history
      ensures After(old(history), history)
      ensures Valid()
      ensures Completes(old(Spec()), i, true, Spec())
      ensures inflight == old(inflight) - {old(pending)[i].loc}
      ensures old(AllMarked(inflight, pending)) ==> AllMarked(inflight, pending)
      ensures history.landed == old(history).landed
    {
      var b := pending[i];
      MarkedLess(inflight, pending, i);
      queue := queue + [b];
      inflight := inflight - {b.loc};
      pending := pending[..i] + pending[i + 1..];
      submitted := submitted - 1;
      readDone := readDone + 1;
      history := history.(states := history.states + [Spec()]);
      assert Extends(old(history), old(Spec()), Take(Done(i)), history, Spec());
    }

    // A guest write reaches the image.
    method LandRequest(i: nat)
      requires Valid() && i < |requests|
      modifies this`disks, this`unmarked, this`requests, this`history
      ensures After(old(history), history)
      ensures Valid()
      ensures requests == old(requests)[..i] + old(requests)[i + 1..]
      ensures history.landed == old(history).landed + [old(requests)[i]]
      ensures var r := old(requests)[i]; Lands(old(Spec()), r.dev, r.at, r.data, Spec())
    {
      var r := requests[i];
      requests := requests[..i] + requests[i + 1..];
      ghost var before := disks;
      disks := disks[r.dev := Overwrite(disks[r.dev], r.at, r.data)];
      unmarked := unmarked + [Write(r.dev, r.at, |r.data|)];
      assert SameLayout(before, disks);
      forall b | b in pending ensures ValidBlk(disks, b) { LayoutKeepsBlk(before, disks, b); }
      forall b | b in queue ensures ValidBlk(disks, b) { LayoutKeepsBlk(before, disks, b); }
      forall b | b in wire ensures ValidBlk(disks, b) { LayoutKeepsBlk(before, disks, b); }
      history := History(history.states + [Spec()], history.told, requests, history.landed + [r]);
      assert Extends(old(history), old(Spec()), Arrive(i), history, Spec());
    }

    // A guest write completes: set_dirty_bitmap at the end of bdrv_co_do_writev.
    method MarkWrite(i: nat)
      requires Valid() && i < |unmarked|
      modifies this`dirty, this`unmarked, this`history
      ensures After(old(history), history)
      ensures Valid()
      ensures Marks(old(Spec()), i, Spec())
      ensures history.landed == old(history).landed
    {
      var w := unmarked[i];
      assert ValidWrite(disks, w);
      forall l | l in DirtyLocs(w) ensures ValidLoc(disks, l) { DirtyLocsValid(disks, w, l); }
      dirty := dirty + DirtyLocs(w);
      unmarked := unmarked[..i] + unmarked[i + 1..];
      history := history.(states := history.states + [Spec()]);
      assert Extends(old(history), old(Spec()), Take(Mark(i)), history, Spec());
    }

    // The device fills sector k of the buffer of read i.
    method FillSector(i: nat, k: nat)
      requires Valid() && i < |pending| && k < |pending[i].buf|
      modifies this`pending, this`history
      ensures After(old(history), history)
      ensures Valid()
      ensures Fills(old(Spec()), i, k, Spec())
      ensures |pending| == |old(pending)| && forall j :: 0 <= j < |pending| ==> pending[j].loc == old(pending)[j].loc
      ensures history.landed == old(history).landed
    {
      var b := pending[i];
      assert ValidBlk(disks, b);
      pending := pending[i := b.(buf := b.buf[k := Chunk(disks[b.loc.dev], b.loc.chunk)[k]], got := b.got[k := true])];
      forall l | l in inflight ensures exists x :: x in pending && x.loc == l {
        var j :| 0 <= j < |old(pending)| && old(pending)[j].loc == l;
        assert pending[j].loc == l;
      }
      history := history.(states := history.states + [Spec()]);
      assert Extends(old(history), old(Spec()), Take(Fill(i, k)), history, Spec());
    }
  
    // The device finishes read i: whatever is left of its buffer, then the callback.
    method FinishRead(i: nat)
      requires Valid() && i < |pending| && InOrder(pending, i)
      modifies this`queue, this`pending, this`inflight, this`submitted, this`readDone, this`history
      ensures After(old(history), history)
      ensures Valid()
      ensures |pending| == |old(pending)| - 1 && |queue| == |old(queue)| + 1 && old(queue) <= queue
      ensures history.landed == old(history).landed
    {
      assert ValidBlk(disks, pending[i]);
      var n := |pending[i].buf|;
      for k := 0 to n
        invariant After(old(history), history)
        invariant Valid()
        invariant history.landed == old(history).landed
        invariant queue == old(queue) && inflight == old(inflight)
        invariant |pending| == |old(pending)| && |pending[i].buf| == n == |pending[i].got|
        invariant InOrder(pending, i)
        invariant forall j :: 0 <= j < k ==> pending[i].got[j]
      {
        FillSector(i, k);
      }
      ReadCallback(i);
    }

    // The reads in flight copy some sectors, any number of them in any order.
    method CopySome()
      requires Valid()
      modifies this`pending, this`history
      ensures After(old(history), history)
      ensures Valid() && |pending| == |old(pending)| && history.landed == old(history).landed
    {
      var n: int := *;
      for j := 0 to if n < 0 then 0 else n
        invariant After(old(history), history)
        invariant Valid() && |pending| == |old(pending)| && history.landed == old(history).landed
      {
        var i: int, k: int := *, *;
        if 0 <= i < |pending| && 0 <= k < |pending[i].buf| {
          FillSector(i, k);
        }
      }
    }

    // A guest write lands or completes, or a read finishes.
    method AioOne()
      requires Valid() && (requests != [] || unmarked != [] || pending != [])
      modifies this`queue, this`pending, this`inflight, this`submitted, this`readDone,
               this`disks, this`unmarked, this`requests, this`dirty, this`history
      ensures After(old(history), history)
      ensures Valid() && old(queue) <= queue
      ensures |queue| + |pending| == |old(queue)| + |old(pending)|
      ensures SameLayout(disks, old(disks))
      ensures multiset(history.landed) + multiset(requests) == multiset(old(history).landed) + multiset(old(requests))
      ensures 2 * |requests| + |unmarked| + |pending| < 2 * |old(requests)| + |old(unmarked)| + |old(pending)|
    {
      if
      case requests != [] =>
        var i :| 0 <= i < |requests|;
        Removed(requests, i);
        LandRequest(i);
      case unmarked != [] =>
        var i :| 0 <= i < |unmarked|;
        MarkWrite(i);
      case pending != [] =>
        assert InOrder(pending, 0);
        var i :| 0 <= i < |pending| && forall j :: 0 <= j < i ==> pending[j].loc != pending[i].loc;
        FinishRead(i);
    }

    method AioStep()
      requires Valid() && (requests != [] || unmarked != [] || pending != [])
      modifies this`queue, this`pending, this`inflight, this`submitted, this`readDone,
               this`disks, this`unmarked, this`requests, this`dirty, this`history
      ensures After(old(history), history)
      ensures Valid() && old(queue) <= queue
      ensures |queue| + |pending| == |old(queue)| + |old(pending)|
      ensures SameLayout(disks, old(disks))
      ensures multiset(history.landed) + multiset(requests) == multiset(old(history).landed) + multiset(old(requests))
      ensures 2 * |requests| + |unmarked| + |pending| < 2 * |old(requests)| + |old(unmarked)| + |old(pending)|
    {
      CopySome();
      AioOne();
    }

    // qemu_aio_flush: guest writes and reads in flight get on, in any order in which reads of
    // one chunk finish as they were submitted, until every write has landed and is marked
    // and every read is done.
    method AioFlush()
      requires Valid()
      modifies this`queue, this`pending, this`inflight, this`submitted, this`readDone,
               this`disks, this`unmarked, this`requests, this`dirty, this`history
      ensures After(old(history), history)
      ensures Valid()
      ensures pending == [] && unmarked == [] && requests == [] && inflight == {}
      ensures |queue| == |old(queue)| + |old(pending)| && old(queue) <= queue
      ensures SameLayout(disks, old(disks))
      ensures multiset(history.landed) == multiset(old(history).landed) + multiset(old(requests))
    {
      while requests != [] || unmarked != [] || pending != []
        invariant After(old(history), history)
        invariant Valid() && old(queue) <= queue
        invariant |queue| + |pending| == |old(queue)| + |old(pending)|
        invariant SameLayout(disks, old(disks))
        invariant multiset(history.landed) + multiset(requests) == multiset(old(history).landed) + multiset(old(requests))
        decreases 2 * |requests| + |unmarked| + |pending|
      {
        AioStep();
      }
    }

    method SetBulkCompleted(d: nat)
      requires Shape() && d < |devs| && devs[d].curSector == |disks[d]|
      modifies this`devs
      ensures Shape() && Spec() == old(Spec())
      ensures devs == old(devs)[d := old(devs)[d].(bulkCompleted := true)]
    {
      assert ValidDev(|disks[d]|, devs[d]);
      devs := devs[d := devs[d].(bulkCompleted := true)];
      assert Bulk(devs) == old(Bulk(devs));
    }

    // One round of the loop in blk_mig_save_bulked_block, for the device it stops at.
    method SaveBulkOf(d: nat)
      requires Valid() && Settled(disks, devs) && d < |devs| && !devs[d].bulkCompleted
      modifies this`devs, this`pending, this`submitted, this`dirty, this`history
      ensures After(old(history), history)
      ensures Valid() && Settled(disks, devs) && BulkReads(old(Spec()), d, Spec())
      ensures forall e :: 0 <= e < |devs| ==> devs[e].curDirty == old(devs)[e].curDirty
    {
      assert ValidDev(|disks[d]|, devs[d]);
      var done := SaveDeviceBulk(d);
      if done {
        SetBulkCompleted(d);
      }
    }

    // The report at the end of blk_mig_save_bulked_block.
    method ReportProgress(completed: nat)
      requires Valid() && Streaming()
      modifies this`stream, this`prevProgress
      ensures Valid() && Streaming()
    {
      var total: nat := 0;
      for d := 0 to |disks| {
        total := total + |disks[d]|;
      }
      var progress := if total != 0 then completed * 100 / total else 100;
      if progress != prevProgress {
        prevProgress := progress;
        ProgressReports(progress);
        PutReport(Progress(progress));
      }
    }

    // blk_mig_save_bulked_block: reads the next chunk of the first device with any left.
    method SaveBulkedBlock() returns (more: bool)
      requires Valid() && Streaming() && Settled(disks, devs)
      modifies this`devs, this`pending, this`submitted, this`dirty, this`stream, this`prevProgress, this`history
      ensures After(old(history), history)
      ensures Valid() && Streaming() && Settled(disks, devs)
      ensures !more <==> old(AllBulkCompleted(devs))
      ensures !more ==> devs == old(devs) && Spec() == old(Spec())
      ensures more ==> exists d :: FirstLeft(old(devs), d) && BulkReads(old(Spec()), d, Spec())
      ensures |devs| == |old(devs)| && forall e :: 0 <= e < |devs| ==> devs[e].curDirty == old(devs)[e].curDirty
    {
      more := false;
      var sum: nat := 0;
      var n := |devs|;
      for d := 0 to n
        invariant After(old(history), history)
        invariant Valid() && Streaming() && Settled(disks, devs) && Spec() == old(Spec()) && devs == old(devs) && !more
        invariant forall e :: 0 <= e < d ==> devs[e].bulkCompleted
      {
        if !devs[d].bulkCompleted {
          assert FirstLeft(old(devs), d);
          SaveBulkOf(d);
          sum := sum + devs[d].completedSectors;
          more := true;
          break;
        }
        sum := sum + devs[d].completedSectors;
      }
      ghost var st := Spec();
      ReportProgress(sum);
      assert Spec() == st;
    }

    // blk_send
    method PutBlock(b: Blk)
      requires Streaming() && b.loc.dev < |names| && |b.buf| <= CHUNK
      modifies this`stream, this`wire
      ensures Streaming() && wire == old(wire) + [b]
    {
      CarriesBlock(names, stream, wire, b, heap);
      stream := stream + [BlockRec(names, b, heap)];
      wire := wire + [b];
    }

    method TakeHead() returns (b: Blk)
      requires Shape() && queue != []
      modifies this`queue, this`readDone, this`transferred
      ensures Shape() && b == old(queue)[0] && queue == old(queue)[1..]
      ensures ValidBlk(disks, b) && Full(b) && b.loc.dev < |names| && |b.buf| <= CHUNK
      ensures transferred == old(transferred) + 1
    {
      b := queue[0];
      BlkFits(disks, b);
      queue := queue[1..];
      readDone := readDone - 1;
      transferred := transferred + 1;
    }

    // The body of the loop in flush_blks.
    method SendHead()
      requires Valid() && Streaming() && queue != []
      modifies this`stream, this`wire, this`queue, this`readDone, this`transferred, this`history
      ensures After(old(history), history)
      ensures Valid() && Streaming() && Sends(old(Spec()), Spec())
      ensures transferred == old(transferred) + 1
      ensures history.landed == old(history).landed
    {
      var b := TakeHead();
      PutBlock(b);
      history := history.(states := history.states + [Spec()]);
      assert Extends(old(history), old(Spec()), Take(Send), history, Spec());
    }

    // flush_blks; the rate limit lets at most budget blocks through.
    method FlushBlks(budget: nat)
      requires Valid() && Streaming()
      modifies this`stream, this`wire, this`queue, this`readDone, this`transferred, this`history
      ensures After(old(history), history)
      ensures Valid() && Streaming()
      ensures var n := if budget < |old(queue)| then budget else |old(queue)|;
              queue == old(queue)[n..] && wire == old(wire) + old(queue)[..n]
              && transferred == old(transferred) + n
      ensures history.landed == old(history).landed
    {
      var sent: nat := 0;
      while queue != [] && sent < budget
        invariant history.landed == old(history).landed
        invariant After(old(history), history)
        invariant Valid() && Streaming()
        invariant sent <= budget && transferred == old(transferred) + sent
        invariant SentFirst(old(queue), old(wire), sent, queue, wire)
      {
        SentMore(old(queue), old(wire), sent, queue, wire);
        SendHead();
        sent := sent + 1;
      }
    }
  
    // The guest is stopped and no request or read is in flight.
    ghost predicate Quiet()
      reads this
    {
      requests == [] && unmarked == [] && pending == []
    }

    method SetDirtyCursor(d: nat, sector: nat)
      requires Shape() && d < |devs| && sector % CHUNK == 0
      modifies this`devs
      ensures Shape() && Spec() == old(Spec()) && (old(Settled(disks, devs)) ==> Settled(disks, devs))
      ensures devs == old(devs)[d := old(devs)[d].(curDirty := sector)]
    {
      assert ValidDev(|disks[d]|, devs[d]);
      devs := devs[d := devs[d].(curDirty := sector)];
      assert Bulk(devs) == old(Bulk(devs));
    }

    method SubmitMarked(d: nat, sector: nat, l: Loc)
      requires Shape() && d < |disks| && sector % CHUNK == 0 && sector < |disks[d]| && l == Loc(d, sector / CHUNK)
      modifies this`pending, this`submitted, this`dirty, this`inflight
      ensures Shape() && ValidLoc(disks, l) && pending == old(pending) + [BlankRead(disks, l)]
      ensures dirty == old(dirty) - {l} && inflight == old(inflight) + {l}
      ensures old(AllMarked(inflight, pending)) && l !in old(inflight) ==> AllMarked(inflight, pending)
    {
      SubmitRead(d, sector);
      MarkedMore(inflight, old(pending), pending[|pending| - 1]);
      inflight := inflight + {l};
    }

    // mig_save_device_dirty, once it has found a dirty chunk: start reading it ...
    method ReadDirty(d: nat, sector: nat)
      requires Valid() && d < |disks| && sector % CHUNK == 0 && sector < |disks[d]|
      requires Loc(d, sector / CHUNK) in dirty
      modifies this`pending, this`submitted, this`dirty, this`inflight, this`history
      ensures After(old(history), history)
      ensures Valid() && JustRead(history.states, Loc(d, sector / CHUNK))
      ensures Loc(d, sector / CHUNK) !in dirty && |pending| == |old(pending)| + 1
      ensures inflight == old(inflight) + {Loc(d, sector / CHUNK)}
      ensures old(AllMarked(inflight, pending)) && Loc(d, sector / CHUNK) !in old(inflight) ==> AllMarked(inflight, pending)
    {
      var l := Loc(d, sector / CHUNK);
      SubmitMarked(d, sector, l);
      history := history.(states := history.states + [Spec()]);
      assert Extends(old(history), old(Spec()), Take(DirtyRead(l)), history, Spec());
      ReadJust(old(history).states, old(Spec()), l, Spec());
    }

    // ... or read it and send it at once.
    method SendDirty(d: nat, sector: nat)
      requires Shape() && Streaming() && d < |disks| && sector % CHUNK == 0 && sector < |disks[d]|
      requires Loc(d, sector / CHUNK) in dirty
      modifies this`stream, this`wire, this`dirty
      ensures Shape() && Streaming() && SendsNow(old(Spec()), Loc(d, sector / CHUNK), Spec())
    {
      var l := Loc(d, sector / CHUNK);
      ChunkRead(disks, d, sector, ChunkLength(|disks[d]|, sector));
      var buf := Chunk(disks[d], sector / CHUNK);
      var b := Blk(l, buf, seq(|buf|, _ => true));
      assert SyncRead(disks, l) == b;
      PutBlock(b);
      dirty := dirty - {l};
    }

    // Since there were history h, these disks and n blocks not sent, with a bit for each read
    // if marked.
    ghost predicate InRound(h: History, before: seq<Disk>, marked: bool, n: int)
      reads this
    {
      && After(h, history) && Valid() && Streaming() && Settled(disks, devs) && SameLayout(disks, before)
      && (marked ==> AllMarked(inflight, pending)) && |pending| + |queue| == n
    }

    // The test on the in-flight bitmap at the top of the loop in mig_save_device_dirty.
    method AwaitInflight(l: Loc, ghost h: History, ghost before: seq<Disk>, ghost marked: bool, ghost n: int)
      requires InRound(h, before, marked, n)
      modifies this`queue, this`pending, this`inflight, this`submitted, this`readDone,
               this`disks, this`unmarked, this`requests, this`dirty, this`history
      ensures InRound(h, before, marked, n) && l !in inflight
    {
      if l in inflight {
        ghost var mid := history;
        AioFlush();
        AfterTrans(h, mid, history);
      } else {
      }
    }

    method StartRead(d: nat, sector: nat, ghost l: Loc, ghost h: History, ghost before: seq<Disk>, ghost marked: bool, ghost n: int)
      requires InRound(h, before, marked, n) && d < |disks| && sector % CHUNK == 0 && sector < |disks[d]|
      requires l == Loc(d, sector / CHUNK) && l in dirty && l !in inflight
      modifies this`pending, this`submitted, this`dirty, this`inflight, this`history
      ensures InRound(h, before, marked, n + 1) && l !in dirty && JustRead(history.states, l)
    {
      ghost var mid := history;
      ReadDirty(d, sector);
      AfterTrans(h, mid, history);
    }

    method PassChunk(d: nat, sector: nat, ghost h: History, ghost before: seq<Disk>, ghost marked: bool, ghost n: int)
      requires InRound(h, before, marked, n) && d < |devs| && sector % CHUNK == 0
      modifies this`devs
      ensures InRound(h, before, marked, n)
      ensures devs == old(devs)[d := old(devs)[d].(curDirty := sector)]
    {
      SetDirtyCursor(d, sector);
    }

    // One round of the loop in mig_save_device_dirty with is_async set.
    method DirtyRound(d: nat, sector: nat, ghost h: History, ghost before: seq<Disk>, ghost marked: bool, ghost n: int) returns (found: bool)
      requires InRound(h, before, marked, n) && d < |before| && sector % CHUNK == 0 && sector < |before[d]|
      modifies this
      ensures InRound(h, before, marked, if found then n + 1 else n)
      ensures bulkCompleted == old(bulkCompleted)
      ensures devs == if found then old(devs) else old(devs)[d := old(devs)[d].(curDirty := sector + CHUNK)]
      ensures Loc(d, sector / CHUNK) !in dirty && (found ==> JustRead(history.states, Loc(d, sector / CHUNK)))
    {
      var l := Loc(d, sector / CHUNK);
      AwaitInflight(l, h, before, marked, n);
      if l in dirty {
        StartRead(d, sector, l, h, before, marked, n);
        return true;
      }
      PassChunk(d, sector + CHUNK, h, before, marked, n);
      return false;
    }

    // The loop of mig_save_device_dirty, since there were history h, device states was, these
    // disks, n blocks not sent and, if marked, a bit for each read.
    ghost predicate InDevice(h: History, was: seq<Dev>, before: seq<Disk>, n: int, marked: bool, d: nat, sector: nat, at: seq<nat>, found: bool)
      reads this
    {
      && InRound(h, before, marked, if found then n + 1 else n) && |h.states| > 0
      && d < |was| && devs == was[d := was[d].(curDirty := sector)]
      && sector % CHUNK == 0 && Passed(history.states, |h.states| - 1, at, d, was[d].curDirty, sector)
      && (found ==> sector < |before[d]| && JustRead(history.states, Loc(d, sector / CHUNK)))
    }

    lemma PassedRound(old_: seq<State>, base: nat, at: seq<nat>, d: nat, from: nat, sector: nat, found: bool) returns (at': seq<nat>)
      requires Valid() && Passed(old_, base, at, d, from, sector) && old_ <= history.states && base < |history.states|
      requires from % CHUNK == 0 && Loc(d, sector / CHUNK) !in dirty
      ensures Passed(history.states, base, at', d, from, if found then sector else sector + CHUNK)
    {
      PassedLater(old_, history.states, base, base, at, d, from, sector);
      at' := at;
      if !found {
        PassedMore(history.states, base, at, d, from, sector, |history.states| - 1);
        at' := at + [|history.states| - 1];
      }
    }

    // The same round, with the states in which chunks were passed.
    method DirtyTurn(d: nat, sector: nat, ghost at: seq<nat>, ghost h: History, ghost was: seq<Dev>, ghost before: seq<Disk>, ghost n: int,
                     ghost marked: bool) returns (found: bool, ghost at': seq<nat>)
      requires InDevice(h, was, before, n, marked, d, sector, at, false) && sector < |disks[d]| && was[d].curDirty % CHUNK == 0
      modifies this
      ensures InDevice(h, was, before, n, marked, d, if found then sector else sector + CHUNK, at', found)
      ensures bulkCompleted == old(bulkCompleted)
    {
      ghost var mid := history;
      found := DirtyRound(d, sector, mid, before, marked, n);
      AfterTrans(h, mid, history);
      at' := PassedRound(mid.states, |h.states| - 1, at, d, was[d].curDirty, sector, found);
    }

    // mig_save_device_dirty with is_async set
    method SaveDeviceDirty(d: nat) returns (done: bool, ghost at: seq<nat>)
      requires Valid() && Streaming() && Settled(disks, devs) && d < |devs|
      modifies this
      ensures After(old(history), history)
      ensures Valid() && Streaming() && Settled(disks, devs)
      ensures bulkCompleted == old(bulkCompleted)
      ensures |devs| == |old(devs)| && devs == old(devs)[d := old(devs)[d].(curDirty := devs[d].curDirty)]
      ensures |pending| + |queue| == |old(pending)| + |old(queue)| + (if done then 0 else 1)
      ensures done <==> devs[d].curDirty >= |disks[d]|
      ensures Passed(history.states, |old(history).states| - 1, at, d, old(devs)[d].curDirty, devs[d].curDirty)
      ensures !done ==> JustRead(history.states, Loc(d, devs[d].curDirty / CHUNK))
      ensures old(AllMarked(inflight, pending)) ==> AllMarked(inflight, pending)
      ensures SameLayout(disks, old(disks))
    {
      assert ValidDev(|disks[d]|, devs[d]);
      ghost var h, was, before, n, marked := history, devs, disks, |pending| + |queue|, AllMarked(inflight, pending);
      var sector: nat := devs[d].curDirty;
      var found := false;
      at := [];
      while sector < |disks[d]| && !found
        invariant InDevice(h, was, before, n, marked, d, sector, at, found) && bulkCompleted == old(bulkCompleted)
        decreases !found, |before[d]| - sector
      {
        found, at := DirtyTurn(d, sector, at, h, was, before, n, marked);
        if !found {
          sector := sector + CHUNK;
        }
      }
      return sector >= |disks[d]|, at;
    }

    // blk_mig_save_dirty_block has passed all that was left of the devices before d, since
    // there were history h and device states was.
    ghost predicate PastDevices(h: History, was: seq<Dev>, ats: seq<seq<nat>>, d: nat)
      reads this
    {
      && After(h, history) && |h.states| > 0
      && |ats| == d && PassedAll(history.states, |h.states| - 1, ats, disks, was, devs)
      && Swept(history.states, |h.states| - 1, was, devs)
      && (forall e {:trigger was[e]} :: d <= e < |devs| ==> devs[e] == was[e])
    }

    method PassDevice(d: nat, ghost h: History, ghost was: seq<Dev>, ghost ats: seq<seq<nat>>) returns (done: bool, ghost at: seq<nat>)
      requires Valid() && Streaming() && Settled(disks, devs) && d < |devs| && PastDevices(h, was, ats, d)
      modifies this
      ensures Valid() && Streaming() && Settled(disks, devs) && bulkCompleted == old(bulkCompleted)
      ensures |pending| + |queue| == |old(pending)| + |old(queue)| + (if done then 0 else 1)
      ensures done ==> PastDevices(h, was, ats + [at], d + 1)
      ensures After(h, history) && Swept(history.states, |h.states| - 1, was, devs)
      ensures PassedAll(history.states, |h.states| - 1, ats, disks, was, devs)
      ensures !done ==> JustRead(history.states, Loc(d, devs[d].curDirty / CHUNK))
      ensures old(AllMarked(inflight, pending)) ==> AllMarked(inflight, pending)
    {
      ghost var before, cursors, base: nat := history, devs, |h.states| - 1;
      assert ValidDev(|disks[d]|, devs[d]);
      done, at := SaveDeviceDirty(d);
      AfterTrans(h, before, history);
      SweptOne(history.states, |before.states| - 1, cursors, devs, d, at);
      SweptJoin(before.states, history.states, base, |before.states| - 1, was, cursors, devs);
      forall e | 0 <= e < d
        ensures Passed(history.states, base, ats[e], e, was[e].curDirty, devs[e].curDirty) && devs[e].curDirty >= |disks[e]|
      {
        PassedLater(before.states, history.states, base, base, ats[e], e, was[e].curDirty, devs[e].curDirty);
      }
      assert was[d] == cursors[d];
      PassedLater(history.states, history.states, |before.states| - 1, base, at, d, was[d].curDirty, devs[d].curDirty);
    }

    // blk_mig_save_dirty_block with is_async set: it starts one read, of the first dirty
    // chunk ahead of a cursor, or every device's cursor passes all that is left of it.
    method SaveDirtyBlock() returns (more: bool, ghost ats: seq<seq<nat>>)
      requires Valid() && Streaming() && Settled(disks, devs)
      modifies this
      ensures After(old(history), history)
      ensures Valid() && Streaming() && Settled(disks, devs) && bulkCompleted == old(bulkCompleted)
      ensures |pending| + |queue| == |old(pending)| + |old(queue)| + (if more then 1 else 0)
      ensures |devs| == |old(devs)| == |disks| && |ats| <= |devs| && (more <==> |ats| < |devs|)
      ensures PassedAll(history.states, |old(history).states| - 1, ats, disks, old(devs), devs)
      ensures !more ==> AtEnd(disks, devs)
      ensures more ==> JustRead(history.states, Loc(|ats|, devs[|ats|].curDirty / CHUNK))
      ensures Swept(history.states, |old(history).states| - 1, old(devs), devs)
      ensures old(AllMarked(inflight, pending)) ==> AllMarked(inflight, pending)
    {
      ats := [];
      ghost var h, was := history, devs;
      SweptNone(history.states, |history.states| - 1, devs, devs);
      for d := 0 to |devs|
        invariant Valid() && Streaming() && Settled(disks, devs) && bulkCompleted == old(bulkCompleted)
        invariant |pending| + |queue| == |old(pending)| + |old(queue)|
        invariant PastDevices(h, was, ats, d)
        invariant old(AllMarked(inflight, pending)) ==> AllMarked(inflight, pending)
      {
        var done, at := PassDevice(d, h, was, ats);
        if !done {
          return true, ats;
        }
        ats := ats + [at];
      }
      PassedEnds(history.states, |h.states| - 1, ats, disks, was, devs);
      return false, ats;
    }

    // blk_mig_reset_dirty_cursor
    method ResetDirtyCursors()
      requires Shape()
      modifies this`devs
      ensures Shape() && Spec() == old(Spec()) && (old(Settled(disks, devs)) ==> Settled(disks, devs))
      ensures |devs| == |old(devs)| && forall d :: 0 <= d < |devs| ==> devs[d] == old(devs)[d].(curDirty := 0)
    {
      for d := 0 to |devs|
        invariant Shape() && Spec() == old(Spec()) && (old(Settled(disks, devs)) ==> Settled(disks, devs))
        invariant |devs| == |old(devs)|
        invariant forall e :: 0 <= e < d ==> devs[e] == old(devs)[e].(curDirty := 0)
        invariant forall e :: d <= e < |devs| ==> devs[e] == old(devs)[e]
      {
        SetDirtyCursor(d, 0);
      }
    }

    // The bulk phase is over, and each read in flight has a bit of its own.
    ghost predicate MarkedNow()
      reads this
    {
      bulkCompleted && AllMarked(inflight, pending)
    }

    // The body of the rate-controlled loop in block_save_live.
    method SaveRound() returns (more: bool)
      requires Valid() && Streaming() && Settled(disks, devs)
      modifies this
      ensures After(old(history), history)
      ensures Valid() && Streaming() && Settled(disks, devs)
      ensures old(bulkCompleted) ==> bulkCompleted
      ensures more ==>
                || (!old(bulkCompleted) && bulkCompleted)
                || |pending| + |queue| == |old(pending)| + |old(queue)| + 1
      ensures !old(bulkCompleted) ==> more && Backlog(Spec()) == old(Backlog(Spec()))
      ensures |pending| + |queue| <= |old(pending)| + |old(queue)| + 1
      ensures !more ==> AtEnd(disks, devs)
      ensures Swept(history.states, |old(history).states| - 1, old(devs), devs)
      ensures old(MarkedNow()) ==> MarkedNow()
    {
      if !bulkCompleted {
        var saved := SaveBulkedBlock();
        if saved {
          ghost var d :| FirstLeft(old(devs), d) && BulkReads(old(Spec()), d, Spec());
          BulkBacklog(old(Spec()), d, Spec());
        }
        if !saved {
          bulkCompleted := true;
        }
        SweptNone(history.states, |old(history).states| - 1, old(devs), devs);
        return true;
      }
      var left, _ := SaveDirtyBlock();
      return left;
    }

    // An end mark or a progress report.
    method PutReport(r: Rec)
      requires Streaming() && IsReport(r)
      modifies this`stream
      ensures Streaming() && (r == EOS ==> Sections(stream))
    {
      CarriesReport(names, stream, wire, r);
      stream := stream + [r];
    }

    // blk_mig_cleanup drops what is left of blk_list.
    method Cleanup()
      requires Shape() && pending == []
      modifies this`queue, this`readDone
      ensures Shape() && queue == []
    {
      queue, readDone := [], 0;
    }

    // What is read and not sent is part of the backlog.
    lemma BacklogBound()
      requires Shape()
      ensures submitted + readDone <= Backlog(Spec())
    {
      forall d | 0 <= d < |devs| ensures Bulk(devs)[d] <= Chunks(|disks[d]|) {
        assert ValidDev(|disks[d]|, devs[d]);
      }
      LeftNat(disks, Bulk(devs), |devs|);
    }

    // Rounds below the rate, since there were history h, device states was, backlog b and
    // n blocks not sent.
    ghost predicate InRounds(h: History, was: seq<Dev>, marked: bool, b: int, n: int, rate: int, more: bool)
      reads this
    {
      && (marked ==> MarkedNow())
      && After(h, history) && Valid() && Streaming() && Settled(disks, devs)
      && |h.states| > 0 && Swept(history.states, |h.states| - 1, was, devs)
      && (bulkCompleted || (more && Backlog(Spec()) == b))
      && Bounded(|pending| + |queue|, n, rate) && (!more ==> AtEnd(disks, devs))
    }

    method RoundBelow(rate: nat, ghost h: History, ghost was: seq<Dev>, ghost marked: bool, ghost b: int, ghost n: int) returns (more: bool)
      requires InRounds(h, was, marked, b, n, rate, true) && (submitted + readDone) * BLOCK_SIZE < rate
      modifies this
      ensures InRounds(h, was, marked, b, n, rate, more) && (old(bulkCompleted) ==> bulkCompleted)
      ensures more ==> (!old(bulkCompleted) && bulkCompleted) || submitted + readDone == old(submitted) + old(readDone) + 1
    {
      more := SaveRound();
      AfterTrans(h, old(history), history);
      SweptJoin(old(history).states, history.states, |h.states| - 1, |old(history).states| - 1, was, old(devs), devs);
      BoundedMore(|old(pending)| + |old(queue)|, |pending| + |queue|, n, rate);
    }

    // The rate-controlled loop in block_save_live.  It ends the bulk phase if the rate
    // limit is above the backlog.
    method SaveRounds(rate: nat)
      requires Valid() && Streaming() && Settled(disks, devs)
      modifies this
      ensures After(old(history), history)
      ensures Valid() && Streaming() && Settled(disks, devs)
      ensures old(Backlog(Spec())) * BLOCK_SIZE < rate ==> bulkCompleted
      ensures Bounded(|pending| + |queue|, |old(pending)| + |old(queue)|, rate)
      ensures Reached(|pending| + |queue|, rate) || (bulkCompleted && AtEnd(disks, devs))
      ensures Swept(history.states, |old(history).states| - 1, old(devs), devs)
      ensures old(MarkedNow()) ==> MarkedNow()
    {
      var more := true;
      ghost var h, was, marked, b, n := history, devs, MarkedNow(), Backlog(Spec()), |pending| + |queue|;
      SweptNone(history.states, |history.states| - 1, devs, devs);
      while more && (submitted + readDone) * BLOCK_SIZE < rate
        invariant InRounds(h, was, marked, b, n, rate, more)
        decreases more, !bulkCompleted, rate - (submitted + readDone) * BLOCK_SIZE
      {
        more := RoundBelow(rate, h, was, marked, b, n);
      }
      BacklogBound();
    }

    method BeginPart(first: nat)
      requires Valid() && Streaming() && Settled(disks, devs)
      modifies this
      ensures After(old(history), history)
      ensures Valid() && Streaming() && Settled(disks, devs)
      ensures Backlog(Spec()) <= old(Backlog(Spec())) && |pending| + |queue| <= |old(pending)| + |old(queue)|
      ensures forall d :: 0 <= d < |devs| ==> devs[d].curDirty == 0
      ensures old(MarkedNow()) ==> MarkedNow()
    {
      FlushBlks(first);
      ResetDirtyCursors();
    }

    method WorkPart(first: nat, rate: nat)
      requires Valid() && Streaming() && Settled(disks, devs)
      modifies this
      ensures After(old(history), history)
      ensures Valid() && Streaming() && Settled(disks, devs)
      ensures old(Backlog(Spec())) * BLOCK_SIZE < rate ==> bulkCompleted
      ensures Bounded(|pending| + |queue|, |old(pending)| + |old(queue)|, rate)
      ensures Reached(|pending| + |queue|, rate)
              || (bulkCompleted && EveryCleanOnce(history.states, |old(history).states| - 1, disks))
      ensures old(MarkedNow()) ==> MarkedNow()
    {
      BeginPart(first);
      ghost var a, h, was := |pending| + |queue|, history, devs;
      SaveRounds(rate);
      if AtEnd(disks, devs) {
        SweptAll(history.states, |h.states| - 1, disks, was, devs);
        EveryCleanLater(history.states, history.states, |h.states| - 1, |old(history).states| - 1, disks);
      }
      AfterTrans(old(history), h, history);
      BoundedLess(|pending| + |queue|, |pending| + |queue|, |old(pending)| + |old(queue)|, a, rate);
    }

    method EndPart(last: nat)
      requires Valid() && Streaming()
      modifies this`stream, this`wire, this`queue, this`readDone, this`transferred, this`history
      ensures After(old(history), history)
      ensures Valid() && Streaming() && Sections(stream)
      ensures |queue| <= |old(queue)| <= |queue| + last
    {
      FlushBlks(last);
      PutReport(EOS);
    }

    // block_save_live, stage 2.  rate is the file's rate limit, first and last how many
    // blocks it lets the two flushes send, and quick whether the remaining dirty data is
    // estimated to fit into the allowed downtime.
    method SavePart(rate: nat, first: nat, last: nat, quick: bool) returns (complete: bool)
      requires Valid() && Streaming() && Settled(disks, devs)
      modifies this
      ensures After(old(history), history)
      ensures Valid() && Streaming() && Settled(disks, devs) && Sections(stream)
      ensures complete <==> bulkCompleted && (dirty == {} || quick)
      ensures old(Backlog(Spec())) * BLOCK_SIZE < rate ==> bulkCompleted
      ensures Bounded(|pending| + |queue|, |old(pending)| + |old(queue)|, rate)
      ensures Reached(|pending| + |queue| + last, rate)
              || (bulkCompleted && EveryCleanOnce(history.states, |old(history).states| - 1, disks))
      ensures old(MarkedNow()) ==> MarkedNow()
    {
      WorkPart(first, rate);
      ghost var b, worked := |pending| + |queue|, history.states;
      EndPart(last);
      if EveryCleanOnce(worked, |old(history).states| - 1, disks) {
        EveryCleanLater(worked, history.states, |old(history).states| - 1, |old(history).states| - 1, disks);
      }
      BoundedLess(b, |pending| + |queue|, |old(pending)| + |old(queue)|, |old(pending)| + |old(queue)|, rate);
      ReachedMore(b, |pending| + |queue| + last, rate);
      return bulkCompleted && (dirty == {} || quick);
    }

    // mig_save_device_dirty with is_async clear, on a stopped guest
    method SendDeviceDirty(d: nat) returns (done: bool)
      requires Shape() && Streaming() && Quiet() && CleanCursors(dirty, devs) && d < |devs|
      modifies this`devs, this`stream, this`wire, this`dirty
      ensures Shape() && Streaming() && CleanCursors(dirty, devs) && |devs| == |old(devs)|
      ensures done ==> Spec() == old(Spec()) && CleanBelow(dirty, d, |disks[d]|)
      ensures !done ==> exists l :: SendsNow(old(Spec()), l, Spec())
    {
      assert ValidDev(|disks[d]|, devs[d]);
      assert CleanBelow(dirty, d, devs[d].curDirty);
      var sector := devs[d].curDirty;
      while sector < |disks[d]|
        invariant Shape() && Streaming() && |devs| == |old(devs)| && Spec() == old(Spec())
        invariant sector % CHUNK == 0 && devs[d].curDirty == sector && CleanCursors(dirty, devs)
        invariant CleanBelow(dirty, d, sector)
      {
        if Loc(d, sector / CHUNK) in dirty {
          SendDirty(d, sector);
          return devs[d].curDirty >= |disks[d]|;
        }
        sector := sector + CHUNK;
        SetDirtyCursor(d, sector);
      }
      return devs[d].curDirty >= |disks[d]|;
    }

    // blk_mig_save_dirty_block with is_async clear, on a stopped guest
    method SendDirtyBlock() returns (more: bool)
      requires Shape() && Streaming() && Quiet() && CleanCursors(dirty, devs)
      modifies this`devs, this`stream, this`wire, this`dirty
      ensures Shape() && Streaming() && CleanCursors(dirty, devs)
      ensures more ==> exists l :: SendsNow(old(Spec()), l, Spec())
      ensures !more ==> Spec() == old(Spec()) && dirty == {}
    {
      var n := |devs|;
      for d := 0 to n
        invariant Shape() && Streaming() && |devs| == n && CleanCursors(dirty, devs) && Spec() == old(Spec())
        invariant forall e :: 0 <= e < d ==> CleanBelow(dirty, e, |disks[e]|)
      {
        var done := SendDeviceDirty(d);
        if !done {
          return true;
        }
      }
      assert forall l :: l !in dirty;
      return false;
    }

    // The loop of stage 3: every dirty chunk is sent, once, and none is left.
    method SendAllDirty() returns (ghost sync: seq<Blk>)
      requires Shape() && Streaming() && Quiet() && CleanCursors(dirty, devs)
      modifies this`devs, this`stream, this`wire, this`dirty
      ensures Shape() && Streaming() && dirty == {}
      ensures wire == old(wire) + sync && Resends(disks, old(dirty), sync) && |sync| == |old(dirty)|
    {
      sync := [];
      var more := true;
      while more
        invariant Shape() && Streaming() && Quiet() && CleanCursors(dirty, devs)
        invariant dirty <= old(dirty) && wire == old(wire) + sync
        invariant Resends(disks, old(dirty) - dirty, sync) && |sync| + |dirty| == |old(dirty)|
        invariant !more ==> dirty == {}
        decreases more, |dirty|
      {
        ghost var before := Spec();
        more := SendDirtyBlock();
        if more {
          sync := ResendStep(old(dirty), old(wire), before, Spec(), sync);
        }
      }
      assert old(dirty) - dirty == old(dirty);
    }

    // What stage 3 sends: the queued blocks the rate limit lets through, then the dirty chunks.
    method SendLast(budget: nat) returns (ghost sync: seq<Blk>)
      requires Valid() && Streaming() && Quiet()
      modifies this
      ensures Streaming() && dirty == {} && queue == [] && disks == old(disks)
      ensures var n := if budget < |old(queue)| then budget else |old(queue)|;
              wire == old(wire) + old(queue)[..n] + sync && Resends(disks, old(dirty), sync)
      ensures After(old(history), history) && history.landed == old(history).landed
    {
      FlushBlks(budget);
      ResetDirtyCursors();
      sync := SendAllDirty();
      Cleanup();
    }

    // block_save_live, stage 3, on a stopped guest; the rate limit lets the flush at its
    // start send at most budget blocks.
    method SaveEnd(budget: nat) returns (ghost sync: seq<Blk>)
      requires Valid() && Streaming() && Quiet() && bulkCompleted && Inv(Spec())
      modifies this
      ensures dirty == {} && queue == [] && disks == old(disks)
      ensures Streaming() && Sections(stream)
      ensures After(old(history), history) && history.landed == old(history).landed
      ensures var n := if budget < |old(queue)| then budget else |old(queue)|;
              wire == old(wire) + old(queue)[..n] + sync && Resends(disks, old(dirty), sync)
      ensures forall b :: b in wire ==> ValidBlk(target, b)
      ensures var n := if budget < |old(queue)| then budget else |old(queue)|;
              StoreAll(target, wire) == disks <==> NothingLost(old(Spec()), n)
    {
      ghost var n := if budget < |queue| then budget else |queue|;
      sync := SendLast(budget);
      PutReport(Progress(100));
      PutReport(EOS);
      StageThree(old(Spec()), n, sync);
    }
  }
}
