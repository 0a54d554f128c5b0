/** A whole block migration: the sender's calls with the guest and the devices at work
    between them, the stream, and the receiver. */
module BlockRun {
  import opened Disk
  import opened BlockProtocol
  import opened BlockHistory
  import opened BlockRecords
  import opened BlockMigration
  import opened BlockStream

  // What may happen between two calls of block_save_live.
  datatype Event =
    | Submit(dev: nat, at: nat, data: Disk)   // the guest submits a write
    | Reach(i: nat)                           // the data of a write reaches the image
    | Complete(i: nat)                        // a write completes
    | Copy(i: nat, k: nat)                    // a read copies one sector
    | ReadDone(i: nat)                        // a read completes

  // One call for stage 2 and the events before it.
  datatype Part = Part(events: seq<Event>, rate: nat, first: nat, last: nat, quick: bool)

  // The write an event submits, if it lies within a device of this layout.
  function Asked(layout: seq<Disk>, e: Event): seq<Request> {
    if e.Submit? && e.dev < |layout| && e.at + |e.data| <= |layout[e.dev]| then [Request(e.dev, e.at, e.data)] else []
  }

  function AskedAll(layout: seq<Disk>, events: seq<Event>): seq<Request> {
    if events == [] then [] else AskedAll(layout, events[..|events| - 1]) + Asked(layout, events[|events| - 1])
  }

  function AskedParts(layout: seq<Disk>, parts: seq<Part>): seq<Request> {
    if parts == [] then []
    else AskedParts(layout, parts[..|parts| - 1]) + AskedAll(layout, parts[|parts| - 1].events)
  }

  ghost function TotalChunks(disks: seq<Disk>): int {
    Left(disks, seq(|disks|, _ => 0), |disks|)
  }

  ghost predicate Ready(m: Migration)
    reads m
  {
    m.Valid() && m.Streaming() && Settled(m.disks, m.devs)
  }

  ghost function Unsent(m: Migration): int
    reads m
  {
    |m.pending| + |m.queue|
  }

  lemma SettledKeeps(a: seq<Disk>, b: seq<Disk>, devs: seq<Dev>)
    requires Settled(a, devs) && SameLayout(a, b)
    ensures Settled(b, devs)
  {
  }

  // What the guest and the devices do leaves the backlog as it is.
  lemma EventBacklog(st: State, s: Step, st': State)
    requires |st.bulk| == |st.src| && (s.Land? || s.Mark? || s.Fill? || s.Done?) && Move(st, s, st', true)
    ensures |st'.bulk| == |st'.src| && Backlog(st') == Backlog(st) && |st'.pending| + |st'.queue| == |st.pending| + |st.queue|
  {
    if s.Land? {
      LeftLayout(st.src, st'.src, st.bulk, |st.bulk|);
    }
  }

  // The step an event takes; one that is not possible now does not happen.
  ghost predicate Happens(e: Event, st: State, waiting: seq<Request>, st': State, waiting': seq<Request>) {
    match e
    case Submit(_, _, _) => st' == st && waiting' == waiting + Asked(st.src, e)
    case Reach(i) =>
      if i < |waiting| then
        && Lands(st, waiting[i].dev, waiting[i].at, waiting[i].data, st')
        && waiting' == waiting[..i] + waiting[i + 1..]
      else st' == st && waiting' == waiting
    case Complete(i) => (if i < |st.unmarked| then Marks(st, i, st') else st' == st) && waiting' == waiting
    case Copy(i, k) =>
      (if i < |st.pending| && k < |st.pending[i].buf| then Fills(st, i, k, st') else st' == st) && waiting' == waiting
    case ReadDone(i) =>
      && (if i < |st.pending| && InOrder(st.pending, i) && Full(st.pending[i]) then Completes(st, i, true, st') else st' == st)
      && waiting' == waiting
  }

  ghost predicate SameCounts(st: State, st': State)
    requires |st.bulk| == |st.src|
  {
    && SameLayout(st'.src, st.src) && |st'.bulk| == |st'.src|
    && Backlog(st') == Backlog(st) && |st'.pending| + |st'.queue| == |st.pending| + |st.queue|
  }

  method HandleCopy(m: Migration, e: Event)
    requires Ready(m) && e.Copy?
    modifies m
    ensures Ready(m) && m.history.told == old(m.history).told
    ensures Happens(e, old(m.Spec()), old(m.requests), m.Spec(), m.requests) && SameCounts(old(m.Spec()), m.Spec())
  {
    if e.i < |m.pending| && e.k < |m.pending[e.i].buf| {
      m.FillSector(e.i, e.k);
      EventBacklog(old(m.Spec()), Step.Fill(e.i, e.k), m.Spec());
    }
  }

  method HandleReadDone(m: Migration, e: Event)
    requires Ready(m) && e.ReadDone?
    modifies m
    ensures Ready(m) && m.history.told == old(m.history).told
    ensures Happens(e, old(m.Spec()), old(m.requests), m.Spec(), m.requests) && SameCounts(old(m.Spec()), m.Spec())
  {
    if e.i < |m.pending| && (forall j :: 0 <= j < e.i ==> m.pending[j].loc != m.pending[e.i].loc)
       && (forall k :: 0 <= k < |m.pending[e.i].got| ==> m.pending[e.i].got[k]) {
      m.ReadCallback(e.i);
      EventBacklog(old(m.Spec()), Step.Done(e.i), m.Spec());
    }
  }

  method HandleReach(m: Migration, e: Event)
    requires Ready(m) && e.Reach?
    modifies m
    ensures Ready(m) && m.history.told == old(m.history).told
    ensures Happens(e, old(m.Spec()), old(m.requests), m.Spec(), m.requests) && SameCounts(old(m.Spec()), m.Spec())
  {
    if e.i < |m.requests| {
      ghost var before, r := m.disks, m.requests[e.i];
      m.LandRequest(e.i);
      SettledKeeps(before, m.disks, m.devs);
      EventBacklog(old(m.Spec()), Step.Land(r.dev, r.at, r.data), m.Spec());
    }
  }

  method HandleComplete(m: Migration, e: Event)
    requires Ready(m) && e.Complete?
    modifies m
    ensures Ready(m) && m.history.told == old(m.history).told
    ensures Happens(e, old(m.Spec()), old(m.requests), m.Spec(), m.requests) && SameCounts(old(m.Spec()), m.Spec())
  {
    if e.i < |m.unmarked| {
      m.MarkWrite(e.i);
      EventBacklog(old(m.Spec()), Step.Mark(e.i), m.Spec());
    }
  }

  method HandleSubmit(m: Migration, e: Event)
    requires Ready(m) && e.Submit?
    modifies m
    ensures Ready(m) && m.history.told == old(m.history).told + Asked(old(m.disks), e)
    ensures Happens(e, old(m.Spec()), old(m.requests), m.Spec(), m.requests) && SameCounts(old(m.Spec()), m.Spec())
  {
    if e.dev < |m.disks| && e.at + |e.data| <= |m.disks[e.dev]| {
      m.GuestWrite(e.dev, e.at, e.data);
    }
  }

  // An event takes its step of the protocol.
  method Handle(m: Migration, e: Event)
    requires Ready(m)
    modifies m
    ensures Ready(m) && m.history.told == old(m.history).told + Asked(old(m.disks), e)
    ensures Happens(e, old(m.Spec()), old(m.requests), m.Spec(), m.requests) && SameCounts(old(m.Spec()), m.Spec())
  {
    match e
    case Submit(_, _, _) => HandleSubmit(m, e);
    case Reach(_) => HandleReach(m, e);
    case Complete(_) => HandleComplete(m, e);
    case Copy(_, _) => HandleCopy(m, e);
    case ReadDone(_) => HandleReadDone(m, e);
  }

  lemma AskedLayout(a: seq<Disk>, b: seq<Disk>, e: Event)
    requires SameLayout(a, b)
    ensures Asked(a, e) == Asked(b, e)
  {
  }

  // The first i events have been handled since there were backlog b, u blocks not sent and
  // these writes submitted.
  ghost predicate InEvents(m: Migration, layout: seq<Disk>, b: int, u: int, told: seq<Request>, events: seq<Event>, i: nat)
    reads m
  {
    && Ready(m) && SameLayout(m.disks, layout) && i <= |events|
    && Backlog(m.Spec()) == b && Unsent(m) == u
    && m.history.told == told + AskedAll(layout, events[..i])
  }

  lemma AskedOneMore(layout: seq<Disk>, events: seq<Event>, i: nat, n: nat, disks: seq<Disk>)
    requires i < |events| && n == i + 1 && SameLayout(disks, layout)
    ensures AskedAll(layout, events[..n]) == AskedAll(layout, events[..i]) + Asked(disks, events[i])
  {
    assert events[..n][..i] == events[..i];
    AskedLayout(disks, layout, events[i]);
  }

  method HandleNext(m: Migration, events: seq<Event>, i: nat, n: nat, ghost layout: seq<Disk>, ghost b: int, ghost u: int, ghost told: seq<Request>)
    requires i < |events| && n == i + 1 && InEvents(m, layout, b, u, told, events, i)
    modifies m
    ensures InEvents(m, layout, b, u, told, events, n)
  {
    AskedOneMore(layout, events, i, n, m.disks);
    Regroup(told, AskedAll(layout, events[..i]), Asked(m.disks, events[i]));
    Handle(m, events[i]);
  }

  method HandleAll(m: Migration, events: seq<Event>, ghost layout: seq<Disk>)
    requires Ready(m) && SameLayout(m.disks, layout)
    modifies m
    ensures Ready(m) && SameLayout(m.disks, layout)
    ensures Backlog(m.Spec()) == old(Backlog(m.Spec())) && Unsent(m) == old(Unsent(m))
    ensures m.history.told == old(m.history).told + AskedAll(layout, events)
  {
    ghost var b, u, told := Backlog(m.Spec()), Unsent(m), m.history.told;
    for i := 0 to |events|
      invariant InEvents(m, layout, b, u, told, events, i)
    {
      HandleNext(m, events, i, i + 1, layout, b, u, told);
    }
    assert events[..|events|] == events;
  }

  // What the history of a migration that started in this state says of it.
  ghost predicate Underway(m: Migration, start: State)
    reads m
  {
    && Reaches(start, m.Spec()) && Inv(m.Spec())
    && m.disks == Applied(start.src, m.history.landed)
    && multiset(m.history.told) == multiset(m.requests) + multiset(m.history.landed)
  }

  lemma Sane(m: Migration, start: State)
    requires m.Valid() && m.property == AllGenuine(start) && Init(start)
    ensures Underway(m, start) && SameLayout(m.disks, m.target)
  {
    ReachableSafe(start, m.Spec());
  }

  ghost predicate RatesWithin(parts: seq<Part>, cap: nat) {
    forall p :: p in parts ==> p.rate <= cap * BLOCK_SIZE
  }

  lemma BoundedWithin(n: int, before: int, rate: int, cap: int)
    requires Bounded(n, before, rate) && before <= cap && rate <= cap * BLOCK_SIZE
    ensures n <= cap
  {
  }

  lemma AskedNext(layout: seq<Disk>, parts: seq<Part>, i: nat)
    requires i < |parts|
    ensures AskedParts(layout, parts[..i + 1]) == AskedParts(layout, parts[..i]) + AskedAll(layout, parts[i].events)
  {
    assert parts[..i + 1][..i] == parts[..i];
  }

  // What counts between calls: the writes submitted, whether the bulk phase is over and
  // nothing is dirty, the backlog and the blocks not sent.
  datatype Count = Count(told: seq<Request>, bulk: bool, clean: bool, backlog: int, unsent: int)

  ghost function CountOf(m: Migration): Count
    requires |m.devs| == |m.disks|
    reads m
  {
    Count(m.history.told, m.bulkCompleted, m.dirty == {}, Backlog(m.Spec()), Unsent(m))
  }

  // used calls, the last of which returned complete, have led from count c to count c'.
  ghost predicate Counted(layout: seq<Disk>, parts: seq<Part>, used: nat, complete: bool, c: Count, c': Count, cap: nat) {
    && used <= |parts| && c'.told == c.told + AskedParts(layout, parts[..used])
    && Judged(parts, used, complete, c, c') && Capped(parts, c, c', cap)
  }

  // Completion is reported when the bulk phase is over and the rest is nothing or quick: at
  // the first call if that is quick and its rate above the backlog.
  ghost predicate Judged(parts: seq<Part>, used: nat, complete: bool, c: Count, c': Count)
    requires used <= |parts|
  {
    && (complete ==> c'.bulk)
    && (!complete && used > 0 ==> !c'.bulk || (!c'.clean && !parts[used - 1].quick))
    && (used == 0 ==> c' == c)
    && (used > 0 && parts[0].quick && !Reached(c.backlog, parts[0].rate) ==> complete)
  }

  ghost predicate Capped(parts: seq<Part>, c: Count, c': Count, cap: nat) {
    RatesWithin(parts, cap) && c.unsent <= cap ==> c'.unsent <= cap
  }

  // One call leads from count c to count c'.
  ghost predicate PartCounted(layout: seq<Disk>, p: Part, complete: bool, c: Count, c': Count) {
    && c'.told == c.told + AskedAll(layout, p.events)
    && (complete <==> c'.bulk && (c'.clean || p.quick))
    && (!Reached(c.backlog, p.rate) ==> c'.bulk)
    && Bounded(c'.unsent, c.unsent, p.rate)
  }

  lemma Regroup<T>(x: seq<T>, y: seq<T>, z: seq<T>)
    ensures (x + y) + z == x + (y + z)
  {
  }

  lemma JudgedNext(layout: seq<Disk>, parts: seq<Part>, used: nat, n: nat, complete: bool, c: Count, d: Count, c': Count)
    requires used < |parts| && n == used + 1
    requires Judged(parts, used, false, c, d) && PartCounted(layout, parts[used], complete, d, c')
    ensures Judged(parts, n, complete, c, c')
  {
  }

  lemma CappedNext(layout: seq<Disk>, parts: seq<Part>, p: Part, complete: bool, c: Count, d: Count, c': Count, cap: nat)
    requires p in parts && Capped(parts, c, d, cap) && PartCounted(layout, p, complete, d, c')
    ensures Capped(parts, c, c', cap)
  {
    if RatesWithin(parts, cap) && c.unsent <= cap {
      BoundedWithin(c'.unsent, d.unsent, p.rate, cap);
    }
  }

  lemma CountedNext(layout: seq<Disk>, parts: seq<Part>, used: nat, n: nat, complete: bool, c: Count, d: Count, c': Count, cap: nat)
    requires used < |parts| && n == used + 1
    requires Counted(layout, parts, used, false, c, d, cap) && PartCounted(layout, parts[used], complete, d, c')
    ensures Counted(layout, parts, n, complete, c, c', cap)
  {
    AskedNext(layout, parts, used);
    Regroup(c.told, AskedParts(layout, parts[..used]), AskedAll(layout, parts[used].events));
    JudgedNext(layout, parts, used, n, complete, c, d, c');
    CappedNext(layout, parts, parts[used], complete, c, d, c', cap);
  }

  // The events before a call for stage 2, and the call.
  method OnePart(m: Migration, p: Part, ghost start: State) returns (complete: bool)
    requires Ready(m) && m.property == AllGenuine(start) && Init(start)
    modifies m
    ensures Ready(m) && Sections(m.stream) && PartCounted(m.target, p, complete, old(CountOf(m)), CountOf(m))
  {
    Sane(m, start);
    HandleAll(m, p.events, m.target);
    complete := m.SavePart(p.rate, p.first, p.last, p.quick);
  }

  // migrate_fd_put_ready, call by call, until one call for stage 2 reports completion;
  // used is how many calls were made.
  method Iterate(m: Migration, parts: seq<Part>, ghost start: State, ghost cap: nat) returns (complete: bool, used: nat)
    requires Ready(m) && Sections(m.stream) && m.property == AllGenuine(start) && Init(start)
    modifies m
    ensures Ready(m) && Sections(m.stream) && (complete || used == |parts|)
    ensures Counted(m.target, parts, used, complete, old(CountOf(m)), CountOf(m), cap)
  {
    complete, used := false, 0;
    ghost var c := CountOf(m);
    while used < |parts| && !complete
      invariant Ready(m) && Sections(m.stream)
      invariant Counted(m.target, parts, used, complete, c, CountOf(m), cap)
    {
      ghost var d := CountOf(m);
      complete := OnePart(m, parts[used], start);
      CountedNext(m.target, parts, used, used + 1, complete, c, d, CountOf(m), cap);
      used := used + 1;
    }
  }

  ghost function Sendable(budget: nat, queue: seq<Blk>): nat {
    if budget < |queue| then budget else |queue|
  }

  // The blocks the sender has sent: those it had, as many of the queue as the budget allows,
  // and one of each dirty chunk.
  ghost predicate SentAs(before: State, budget: nat, sync: seq<Blk>, wire: seq<Blk>) {
    && wire == before.wire + before.queue[..Sendable(budget, before.queue)] + sync
    && Resends(before.src, before.dirty, sync)
  }

  // The migration is done, after stage 3 from state before.  The disks hold what they held
  // at the start with these writes applied, in the order they landed, and the blocks sent
  // make the destination equal to them if and only if the last flush lost nothing.
  ghost predicate Completed(m: Migration, start: State, budget: nat, before: State, sync: seq<Blk>)
    reads m
  {
    && Reaches(start, before) && Inv(before) && Stopped(before) && m.disks == before.src && m.dirty == {}
    && m.disks == Applied(start.src, m.history.landed) && multiset(m.history.landed) == multiset(m.history.told)
    && m.Streaming() && Sections(m.stream)
    && SentAs(before, budget, sync, m.wire) && (forall b :: b in m.wire ==> ValidBlk(m.target, b))
    && (StoreAll(m.target, m.wire) == m.disks <==> NothingLost(before, Sendable(budget, before.queue)))
  }

  // vm_stop: the guest's requests and the reads in flight come to an end.
  method StopGuest(m: Migration, ghost start: State) returns (ghost before: State)
    requires Ready(m) && m.bulkCompleted && Init(start) && m.property == AllGenuine(start)
    modifies m
    ensures m.Valid() && m.Streaming() && m.Quiet() && m.bulkCompleted && m.history.told == old(m.history).told
    ensures before == m.Spec() && Reaches(start, before) && Inv(before) && Stopped(before)
    ensures m.disks == Applied(start.src, m.history.landed) && multiset(m.history.landed) == multiset(m.history.told)
    ensures before.wire == old(m.wire) && old(m.queue) <= before.queue && |before.queue| == old(Unsent(m))
  {
    m.AioFlush();
    before := m.Spec();
    Sane(m, start);
  }

  // migrate_fd_put_ready once stage 2 is complete: the guest is stopped, which waits for
  // its requests and for the reads, and stage 3 runs.  before is the state in between.
  method Finish(m: Migration, ghost start: State, budget: nat) returns (ghost before: State, ghost sync: seq<Blk>)
    requires Ready(m) && m.bulkCompleted && Init(start) && m.property == AllGenuine(start)
    modifies m
    ensures Completed(m, start, budget, before, sync) && m.history.told == old(m.history).told
    ensures before.wire == old(m.wire) && old(m.queue) <= before.queue && |before.queue| == old(Unsent(m))
    ensures old(Unsent(m)) <= budget ==> StoreAll(m.target, m.wire) == m.disks
  {
    before := StopGuest(m, start);
    sync := m.SaveEnd(budget);
    FullFlushLosesNothing(before);
  }

  // Stage 1.
  method Launch(names: seq<string>, disks: seq<Disk>, heap: Disk, ghost target: seq<Disk>, ghost start: State) returns (m: Migration)
    requires |names| == |disks| && Distinct(names) && SameLayout(disks, target) && start == Begin(disks, target)
    requires |heap| == CHUNK && forall d :: 0 <= d < |disks| ==> 0 < |disks[d]|
    ensures fresh(m) && m.names == names && m.target == target && m.property == AllGenuine(start) && Init(start)
    ensures Ready(m) && Sections(m.stream) && CountOf(m) == Count([], false, true, TotalChunks(disks), 0)
  {
    GenuineClosed(start);
    m := new Migration.Start(names, disks, heap, target, AllGenuine(start));
  }

  // What the calls amount to from the start.
  lemma CountedSays(layout: seq<Disk>, parts: seq<Part>, used: nat, complete: bool, chunks: int, c: Count, cap: nat)
    requires Counted(layout, parts, used, complete, Count([], false, true, chunks, 0), c, cap) && (complete || used == |parts|)
    ensures used <= |parts| && c.told == AskedParts(layout, parts[..used]) && (complete ==> c.bulk)
    ensures parts != [] && parts[0].quick && chunks * BLOCK_SIZE < parts[0].rate ==> complete
    ensures !complete && parts != [] ==> !c.bulk || (!c.clean && !parts[|parts| - 1].quick)
    ensures RatesWithin(parts, cap) ==> c.unsent <= cap
  {
    assert [] + AskedParts(layout, parts[..used]) == AskedParts(layout, parts[..used]);
  }

  // Stages 1 and 2.
  method SendParts(names: seq<string>, disks: seq<Disk>, heap: Disk, ghost target: seq<Disk>, parts: seq<Part>, ghost start: State, ghost cap: nat)
    returns (m: Migration, complete: bool, used: nat)
    requires |names| == |disks| && Distinct(names) && SameLayout(disks, target) && start == Begin(disks, target)
    requires |heap| == CHUNK && forall d :: 0 <= d < |disks| ==> 0 < |disks[d]|
    ensures fresh(m) && m.names == names && m.target == target && m.property == AllGenuine(start) && Init(start)
    ensures Ready(m) && used <= |parts| && (complete || used == |parts|) && (complete ==> m.bulkCompleted)
    ensures m.history.told == AskedParts(target, parts[..used])
    ensures parts != [] && parts[0].quick && TotalChunks(disks) * BLOCK_SIZE < parts[0].rate ==> complete
    ensures !complete && parts != [] ==> !m.bulkCompleted || (m.dirty != {} && !parts[|parts| - 1].quick)
    ensures RatesWithin(parts, cap) ==> Unsent(m) <= cap
  {
    m := Launch(names, disks, heap, target, start);
    complete, used := Iterate(m, parts, start, cap);
    CountedSays(target, parts, used, complete, TotalChunks(disks), CountOf(m), cap);
  }

  // Stage 3, if stage 2 is complete.
  method Close(m: Migration, complete: bool, ghost start: State, budget: nat) returns (ghost before: State, ghost sync: seq<Blk>)
    requires Ready(m) && Init(start) && m.property == AllGenuine(start) && (complete ==> m.bulkCompleted)
    modifies m
    ensures m.history.told == old(m.history).told
    ensures if complete then Completed(m, start, budget, before, sync)
            else Underway(m, start) && m.bulkCompleted == old(m.bulkCompleted) && m.dirty == old(m.dirty)
    ensures complete && old(Unsent(m)) <= budget ==> StoreAll(m.target, m.wire) == m.disks
  {
    if complete {
      before, sync := Finish(m, start, budget);
    } else {
      Sane(m, start);
      before, sync := m.Spec(), [];
    }
  }

  // The sender.  Its state is always one that the protocol reaches, with every write the
  // guest has submitted applied or waiting.  Once it is done the blocks sent make the
  // destination equal to the source, provided that no call's rate exceeds what the last
  // flush may send.
  method Send(names: seq<string>, disks: seq<Disk>, heap: Disk, ghost target: seq<Disk>, parts: seq<Part>, budget: nat)
    returns (m: Migration, complete: bool, used: nat, ghost before: State, ghost sync: seq<Blk>)
    requires |names| == |disks| && Distinct(names) && SameLayout(disks, target)
    requires |heap| == CHUNK && forall d :: 0 <= d < |disks| ==> 0 < |disks[d]|
    ensures fresh(m) && m.names == names && m.target == target && used <= |parts| && (complete || used == |parts|)
    ensures m.history.told == AskedParts(target, parts[..used])
    ensures parts != [] && parts[0].quick && TotalChunks(disks) * BLOCK_SIZE < parts[0].rate ==> complete
    ensures complete ==> Completed(m, Begin(disks, target), budget, before, sync)
    ensures complete && RatesWithin(parts, budget) ==> StoreAll(target, m.wire) == m.disks
    ensures !complete ==> Underway(m, Begin(disks, target))
    ensures !complete && parts != [] ==> !m.bulkCompleted || (m.dirty != {} && !parts[|parts| - 1].quick)
  {
    ghost var start := Begin(disks, target);
    m, complete, used := SendParts(names, disks, heap, target, parts, start, budget);
    before, sync := Close(m, complete, start, budget);
  }

  // A whole migration.  When the sender is done the receiver has loaded every section
  // without an error, and holds the source's disks if and only if the last flush lost
  // nothing: always when no call's rate exceeds what that flush may send.
  method Migrate(names: seq<string>, disks: seq<Disk>, heap: Disk, target: seq<Disk>, heap': Disk, parts: seq<Part>, budget: nat)
    returns (m: Migration, r: Receiver, complete: bool, used: nat, ret: int, ghost before: State, ghost sync: seq<Blk>)
    requires |names| == |disks| && Distinct(names) && SameLayout(disks, target)
    requires |heap| == |heap'| == CHUNK && forall d :: 0 <= d < |disks| ==> 0 < |disks[d]|
    ensures used <= |parts| && m.history.told == AskedParts(target, parts[..used]) && (complete || used == |parts|)
    ensures parts != [] && parts[0].quick && TotalChunks(disks) * BLOCK_SIZE < parts[0].rate ==> complete
    ensures complete ==> ret == 0
    ensures complete ==> m.disks == Applied(disks, m.history.landed) && multiset(m.history.landed) == multiset(m.history.told)
    ensures complete && RatesWithin(parts, budget) ==> r.disks == m.disks
    ensures complete ==> Completed(m, Begin(disks, target), budget, before, sync)
    ensures complete ==> (r.disks == m.disks <==> NothingLost(before, Sendable(budget, before.queue)))
  {
    m, complete, used, before, sync := Send(names, disks, heap, target, parts, budget);
    r := new Receiver(names, heap', target);
    ret := 0;
    if complete {
      ret := r.LoadAll(m.stream);
      LoadCarried(names, heap', target, m.stream, m.wire);
    }
  }
}
