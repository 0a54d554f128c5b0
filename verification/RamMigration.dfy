/** Live migration of RAM: the sender's ring scan over all pages, guest writes that come
    in between, and what the receiver holds once it has loaded the stream. */
module RamMigration {
  import opened Bytes
  import opened RamStream
  import opened Options

  // The page at an offset of a block.  Blocks do not overlap, so a page and its address
  // name the same dirty flag.
  datatype Pos = Pos(block: int, offset: int)

  function Addr(b: Block, offset: nat): nat {
    b.base + offset
  }

  ghost predicate ValidPos(blocks: seq<Block>, b: int, o: int) {
    0 <= b < |blocks| && 0 <= o < |blocks[b].pages|
  }

  ghost predicate ValidBlock(b: Block) {
    && |b.id| < 256 && b.pages != [] && (|b.pages| + 1) * PAGE <= WORD
    && forall o :: 0 <= o < |b.pages| ==> |b.pages[o]| == PAGE
  }

  ghost predicate ValidBlocks(blocks: seq<Block>) {
    && blocks != [] && (TotalPages(blocks) + 1) * PAGE <= WORD
    && (forall b :: 0 <= b < |blocks| ==> ValidBlock(blocks[b]))
    && (forall b, c {:trigger Apart(blocks[b], blocks[c])} ::
          0 <= b < |blocks| && 0 <= c < |blocks| && b != c ==> Apart(blocks[b], blocks[c]))
  }

  // Two blocks have different names and do not overlap.
  ghost predicate Apart(b: Block, c: Block) {
    b.id != c.id && (b.base + |b.pages| <= c.base || c.base + |c.pages| <= b.base)
  }

  lemma AddrDiffers(blocks: seq<Block>, b: nat, o: nat, c: nat, p: nat)
    requires ValidBlocks(blocks) && ValidPos(blocks, b, o) && ValidPos(blocks, c, p)
    requires b != c || o != p
    ensures Addr(blocks[b], o) != Addr(blocks[c], p)
  {
    if b != c {
      assert Apart(blocks[b], blocks[c]);
    }
  }

  // ----- positions in the ring of all pages

  // The number of pages before block b.
  function Start(blocks: seq<Block>, b: nat): nat
    requires b <= |blocks|
  {
    if b == 0 then 0 else Start(blocks, b - 1) + |blocks[b - 1].pages|
  }

  lemma {:induction false} StartGrows(blocks: seq<Block>, b: nat, c: nat)
    requires b < c <= |blocks|
    ensures Start(blocks, b) + |blocks[b].pages| <= Start(blocks, c)
    decreases c
  {
    if b < c - 1 {
      StartGrows(blocks, b, c - 1);
    }
  }

  lemma PosUnique(blocks: seq<Block>, b: nat, o: nat, c: nat, p: nat)
    requires ValidPos(blocks, b, o) && ValidPos(blocks, c, p)
    requires Start(blocks, b) + o == Start(blocks, c) + p
    ensures b == c && o == p
  {
    if b < c {
      StartGrows(blocks, b, c);
    } else if c < b {
      StartGrows(blocks, c, b);
    }
  }

  lemma PosBelow(blocks: seq<Block>, b: nat, o: nat)
    requires ValidPos(blocks, b, o)
    ensures Start(blocks, b) + o < Start(blocks, |blocks|)
  {
    StartGrows(blocks, b, |blocks|);
  }

  // A scan from index from up to, not including, to meets page f; indices at or past the
  // number n of pages wrap round.
  ghost predicate Between(n: nat, from: nat, to: nat, f: nat) {
    from <= f < to || f + n < to
  }

  // No page met on the way from index from to index to is dirty.
  ghost predicate Clean(blocks: seq<Block>, dirty: set<Pos>, from: nat, to: nat) {
    forall b, o :: ValidPos(blocks, b, o) && Between(Start(blocks, |blocks|), from, to, Start(blocks, b) + o)
      ==> Pos(b, o) !in dirty
  }

  ghost predicate Known(blocks: seq<Block>, flags: set<Pos>) {
    forall p :: p in flags ==> ValidPos(blocks, p.block, p.offset)
  }

  lemma AllClean(blocks: seq<Block>, dirty: set<Pos>, from: nat)
    requires Clean(blocks, dirty, from, from + Start(blocks, |blocks|)) && Known(blocks, dirty)
    requires from < Start(blocks, |blocks|)
    ensures dirty == {}
  {
    forall b, o | ValidPos(blocks, b, o) ensures Pos(b, o) !in dirty {
      PosBelow(blocks, b, o);
    }
    assert forall a :: a !in dirty;
  }

  function NextPos(blocks: seq<Block>, b: nat, o: nat): (nat, nat)
    requires b < |blocks|
  {
    if o + 1 < |blocks[b].pages| then (b, o + 1) else (if b + 1 == |blocks| then 0 else b + 1, 0)
  }

  // The position after (b, o) has the next index, round the ring.
  lemma NextIndex(blocks: seq<Block>, b: nat, o: nat)
    requires ValidPos(blocks, b, o) && forall c :: 0 <= c < |blocks| ==> blocks[c].pages != []
    ensures var (b', o') := NextPos(blocks, b, o);
            var i, n := Start(blocks, b) + o + 1, Start(blocks, |blocks|);
            ValidPos(blocks, b', o') && Start(blocks, b') + o' == if i == n then 0 else i
  {
    var (b', o') := NextPos(blocks, b, o);
    assert ValidPos(blocks, b', o');
    PosBelow(blocks, b', o');
  }

  lemma CleanNext(blocks: seq<Block>, dirty: set<Pos>, from: nat, to: nat, b: nat, o: nat)
    requires Clean(blocks, dirty, from, to) && ValidPos(blocks, b, o) && Pos(b, o) !in dirty
    requires from <= to < from + Start(blocks, |blocks|)
    requires Start(blocks, b) + o == to || Start(blocks, b) + o + Start(blocks, |blocks|) == to
    ensures Clean(blocks, dirty, from, to + 1)
  {
    var n := Start(blocks, |blocks|);
    forall c, p | ValidPos(blocks, c, p) && Between(n, from, to + 1, Start(blocks, c) + p)
      ensures Pos(c, p) !in dirty
    {
      PosBelow(blocks, c, p);
      PosBelow(blocks, b, o);
      if !Between(n, from, to, Start(blocks, c) + p) {
        PosUnique(blocks, b, o, c, p);
      }
    }
  }

  // ----- what the receiver has

  ghost predicate Covered(blocks: seq<Block>, pending: set<Pos>, recv: Recv) {
    && Knows(recv, blocks)
    && forall b, o :: ValidPos(blocks, b, o) ==>
         Pos(b, o) in pending || recv.mem[blocks[b].id][o] == blocks[b].pages[o]
  }

  ghost predicate Same(blocks: seq<Block>, recv: Recv) {
    forall b :: 0 <= b < |blocks| ==> blocks[b].id in recv.mem && recv.mem[blocks[b].id] == blocks[b].pages
  }

  lemma CoveredSame(blocks: seq<Block>, recv: Recv)
    requires Covered(blocks, {}, recv)
    ensures Same(blocks, recv)
  {
    forall b | 0 <= b < |blocks| ensures recv.mem[blocks[b].id] == blocks[b].pages {
      forall o | 0 <= o < |blocks[b].pages| ensures recv.mem[blocks[b].id][o] == blocks[b].pages[o] {
        assert ValidPos(blocks, b, o);
      }
    }
  }

  function Store(recv: Recv, id: Id, offset: nat, page: Page): Recv
    requires id in recv.mem && offset < |recv.mem[id]|
  {
    Recv(recv.mem[id := recv.mem[id][offset := page]], Some(id))
  }

  // A page sent is taken off the list, if it is on it again or is what the sender holds now.
  lemma SendCovers(blocks: seq<Block>, pending: set<Pos>, recv: Recv, b: nat, o: nat, page: Page)
    requires ValidBlocks(blocks) && Covered(blocks, pending + {Pos(b, o)}, recv) && ValidPos(blocks, b, o)
    requires Pos(b, o) in pending || page == blocks[b].pages[o]
    ensures blocks[b].id in recv.mem && o < |recv.mem[blocks[b].id]|
    ensures Covered(blocks, pending, Store(recv, blocks[b].id, o, page))
  {
    assert blocks[b] in blocks;
    var recv' := Store(recv, blocks[b].id, o, page);
    forall c, p | ValidPos(blocks, c, p)
      ensures Pos(c, p) in pending || recv'.mem[blocks[c].id][p] == blocks[c].pages[p]
    {
      assert blocks[c] in blocks;
      assert c != b ==> Apart(blocks[b], blocks[c]);
    }
  }

  lemma CoveredMore(blocks: seq<Block>, pending: set<Pos>, more: set<Pos>, recv: Recv)
    requires Covered(blocks, pending, recv) && pending <= more
    ensures Covered(blocks, more, recv)
  {
  }

  lemma PageItem(recv: Recv, cont: bool, b: Block, offset: nat, page: Page, dup: bool)
    requires ValidBlock(b) && offset < |b.pages| && |page| == PAGE && (dup ==> page == Fill(page[0]))
    requires b.id in recv.mem && |recv.mem[b.id]| == |b.pages| && (cont ==> recv.cur == Some(b.id))
    ensures Item(recv, PutPage(cont, b.id, offset, page, dup), Store(recv, b.id, offset, page))
  {
    var item := PutPage(cont, b.id, offset, page, dup);
    forall rest
      ensures LoadTurn(recv, item + rest) == Turn(Store(recv, b.id, offset, page), rest, false)
    {
      LoadPutPage(recv, cont, b.id, offset, page, dup, rest);
    }
  }

  lemma LastByte(p: nat, x: byte, q: nat, y: byte)
    requires p * 256 + x == q * 256 + y
    ensures p == q && x == y
  {
  }

  lemma RepeatedWord(w: seq<byte>, ch: byte)
    requires |w| == 4
    ensures Get32(w) == Get32([ch, ch, ch, ch]) <==> w == [ch, ch, ch, ch]
  {
    var a: nat, b: nat, c: nat, n: nat := w[0], w[1], w[2], ch;
    if Get32(w) == Get32([ch, ch, ch, ch]) {
      LastByte((a * 256 + b) * 256 + c, w[3], (n * 256 + n) * 256 + n, ch);
      LastByte(a * 256 + b, w[2], n * 256 + n, ch);
      LastByte(a, w[1], n, ch);
    }
  }

  // is_dup_page: compares the page word by word.
  method IsDupPage(page: Page, ch: byte) returns (dup: bool)
    requires |page| == PAGE
    ensures dup <==> page == Fill(ch)
  {
    var val := Get32([ch, ch, ch, ch]);
    for i := 0 to PAGE / 4
      invariant forall k :: 0 <= k < 4 * i ==> page[k] == ch
    {
      var w := page[4 * i..4 * i + 4];
      RepeatedWord(w, ch);
      if Get32(w) != val {
        assert exists k :: 0 <= k < 4 && w[k] != ch;
        return false;
      }
      assert forall k :: 4 * i <= k < 4 * i + 4 ==> page[k] == w[k - 4 * i];
    }
    assert page == Fill(ch);
    return true;
  }

  // Where a scan starts: last_block may still be NULL.
  function From(blocks: seq<Block>, lastBlock: int, lastOffset: nat): nat
    requires -1 <= lastBlock < |blocks|
  {
    Start(blocks, if lastBlock == -1 then 0 else lastBlock) + lastOffset
  }

  // (b, o) is dirty, and is the first such page of the ring from the last position on.
  ghost predicate FirstDirty(blocks: seq<Block>, dirty: set<Pos>, lastBlock: int, lastOffset: nat, b: int, o: int) {
    && -1 <= lastBlock < |blocks| && ValidPos(blocks, b, o) && Pos(b, o) in dirty
    && var n, from, f := Start(blocks, |blocks|), From(blocks, lastBlock, lastOffset), Start(blocks, b) + o;
       Clean(blocks, dirty, from, if from <= f then f else f + n)
  }

  // A scan that began at index from has met no dirty page and is now at (b, o).
  ghost predicate Scanned(blocks: seq<Block>, dirty: set<Pos>, from: nat, to: nat, b: int, o: int) {
    var n := Start(blocks, |blocks|);
    && ValidPos(blocks, b, o) && from < n && from <= to <= from + n
    && Start(blocks, b) + o == (if to < n then to else to - n)
    && Clean(blocks, dirty, from, to)
  }

  lemma ScanOn(blocks: seq<Block>, dirty: set<Pos>, from: nat, to: nat, b: nat, o: nat)
    requires ValidBlocks(blocks) && Scanned(blocks, dirty, from, to, b, o) && to < from + Start(blocks, |blocks|)
    requires Pos(b, o) !in dirty
    ensures var (b', o') := NextPos(blocks, b, o); Scanned(blocks, dirty, from, to + 1, b', o')
  {
    CleanNext(blocks, dirty, from, to, b, o);
    NextIndex(blocks, b, o);
  }

  lemma ScanFound(blocks: seq<Block>, dirty: set<Pos>, lastBlock: int, lastOffset: nat, to: nat, b: nat, o: nat)
    requires -1 <= lastBlock < |blocks| && Scanned(blocks, dirty, From(blocks, lastBlock, lastOffset), to, b, o)
    requires to < From(blocks, lastBlock, lastOffset) + Start(blocks, |blocks|) && Pos(b, o) in dirty
    ensures FirstDirty(blocks, dirty, lastBlock, lastOffset, b, o)
  {
    PosBelow(blocks, b, o);
  }

  // The scan is back at its start exactly when it has met every page.
  lemma ScanEnds(blocks: seq<Block>, dirty: set<Pos>, from: nat, to: nat, b: nat, o: nat, c: nat, p: nat)
    requires ValidBlocks(blocks) && Scanned(blocks, dirty, from, to, b, o) && from < to
    requires ValidPos(blocks, c, p) && from == Start(blocks, c) + p
    ensures Addr(blocks[b], o) == Addr(blocks[c], p) <==> to == from + Start(blocks, |blocks|)
    ensures Addr(blocks[b], o) == Addr(blocks[c], p) ==> b == c && o == p
  {
    if to == from + Start(blocks, |blocks|) {
      PosUnique(blocks, b, o, c, p);
    }
    if b != c || o != p {
      AddrDiffers(blocks, b, o, c, p);
    }
  }

  // The pages visited from index from on, in the order of the ring and less than once around,
  // none of them dirty.
  ghost predicate Visited(blocks: seq<Block>, dirty: set<Pos>, from: nat, seen: seq<Pos>) {
    var n := Start(blocks, |blocks|);
    from < n && |seen| <= n && forall k {:trigger seen[k]} :: 0 <= k < |seen| ==> VisitedAt(blocks, dirty, n, from + k, seen[k])
  }

  // Counting on from 0 in a ring of n pages, index is page f.
  ghost predicate InRing(n: nat, index: int, f: int) {
    f == if index < n then index else index - n
  }

  // Page p is clean and at this place of the ring of n pages.
  ghost predicate VisitedAt(blocks: seq<Block>, dirty: set<Pos>, n: nat, index: nat, p: Pos) {
    && 0 <= p.block < |blocks| && p !in dirty
    && InRing(n, index, Start(blocks, p.block) + p.offset)
  }

  ghost predicate AtMostOnce(seen: seq<Pos>) {
    forall i, j :: 0 <= i < j < |seen| ==> seen[i] != seen[j]
  }

  lemma VisitMore(blocks: seq<Block>, dirty: set<Pos>, from: nat, to: nat, b: nat, o: nat, seen: seq<Pos>)
    requires Visited(blocks, dirty, from, seen) && Scanned(blocks, dirty, from, to, b, o) && to == from + |seen|
    requires to < from + Start(blocks, |blocks|) && Pos(b, o) !in dirty
    ensures Visited(blocks, dirty, from, seen + [Pos(b, o)])
  {
    assert VisitedAt(blocks, dirty, Start(blocks, |blocks|), to, Pos(b, o));
  }

  lemma VisitOnce(blocks: seq<Block>, dirty: set<Pos>, from: nat, seen: seq<Pos>)
    requires Visited(blocks, dirty, from, seen)
    ensures AtMostOnce(seen) && forall p :: p in seen ==> p !in dirty
  {
    var n := Start(blocks, |blocks|);
    forall i, j | 0 <= i < j < |seen| ensures seen[i] != seen[j] {
      assert VisitedAt(blocks, dirty, n, from + i, seen[i]) && VisitedAt(blocks, dirty, n, from + j, seen[j]);
    }
  }

  // One step of that loop.
  method Advance(blocks: seq<Block>, block: nat, offset: nat) returns (b: nat, o: nat)
    requires block < |blocks|
    ensures (b, o) == NextPos(blocks, block, offset)
  {
    b, o := block, offset + 1;
    if o >= |blocks[b].pages| {
      o := 0;
      b := b + 1;
      if b == |blocks| {
        b := 0;
      }
    }
  }

  // The loop of ram_save_block: scan all pages once, from the last position on, for a
  // dirty one.  The first page is dirty as long as last_block is NULL.
  method Scan(blocks: seq<Block>, dirty: set<Pos>, lastBlock: int, lastOffset: nat)
    returns (found: bool, block: nat, offset: nat, ghost seen: seq<Pos>)
    requires ValidBlocks(blocks) && Known(blocks, dirty)
    requires if lastBlock == -1 then lastOffset == 0 && Pos(0, 0) in dirty
             else ValidPos(blocks, lastBlock, lastOffset)
    ensures ValidPos(blocks, block, offset)
    ensures found ==> FirstDirty(blocks, dirty, lastBlock, lastOffset, block, offset)
    ensures !found ==> dirty == {} && block == lastBlock && offset == lastOffset
    ensures Visited(blocks, dirty, From(blocks, lastBlock, lastOffset), seen) && AtMostOnce(seen)
    ensures found ==> InRing(Start(blocks, |blocks|), From(blocks, lastBlock, lastOffset) + |seen|, Start(blocks, block) + offset)
    ensures !found ==> |seen| == Start(blocks, |blocks|)
  {
    block, offset, seen := if lastBlock == -1 then 0 else lastBlock, lastOffset, [];
    ghost var from := From(blocks, lastBlock, lastOffset);
    ghost var to := from;
    PosBelow(blocks, block, offset);
    while true
      invariant Scanned(blocks, dirty, from, to, block, offset)
      invariant to < from + Start(blocks, |blocks|)
      invariant lastBlock == -1 ==> block == 0 && offset == 0
      invariant Visited(blocks, dirty, from, seen) && to == from + |seen|
      decreases from + Start(blocks, |blocks|) - to
    {
      if Pos(block, offset) in dirty {
        ScanFound(blocks, dirty, lastBlock, lastOffset, to, block, offset);
        VisitOnce(blocks, dirty, from, seen);
        return true, block, offset, seen;
      }
      assert lastBlock != -1;
      VisitMore(blocks, dirty, from, to, block, offset, seen);
      seen := seen + [Pos(block, offset)];
      ScanOn(blocks, dirty, from, to, block, offset);
      block, offset := Advance(blocks, block, offset);
      to := to + 1;
      ScanEnds(blocks, dirty, from, to, block, offset, lastBlock, lastOffset);
      if Addr(blocks[block], offset) == Addr(blocks[lastBlock], lastOffset) {
        break;
      }
    }
    AllClean(blocks, dirty, from);
    VisitOnce(blocks, dirty, from, seen);
    return false, block, offset, seen;
  }

  ghost predicate SameRam(a: seq<Block>, b: seq<Block>) {
    && |a| == |b| && TotalPages(a) == TotalPages(b)
    && forall i :: 0 <= i < |a| ==> a[i].id == b[i].id && a[i].base == b[i].base && |a[i].pages| == |b[i].pages|
  }

  lemma SameRamKeeps(a: seq<Block>, b: seq<Block>, flags: set<Pos>)
    requires Known(a, flags) && SameRam(a, b)
    ensures Known(b, flags)
  {
  }

  lemma KnownMore(blocks: seq<Block>, flags: set<Pos>, b: nat, o: nat)
    requires Known(blocks, flags) && ValidPos(blocks, b, o)
    ensures Known(blocks, flags + {Pos(b, o)})
  {
  }

  datatype GuestWrite = GuestWrite(block: nat, offset: nat, page: Page)

  lemma {:induction false} TotalUnchanged(blocks: seq<Block>, b: nat, pages: seq<Page>)
    requires b < |blocks| && |pages| == |blocks[b].pages|
    ensures TotalPages(blocks[b := blocks[b].(pages := pages)]) == TotalPages(blocks)
  {
    var next := blocks[b := blocks[b].(pages := pages)];
    if b == 0 {
      assert next[1..] == blocks[1..];
    } else {
      assert next[1..] == blocks[1..][b - 1 := blocks[b].(pages := pages)];
      TotalUnchanged(blocks[1..], b - 1, pages);
    }
  }

  function Written(blocks: seq<Block>, w: GuestWrite): seq<Block>
    requires w.block < |blocks| && w.offset < |blocks[w.block].pages|
  {
    blocks[w.block := blocks[w.block].(pages := blocks[w.block].pages[w.offset := w.page])]
  }

  // All these writes, in order.
  ghost function WrittenAll(blocks: seq<Block>, writes: seq<GuestWrite>): seq<Block> {
    if writes == [] then blocks else WrittenOne(WrittenAll(blocks, writes[..|writes| - 1]), writes[|writes| - 1])
  }

  ghost function WrittenOne(blocks: seq<Block>, w: GuestWrite): seq<Block> {
    if ValidPos(blocks, w.block, w.offset) then Written(blocks, w) else blocks
  }

  lemma {:induction false} WrittenInTurn(blocks: seq<Block>, a: seq<GuestWrite>, b: seq<GuestWrite>)
    ensures WrittenAll(blocks, a + b) == WrittenAll(WrittenAll(blocks, a), b)
    decreases |b|
  {
    if b == [] {
      assert a + b == a;
    } else {
      var n := |b| - 1;
      assert (a + b)[..|a + b| - 1] == a + b[..n];
      WrittenInTurn(blocks, a, b[..n]);
    }
  }

  function Touched(writes: seq<GuestWrite>): set<Pos> {
    set w | w in writes :: Pos(w.block, w.offset)
  }

  lemma {:induction false} TouchedAll(a: seq<GuestWrite>, b: seq<GuestWrite>)
    ensures Touched(a + b) == Touched(a) + Touched(b)
  {
    forall p | p in Touched(a) + Touched(b) ensures p in Touched(a + b) {
      if p in Touched(a) {
        var w :| w in a && p == Pos(w.block, w.offset);
        assert w in a + b;
      } else {
        var w :| w in b && p == Pos(w.block, w.offset);
        assert w in a + b;
      }
    }
  }

  // What the guest writes around the sending of one page: before the scan, between the reset
  // of the page's flag and the test for a filled page, and while the page is being copied.
  datatype Piece = Piece(bytes: nat, writes: seq<GuestWrite>)
  datatype Pause = Pause(ahead: seq<GuestWrite>, reset: seq<GuestWrite>, pieces: seq<Piece>)

  function PieceWrites(pieces: seq<Piece>): seq<GuestWrite> {
    if pieces == [] then [] else PieceWrites(pieces[..|pieces| - 1]) + pieces[|pieces| - 1].writes
  }

  function SendWrites(p: Pause): seq<GuestWrite> {
    p.reset + PieceWrites(p.pieces)
  }

  lemma WrittenSameRam(blocks: seq<Block>, w: GuestWrite)
    requires ValidPos(blocks, w.block, w.offset)
    ensures SameRam(blocks, Written(blocks, w))
  {
    TotalUnchanged(blocks, w.block, blocks[w.block].pages[w.offset := w.page]);
  }

  lemma WriteKnown(blocks: seq<Block>, flags: set<Pos>, w: GuestWrite)
    requires ValidPos(blocks, w.block, w.offset) && Known(blocks, flags)
    ensures Known(Written(blocks, w), flags)
    ensures Known(Written(blocks, w), flags + {Pos(w.block, w.offset)})
  {
    WrittenSameRam(blocks, w);
    KnownMore(blocks, flags, w.block, w.offset);
    SameRamKeeps(blocks, Written(blocks, w), flags);
    SameRamKeeps(blocks, Written(blocks, w), flags + {Pos(w.block, w.offset)});
  }

  lemma WriteValid(blocks: seq<Block>, w: GuestWrite)
    requires ValidBlocks(blocks) && ValidPos(blocks, w.block, w.offset) && |w.page| == PAGE
    ensures ValidBlocks(Written(blocks, w))
  {
    var next := Written(blocks, w);
    WrittenSameRam(blocks, w);
    forall i, j | 0 <= i < |next| && 0 <= j < |next| && i != j ensures Apart(next[i], next[j]) {
      assert Apart(blocks[i], blocks[j]);
    }
  }

  // A page that is written is, from then on, pending.
  lemma WriteCovers(blocks: seq<Block>, pending: set<Pos>, recv: Recv, w: GuestWrite)
    requires ValidBlocks(blocks) && ValidPos(blocks, w.block, w.offset) && |w.page| == PAGE
    requires Covered(blocks, pending, recv) && Pos(w.block, w.offset) in pending
    ensures ValidBlocks(Written(blocks, w)) && SameRam(blocks, Written(blocks, w))
    ensures Covered(Written(blocks, w), pending, recv)
  {
    var next := Written(blocks, w);
    WriteValid(blocks, w);
    WrittenSameRam(blocks, w);
    forall x | x in next ensures |x.id| < 256 && x.id in recv.mem && |recv.mem[x.id]| == |x.pages| {
      var i :| 0 <= i < |next| && next[i] == x;
      assert blocks[i] in blocks;
    }
    forall c, p | ValidPos(next, c, p)
      ensures Pos(c, p) in pending || recv.mem[next[c].id][p] == next[c].pages[p]
    {
      assert ValidPos(blocks, c, p);
    }
  }

  lemma WriteKeeps(blocks: seq<Block>, dirty: set<Pos>, dirty': set<Pos>, log: set<Pos>, log': set<Pos>, hole: set<Pos>, recv: Recv, w: GuestWrite)
    requires ValidBlocks(blocks) && Known(blocks, dirty) && Known(blocks, log) && Known(blocks, hole)
    requires Covered(blocks, dirty + log + hole, recv) && ValidPos(blocks, w.block, w.offset) && |w.page| == PAGE
    requires var a := {Pos(w.block, w.offset)}; (dirty' == dirty + a && log' == log) || (dirty' == dirty && log' == log + a)
    ensures var next := Written(blocks, w);
            && ValidBlocks(next) && SameRam(blocks, next) && Known(next, dirty') && Known(next, log') && Known(next, hole)
            && Covered(next, dirty' + log' + hole, recv)
  {
    CoveredMore(blocks, dirty + log + hole, dirty' + log' + hole, recv);
    WriteCovers(blocks, dirty' + log' + hole, recv, w);
    WriteKnown(blocks, dirty, w);
    WriteKnown(blocks, log, w);
    WriteKnown(blocks, hole, w);
  }

  // The loops of stage 1 that make sure all dirty bits are set.
  method MarkAll(blocks: seq<Block>) returns (dirty: set<Pos>)
    ensures Known(blocks, dirty)
    ensures forall b, o :: ValidPos(blocks, b, o) ==> Pos(b, o) in dirty
  {
    dirty := {};
    for b := 0 to |blocks|
      invariant Known(blocks, dirty)
      invariant forall c, o :: c < b && ValidPos(blocks, c, o) ==> Pos(c, o) in dirty
    {
      for o := 0 to |blocks[b].pages|
        invariant Known(blocks, dirty)
        invariant forall c, p :: c < b && ValidPos(blocks, c, p) ==> Pos(c, p) in dirty
        invariant forall p :: p < o && ValidPos(blocks, b, p) ==> Pos(b, p) in dirty
      {
        KnownMore(blocks, dirty, b, o);
        dirty := dirty + {Pos(b, o)};
      }
    }
  }

  lemma SmallerSet(s: set<Pos>, t: set<Pos>, p: Pos)
    requires t == s || (p in s && t == s - {p})
    ensures t == s || |t| < |s|
  {
    if t != s {
      assert s == t + {p};
    }
  }

  ghost predicate ValidWrites(blocks: seq<Block>, writes: seq<GuestWrite>) {
    forall w :: w in writes ==> ValidPos(blocks, w.block, w.offset) && |w.page| == PAGE
  }

  lemma SameRamWrites(a: seq<Block>, b: seq<Block>, writes: seq<GuestWrite>)
    requires SameRam(a, b) && ValidWrites(a, writes)
    ensures ValidWrites(b, writes)
  {
    forall w | w in writes ensures ValidPos(b, w.block, w.offset) {
      assert ValidPos(a, w.block, w.offset);
    }
  }

  lemma HeaderItem(recv: Recv, blocks: seq<Block>)
    requires ValidBlocks(blocks) && Knows(recv, blocks)
    ensures Item(recv, Put64(HeaderWord(TotalPages(blocks))) + PutBlocks(blocks), recv)
  {
    assert forall b :: b in blocks ==> b.pages != [];
    forall rest
      ensures LoadTurn(recv, Put64(HeaderWord(TotalPages(blocks))) + PutBlocks(blocks) + rest) == Turn(recv, rest, false)
    {
      LoadPutHeader(recv, blocks, rest);
    }
  }

  function Marked(set_: bool, writes: seq<GuestWrite>): set<Pos> {
    if set_ then Touched(writes) else {}
  }

  lemma MarkedMore(set_: bool, a: seq<GuestWrite>, b: seq<GuestWrite>)
    ensures Marked(set_, a + b) == Marked(set_, a) + Marked(set_, b)
  {
    TouchedAll(a, b);
  }

  // The memory after these writes, and the flags and log with their pages added.
  ghost predicate Ran(was: seq<Block>, blocks: seq<Block>, dirty: set<Pos>, dirty': set<Pos>, log: set<Pos>, log': set<Pos>,
                      tracked: bool, writes: seq<GuestWrite>) {
    && SameRam(was, blocks) && blocks == WrittenAll(was, writes)
    && dirty' == dirty + Marked(tracked, writes) && log' == log + Marked(!tracked, writes)
  }

  lemma RanNone(blocks: seq<Block>, dirty: set<Pos>, log: set<Pos>, tracked: bool)
    ensures Ran(blocks, blocks, dirty, dirty, log, log, tracked, [])
  {
    assert Touched([]) == {};
  }

  lemma RanMore(was: seq<Block>, mid: seq<Block>, blocks: seq<Block>, dirty: set<Pos>, dirty': set<Pos>, dirty'': set<Pos>,
                log: set<Pos>, log': set<Pos>, log'': set<Pos>, tracked: bool, a: seq<GuestWrite>, b: seq<GuestWrite>)
    requires Ran(was, mid, dirty, dirty', log, log', tracked, a) && Ran(mid, blocks, dirty', dirty'', log', log'', tracked, b)
    ensures Ran(was, blocks, dirty, dirty'', log, log'', tracked, a + b)
  {
    WrittenInTurn(was, a, b);
    MarkedMore(tracked, a, b);
    MarkedMore(!tracked, a, b);
  }

  lemma RanOne(blocks: seq<Block>, dirty: set<Pos>, log: set<Pos>, tracked: bool, w: GuestWrite)
    requires ValidPos(blocks, w.block, w.offset)
    ensures var a := {Pos(w.block, w.offset)};
            Ran(blocks, Written(blocks, w), dirty, if tracked then dirty + a else dirty, log, if tracked then log else log + a, tracked, [w])
  {
    WrittenSameRam(blocks, w);
    assert [w][..0] == [];
    assert WrittenAll(blocks, [w][..0]) == blocks;
    assert Touched([w]) == {Pos(w.block, w.offset)};
  }

  lemma RanNext(was: seq<Block>, mid: seq<Block>, blocks: seq<Block>, dirty: set<Pos>, dirty': set<Pos>, dirty'': set<Pos>,
                log: set<Pos>, log': set<Pos>, log'': set<Pos>, tracked: bool, writes: seq<GuestWrite>, i: nat, n: nat)
    requires i < |writes| && n == i + 1
    requires Ran(was, mid, dirty, dirty', log, log', tracked, writes[..i])
    requires Ran(mid, blocks, dirty', dirty'', log', log'', tracked, [writes[i]])
    ensures Ran(was, blocks, dirty, dirty'', log, log'', tracked, writes[..n])
  {
    RanMore(was, mid, blocks, dirty, dirty', dirty'', log, log', log'', tracked, writes[..i], [writes[i]]);
    assert writes[..n] == writes[..i] + [writes[i]];
  }

  lemma RanPiece(was: seq<Block>, mid: seq<Block>, blocks: seq<Block>, dirty: set<Pos>, dirty': set<Pos>, dirty'': set<Pos>,
                 log: set<Pos>, log': set<Pos>, log'': set<Pos>, tracked: bool, pieces: seq<Piece>, i: nat, n: nat)
    requires i < |pieces| && n == i + 1
    requires Ran(was, mid, dirty, dirty', log, log', tracked, PieceWrites(pieces[..i]))
    requires Ran(mid, blocks, dirty', dirty'', log', log'', tracked, pieces[i].writes)
    ensures Ran(was, blocks, dirty, dirty'', log, log'', tracked, PieceWrites(pieces[..n]))
  {
    RanMore(was, mid, blocks, dirty, dirty', dirty'', log, log', log'', tracked, PieceWrites(pieces[..i]), pieces[i].writes);
    assert pieces[..n][..i] == pieces[..i];
  }

  lemma WriteFits(was: seq<Block>, blocks: seq<Block>, writes: seq<GuestWrite>, i: nat)
    requires SameRam(was, blocks) && ValidWrites(was, writes) && i < |writes|
    ensures ValidPos(blocks, writes[i].block, writes[i].offset) && |writes[i].page| == PAGE
  {
    assert writes[i] in writes;
    assert ValidPos(was, writes[i].block, writes[i].offset);
  }

  // A page that is not written keeps its contents.
  lemma {:induction false} PageKept(blocks: seq<Block>, writes: seq<GuestWrite>, b: nat, o: nat)
    requires ValidPos(blocks, b, o) && Pos(b, o) !in Touched(writes)
    ensures ValidPos(WrittenAll(blocks, writes), b, o) && WrittenAll(blocks, writes)[b].pages[o] == blocks[b].pages[o]
    decreases |writes|
  {
    if writes != [] {
      var front, w := writes[..|writes| - 1], writes[|writes| - 1];
      assert w in writes;
      assert forall x :: x in front ==> x in writes;
      PageKept(blocks, front, b, o);
    }
  }

  // What has been copied of a page is what it holds, or the page is pending again.
  ghost predicate Copied(blocks: seq<Block>, pending: set<Pos>, b: nat, o: nat, buf: seq<byte>) {
    && ValidPos(blocks, b, o) && |buf| <= |blocks[b].pages[o]|
    && (Pos(b, o) in pending || buf == blocks[b].pages[o][..|buf|])
  }

  lemma CopiedKept(was: seq<Block>, blocks: seq<Block>, dirty: set<Pos>, dirty': set<Pos>, log: set<Pos>, log': set<Pos>,
                   tracked: bool, writes: seq<GuestWrite>, b: nat, o: nat, buf: seq<byte>)
    requires Ran(was, blocks, dirty, dirty', log, log', tracked, writes) && Copied(was, dirty + log, b, o, buf)
    requires ValidBlocks(was) && ValidBlocks(blocks)
    ensures Copied(blocks, dirty' + log', b, o, buf)
  {
    assert |was[b].pages[o]| == PAGE == |blocks[b].pages[o]|;
    if Pos(b, o) !in Touched(writes) {
      PageKept(was, writes, b, o);
    }
  }

  lemma CopyMore(blocks: seq<Block>, pending: set<Pos>, b: nat, o: nat, buf: seq<byte>, to: nat)
    requires Copied(blocks, pending, b, o, buf) && |buf| <= to <= |blocks[b].pages[o]|
    ensures Copied(blocks, pending, b, o, buf + blocks[b].pages[o][|buf|..to])
  {
    var page := blocks[b].pages[o];
    assert page[..|buf|] + page[|buf|..to] == page[..to];
  }

  ghost predicate ValidPause(blocks: seq<Block>, p: Pause) {
    ValidWrites(blocks, p.ahead) && ValidWrites(blocks, p.reset) && ValidPieces(blocks, p.pieces)
  }

  ghost predicate ValidPieces(blocks: seq<Block>, pieces: seq<Piece>) {
    forall i :: 0 <= i < |pieces| ==> ValidWrites(blocks, pieces[i].writes)
  }

  lemma SameRamPieces(a: seq<Block>, b: seq<Block>, pieces: seq<Piece>)
    requires SameRam(a, b) && ValidPieces(a, pieces)
    ensures ValidPieces(b, pieces)
  {
    forall i | 0 <= i < |pieces| ensures ValidWrites(b, pieces[i].writes) {
      SameRamWrites(a, b, pieces[i].writes);
    }
  }

  ghost predicate ValidPauses(blocks: seq<Block>, guest: seq<Pause>) {
    forall i :: 0 <= i < |guest| ==> ValidPause(blocks, guest[i])
  }

  lemma SameRamPauses(a: seq<Block>, b: seq<Block>, guest: seq<Pause>)
    requires SameRam(a, b) && ValidPauses(a, guest)
    ensures ValidPauses(b, guest)
  {
    forall i | 0 <= i < |guest| ensures ValidPause(b, guest[i]) {
      SameRamWrites(a, b, guest[i].ahead);
      SameRamWrites(a, b, guest[i].reset);
      SameRamPieces(a, b, guest[i].pieces);
    }
  }

  function PauseWrites(guest: seq<Pause>): seq<GuestWrite> {
    if guest == [] then []
    else PauseWrites(guest[..|guest| - 1]) + (guest[|guest| - 1].ahead + SendWrites(guest[|guest| - 1]))
  }

  lemma PauseNext(was: seq<Block>, mid: seq<Block>, guest: seq<Pause>, i: nat, n: nat)
    requires i < |guest| && n == i + 1 && mid == WrittenAll(was, PauseWrites(guest[..i]))
    ensures WrittenAll(mid, guest[i].ahead + SendWrites(guest[i])) == WrittenAll(was, PauseWrites(guest[..n]))
  {
    WrittenInTurn(was, PauseWrites(guest[..i]), guest[i].ahead + SendWrites(guest[i]));
    assert guest[..n][..i] == guest[..i];
  }

  lemma ValidSendWrites(blocks: seq<Block>, p: Pause)
    requires ValidPause(blocks, p)
    ensures ValidWrites(blocks, SendWrites(p))
  {
    ValidPieceWrites(blocks, p.pieces);
  }

  lemma {:induction false} ValidPieceWrites(blocks: seq<Block>, pieces: seq<Piece>)
    requires ValidPieces(blocks, pieces)
    ensures ValidWrites(blocks, PieceWrites(pieces))
  {
    if pieces != [] {
      ValidPieceWrites(blocks, pieces[..|pieces| - 1]);
    }
  }

  lemma NoWrites(blocks: seq<Block>)
    ensures [] + PieceWrites([]) == [] && WrittenAll(blocks, []) == blocks && Touched([]) == {}
  {
  }

  // ----- the loop of stages 1 and 2

  // The flags, the log and the position at a turn of the loop, and whether the loop has ended.
  datatype Moment = Moment(dirty: set<Pos>, log: set<Pos>, lastBlock: int, lastOffset: nat, ended: bool)

  // What one turn makes of them.  The guest's writes ahead of the scan come first.  Unless
  // the loop has ended or nothing is dirty then, the first dirty page in the ring is sent.
  ghost predicate Turned(blocks: seq<Block>, tracked: bool, p: Pause, t: Moment, u: Moment) {
    var seen, later := t.dirty + Marked(tracked, p.ahead), Marked(tracked, SendWrites(p));
    && u.log == t.log + Marked(!tracked, p.ahead) + Marked(!tracked, SendWrites(p))
    && (u.ended <==> t.ended || seen == {})
    && if u.ended then u.dirty == seen + later && u.lastBlock == t.lastBlock && u.lastOffset == t.lastOffset
       else FirstDirty(blocks, seen, t.lastBlock, t.lastOffset, u.lastBlock, u.lastOffset)
            && u.dirty == (seen - {Pos(u.lastBlock, u.lastOffset)}) + later
  }

  ghost predicate Turns(blocks: seq<Block>, tracked: bool, guest: seq<Pause>, turns: seq<Moment>) {
    && |turns| == |guest| + 1 && !turns[0].ended
    && forall i {:trigger TurnedAt(blocks, tracked, guest, turns, i)} ::
         0 <= i < |guest| ==> TurnedAt(blocks, tracked, guest, turns, i)
  }

  ghost predicate TurnedAt(blocks: seq<Block>, tracked: bool, guest: seq<Pause>, turns: seq<Moment>, i: nat) {
    i < |guest| && i + 1 < |turns| && Turned(blocks, tracked, guest[i], turns[i], turns[i + 1])
  }

  lemma TurnsMore(blocks: seq<Block>, tracked: bool, guest: seq<Pause>, i: nat, n: nat, turns: seq<Moment>, u: Moment)
    requires i < |guest| && n == i + 1 && Turns(blocks, tracked, guest[..i], turns)
    requires Turned(blocks, tracked, guest[i], turns[i], u)
    ensures Turns(blocks, tracked, guest[..n], turns + [u])
  {
    var more := turns + [u];
    forall j | 0 <= j < n ensures TurnedAt(blocks, tracked, guest[..n], more, j) {
      if j < i {
        assert TurnedAt(blocks, tracked, guest[..i], turns, j);
      }
    }
  }

  // The number of pages sent in the first n turns.
  ghost function Sent(turns: seq<Moment>, n: nat): nat
    requires n < |turns|
  {
    if n == 0 then 0 else Sent(turns, n - 1) + if turns[n].ended then 0 else 1
  }

  // A turn of the loop found nothing dirty: not before it, and not among the guest's writes.
  ghost predicate FoundClean(tracked: bool, guest: seq<Pause>, turns: seq<Moment>, i: nat) {
    i < |guest| && i < |turns| && turns[i].dirty + Marked(tracked, guest[i].ahead) == {}
  }

  // Every turn sends a page, or those up to the first that finds nothing dirty do.
  lemma {:induction false} SentUntilClean(blocks: seq<Block>, tracked: bool, guest: seq<Pause>, turns: seq<Moment>, n: nat)
    requires Turns(blocks, tracked, guest, turns) && n <= |guest|
    ensures Sent(turns, n) <= n && (turns[n].ended <==> Sent(turns, n) < n)
    ensures turns[n].ended ==> FoundClean(tracked, guest, turns, Sent(turns, n))
  {
    if n > 0 {
      SentUntilClean(blocks, tracked, guest, turns, n - 1);
      assert TurnedAt(blocks, tracked, guest, turns, n - 1);
    }
  }

  // The pages that the loop sends.
  ghost function SentPages(turns: seq<Moment>, n: nat): set<Pos>
    requires n < |turns|
  {
    if n == 0 then {}
    else SentPages(turns, n - 1) + if turns[n].ended then {} else {Pos(turns[n].lastBlock, turns[n].lastOffset)}
  }

  // The guest's writes set no flag while the loop runs.
  ghost predicate NoneMarked(tracked: bool, guest: seq<Pause>) {
    forall i {:trigger guest[i]} :: 0 <= i < |guest| ==>
      Marked(tracked, guest[i].ahead) == {} && Marked(tracked, SendWrites(guest[i])) == {}
  }

  // left is what is left of all once the n pages of sent are gone, one in each of m turns
  // as long as there were any.
  ghost predicate LeftAfter(all: set<Pos>, sent: set<Pos>, left: set<Pos>, n: nat, m: nat) {
    && sent <= all && left == all - sent && |sent| == n
    && n == if m < |all| then m else |all|
  }

  lemma LeftCount(all: set<Pos>, sent: set<Pos>, left: set<Pos>, n: nat, m: nat)
    requires LeftAfter(all, sent, left, n, m)
    ensures |left| == |all| - n && (left == {} <==> n == |all|)
    ensures left == {} ==> LeftAfter(all, sent, left, n, m + 1)
  {
    assert all == left + sent && left * sent == {};
  }

  lemma LeftNext(all: set<Pos>, sent: set<Pos>, left: set<Pos>, n: nat, m: nat, p: Pos, sent': set<Pos>, left': set<Pos>, n': nat, ended: bool)
    requires LeftAfter(all, sent, left, n, m)
    requires ended ==> (left == {} || n < m) && sent' == sent && left' == left && n' == n
    requires !ended ==> n == m && p in left && sent' == sent + {p} && left' == left - {p} && n' == n + 1
    ensures LeftAfter(all, sent', left', n', m + 1)
  {
    LeftCount(all, sent, left, n, m);
  }

  // One page less is dirty, or none was and the loop has ended.
  ghost predicate Falls(t: Moment, u: Moment) {
    var p := Pos(u.lastBlock, u.lastOffset);
    && (u.ended <==> t.ended || t.dirty == {})
    && if u.ended then u.dirty == t.dirty else p in t.dirty && u.dirty == t.dirty - {p}
  }

  ghost predicate FallsAt(turns: seq<Moment>, i: nat) {
    i + 1 < |turns| && Falls(turns[i], turns[i + 1])
  }

  lemma TurnFalls(blocks: seq<Block>, tracked: bool, guest: seq<Pause>, turns: seq<Moment>, i: nat)
    requires Turns(blocks, tracked, guest, turns) && NoneMarked(tracked, guest) && i < |guest|
    ensures FallsAt(turns, i)
  {
    assert TurnedAt(blocks, tracked, guest, turns, i);
    var p := guest[i];
    assert turns[i].dirty + Marked(tracked, p.ahead) == turns[i].dirty;
  }

  lemma {:induction false} FallsToEnd(turns: seq<Moment>, n: nat)
    requires n < |turns| && !turns[0].ended
    requires forall i {:trigger FallsAt(turns, i)} :: 0 <= i < n ==> FallsAt(turns, i)
    ensures LeftAfter(turns[0].dirty, SentPages(turns, n), turns[n].dirty, Sent(turns, n), n)
    ensures turns[n].ended <==> Sent(turns, n) < n
  {
    if n > 0 {
      var u := turns[n];
      FallsToEnd(turns, n - 1);
      assert FallsAt(turns, n - 1);
      LeftNext(turns[0].dirty, SentPages(turns, n - 1), turns[n - 1].dirty, Sent(turns, n - 1), n - 1,
               Pos(u.lastBlock, u.lastOffset), SentPages(turns, n), u.dirty, Sent(turns, n), u.ended);
    }
  }

  // If it sets none, the flags left are those of the pages not sent, and their number falls
  // by the number of turns or to 0.
  lemma SentFalls(blocks: seq<Block>, tracked: bool, guest: seq<Pause>, turns: seq<Moment>, n: nat)
    requires Turns(blocks, tracked, guest, turns) && NoneMarked(tracked, guest) && n <= |guest|
    ensures LeftAfter(turns[0].dirty, SentPages(turns, n), turns[n].dirty, Sent(turns, n), n)
  {
    forall i | 0 <= i < n ensures FallsAt(turns, i) {
      TurnFalls(blocks, tracked, guest, turns, i);
    }
    FallsToEnd(turns, n);
  }

  lemma {:induction false} SameStart(a: seq<Block>, b: seq<Block>, i: nat)
    requires SameRam(a, b) && i <= |a|
    ensures Start(a, i) == Start(b, i)
  {
    if i > 0 {
      SameStart(a, b, i - 1);
    }
  }

  lemma SameFirst(a: seq<Block>, b: seq<Block>, dirty: set<Pos>, lastBlock: int, lastOffset: nat, c: int, o: int)
    requires SameRam(a, b) && FirstDirty(a, dirty, lastBlock, lastOffset, c, o)
    ensures FirstDirty(b, dirty, lastBlock, lastOffset, c, o)
  {
    forall i | 0 <= i <= |a| ensures Start(a, i) == Start(b, i) {
      SameStart(a, b, i);
    }
  }

  // A turn that sends a page, put together from the guest's writes before and during it.
  lemma TurnSends(was: seq<Block>, mid: seq<Block>, blocks: seq<Block>, seen: set<Pos>, log: set<Pos>, tracked: bool, p: Pause,
                  t: Moment, u: Moment)
    requires !t.ended && !u.ended && Ran(was, mid, t.dirty, seen, t.log, log, tracked, p.ahead)
    requires FirstDirty(mid, seen, t.lastBlock, t.lastOffset, u.lastBlock, u.lastOffset)
    requires Ran(mid, blocks, seen - {Pos(u.lastBlock, u.lastOffset)}, u.dirty, log, u.log, tracked, SendWrites(p))
    ensures Turned(was, tracked, p, t, u)
    ensures SameRam(was, blocks) && blocks == WrittenAll(was, p.ahead + SendWrites(p))
  {
    SameFirst(mid, was, seen, t.lastBlock, t.lastOffset, u.lastBlock, u.lastOffset);
    WrittenInTurn(was, p.ahead, SendWrites(p));
  }

  // ... and one that sends none.
  lemma TurnEnds(was: seq<Block>, mid: seq<Block>, blocks: seq<Block>, tracked: bool, p: Pause, t: Moment, m: Moment, u: Moment)
    requires Ran(was, mid, t.dirty, m.dirty, t.log, m.log, tracked, p.ahead)
    requires u.ended && (t.ended || m.dirty == {}) && u.lastBlock == t.lastBlock && u.lastOffset == t.lastOffset
    requires Ran(mid, blocks, m.dirty, u.dirty, m.log, u.log, tracked, SendWrites(p))
    ensures Turned(was, tracked, p, t, u)
    ensures SameRam(was, blocks) && blocks == WrittenAll(was, p.ahead + SendWrites(p))
  {
    WrittenInTurn(was, p.ahead, SendWrites(p));
  }

  lemma SameTurned(a: seq<Block>, b: seq<Block>, tracked: bool, p: Pause, t: Moment, u: Moment)
    requires SameRam(a, b) && Turned(b, tracked, p, t, u)
    ensures Turned(a, tracked, p, t, u)
  {
    if !u.ended {
      SameFirst(b, a, t.dirty + Marked(tracked, p.ahead), t.lastBlock, t.lastOffset, u.lastBlock, u.lastOffset);
    }
  }

  // ----- the records of the pages

  // One byte fills the page.
  ghost predicate Filled(blocks: seq<Block>, b: nat, o: nat) {
    ValidPos(blocks, b, o) && |blocks[b].pages[o]| == PAGE && blocks[b].pages[o] == Fill(blocks[b].pages[o][0])
  }

  // What was put on the stream is the record of page o of a block, continued or named, and
  // counts as one byte if it is a filled page and as a page if not.
  ghost predicate RecordOf(cont: bool, id: Id, o: nat, dup: bool, before: seq<byte>, stream: seq<byte>, bytesSent: nat) {
    && |id| < 256 && bytesSent == (if dup then 1 else PAGE)
    && exists page {:trigger PutPage(cont, id, o, page, dup)} :: |page| == PAGE && stream == before + PutPage(cont, id, o, page, dup)
  }

  // The record of a page whose test comes after the writes reset.
  ghost predicate Recorded(was: seq<Block>, reset: seq<GuestWrite>, cont: bool, b: nat, o: nat, before: seq<byte>, stream: seq<byte>,
                           bytesSent: nat) {
    b < |was| && RecordOf(cont, was[b].id, o, Filled(WrittenAll(was, reset), b, o), before, stream, bytesSent)
  }

  class Saver {
    var blocks: seq<Block>      // ram_list.blocks with their contents
    var dirty: set<Pos>         // pages whose migration dirty flag is set
    var log: set<Pos>           // pages written and not yet synchronized into the flags
    var lastBlock: int          // -1 for NULL
    var lastOffset: nat
    var stream: seq<byte>       // what the running section has put on the stream
    ghost var base: Recv        // the receiver when the section began
    ghost var recv: Recv        // the receiver once it has loaded all of the stream

    // The sender's position is the receiver's current block; before the first record
    // the first page is still dirty.
    ghost predicate ValidCursor(hole: set<Pos>)
      reads this
    {
      if lastBlock == -1 then blocks != [] && lastOffset == 0 && Pos(0, 0) in dirty + hole
      else ValidPos(blocks, lastBlock, lastOffset) && recv.cur == Some(blocks[lastBlock].id)
    }

    // Every page that the receiver does not have as it is now is dirty, or logged, or among
    // those being sent.
    ghost predicate ValidBut(hole: set<Pos>)
      reads this
    {
      && ValidBlocks(blocks) && ValidCursor(hole)
      && Known(blocks, dirty) && Known(blocks, log) && Known(blocks, hole)
      && Items(base, stream, recv)
      && Covered(blocks, dirty + log + hole, recv)
    }

    ghost predicate Valid()
      reads this
    {
      ValidBut({})
    }

    // The guest writes a page; tracked says whether its flag is set at once or only at
    // the next synchronization.
    method Write(w: GuestWrite, tracked: bool, ghost hole: set<Pos>)
      requires ValidBut(hole) && ValidPos(blocks, w.block, w.offset) && |w.page| == PAGE
      modifies this`blocks, this`dirty, this`log
      ensures ValidBut(hole) && Ran(old(blocks), blocks, old(dirty), dirty, old(log), log, tracked, [w])
    {
      var a := Pos(w.block, w.offset);
      var marked := if tracked then dirty + {a} else dirty;
      var logged := if tracked then log else log + {a};
      WriteKeeps(blocks, dirty, marked, log, logged, hole, recv, w);
      RanOne(blocks, dirty, log, tracked, w);
      blocks, dirty, log := Written(blocks, w), marked, logged;
    }

    // The guest makes these writes, in order.
    method GuestRuns(writes: seq<GuestWrite>, tracked: bool, ghost hole: set<Pos>)
      requires ValidBut(hole) && ValidWrites(blocks, writes)
      modifies this`blocks, this`dirty, this`log
      ensures ValidBut(hole) && Ran(old(blocks), blocks, old(dirty), dirty, old(log), log, tracked, writes)
    {
      RanNone(blocks, dirty, log, tracked);
      for i := 0 to |writes|
        invariant ValidBut(hole) && Ran(old(blocks), blocks, old(dirty), dirty, old(log), log, tracked, writes[..i])
      {
        GuestWrites(writes, i, i + 1, tracked, hole, old(blocks), old(dirty), old(log));
      }
      assert writes[..|writes|] == writes;
    }

    method GuestWrites(writes: seq<GuestWrite>, i: nat, n: nat, tracked: bool, ghost hole: set<Pos>,
                       ghost was: seq<Block>, ghost dirty0: set<Pos>, ghost log0: set<Pos>)
      requires ValidBut(hole) && ValidWrites(was, writes) && i < |writes| && n == i + 1
      requires Ran(was, blocks, dirty0, dirty, log0, log, tracked, writes[..i])
      modifies this`blocks, this`dirty, this`log
      ensures ValidBut(hole) && Ran(was, blocks, dirty0, dirty, log0, log, tracked, writes[..n])
    {
      WriteFits(was, blocks, writes, i);
      ghost var mid, dirty1, log1 := blocks, dirty, log;
      Write(writes[i], tracked, hole);
      RanNext(was, mid, blocks, dirty0, dirty1, dirty, log0, log1, log, tracked, writes, i, n);
    }

    // qemu_put_buffer of a page while the guest writes: after the bytes of each piece are
    // copied, its writes are made.
    method CopyOut(block: nat, offset: nat, pieces: seq<Piece>, tracked: bool, ghost hole: set<Pos>) returns (buf: seq<byte>)
      requires ValidBut(hole) && ValidPos(blocks, block, offset) && ValidPieces(blocks, pieces)
      modifies this`blocks, this`dirty, this`log
      ensures ValidBut(hole) && Ran(old(blocks), blocks, old(dirty), dirty, old(log), log, tracked, PieceWrites(pieces))
      ensures |buf| == PAGE && Copied(blocks, dirty + log, block, offset, buf)
    {
      buf := [];
      RanNone(blocks, dirty, log, tracked);
      for i := 0 to |pieces|
        invariant ValidBut(hole) && Ran(old(blocks), blocks, old(dirty), dirty, old(log), log, tracked, PieceWrites(pieces[..i]))
        invariant Copied(blocks, dirty + log, block, offset, buf)
      {
        buf := CopyPiece(block, offset, pieces, i, i + 1, buf, tracked, hole, old(blocks), old(dirty), old(log));
      }
      assert pieces[..|pieces|] == pieces;
      CopyMore(blocks, dirty + log, block, offset, buf, PAGE);
      buf := buf + blocks[block].pages[offset][|buf|..];
    }

    method CopyPiece(block: nat, offset: nat, pieces: seq<Piece>, i: nat, n: nat, buf: seq<byte>, tracked: bool, ghost hole: set<Pos>,
                     ghost was: seq<Block>, ghost dirty0: set<Pos>, ghost log0: set<Pos>) returns (buf': seq<byte>)
      requires ValidBut(hole) && ValidPieces(was, pieces) && i < |pieces| && n == i + 1
      requires Ran(was, blocks, dirty0, dirty, log0, log, tracked, PieceWrites(pieces[..i]))
      requires Copied(blocks, dirty + log, block, offset, buf)
      modifies this`blocks, this`dirty, this`log
      ensures ValidBut(hole) && Ran(was, blocks, dirty0, dirty, log0, log, tracked, PieceWrites(pieces[..n]))
      ensures Copied(blocks, dirty + log, block, offset, buf')
    {
      var page := blocks[block].pages[offset];
      var to := if |buf| + pieces[i].bytes <= |page| then |buf| + pieces[i].bytes else |page|;
      CopyMore(blocks, dirty + log, block, offset, buf, to);
      buf' := buf + page[|buf|..to];
      SameRamPieces(was, blocks, pieces);
      ghost var mid, dirty1, log1 := blocks, dirty, log;
      GuestRuns(pieces[i].writes, tracked, hole);
      CopiedKept(mid, blocks, dirty1, dirty, log1, log, tracked, pieces[i].writes, block, offset, buf');
      RanPiece(was, mid, blocks, dirty0, dirty1, dirty, log0, log1, log, tracked, pieces, i, n);
    }

    method PassPiece(pieces: seq<Piece>, i: nat, n: nat, tracked: bool, ghost hole: set<Pos>,
                     ghost was: seq<Block>, ghost dirty0: set<Pos>, ghost log0: set<Pos>)
      requires ValidBut(hole) && ValidPieces(was, pieces) && i < |pieces| && n == i + 1
      requires Ran(was, blocks, dirty0, dirty, log0, log, tracked, PieceWrites(pieces[..i]))
      modifies this`blocks, this`dirty, this`log
      ensures ValidBut(hole) && Ran(was, blocks, dirty0, dirty, log0, log, tracked, PieceWrites(pieces[..n]))
    {
      SameRamPieces(was, blocks, pieces);
      ghost var mid, dirty1, log1 := blocks, dirty, log;
      GuestRuns(pieces[i].writes, tracked, hole);
      RanPiece(was, mid, blocks, dirty0, dirty1, dirty, log0, log1, log, tracked, pieces, i, n);
    }

    method PassPieces(pieces: seq<Piece>, tracked: bool, ghost hole: set<Pos>)
      requires ValidBut(hole) && ValidPieces(blocks, pieces)
      modifies this`blocks, this`dirty, this`log
      ensures ValidBut(hole) && Ran(old(blocks), blocks, old(dirty), dirty, old(log), log, tracked, PieceWrites(pieces))
    {
      RanNone(blocks, dirty, log, tracked);
      for i := 0 to |pieces|
        invariant ValidBut(hole) && Ran(old(blocks), blocks, old(dirty), dirty, old(log), log, tracked, PieceWrites(pieces[..i]))
      {
        PassPiece(pieces, i, i + 1, tracked, hole, old(blocks), old(dirty), old(log));
      }
      assert pieces[..|pieces|] == pieces;
    }

    // qemu_put_byte of a page that was found filled with one byte, after those writes.
    method CopyByte(block: nat, offset: nat, pieces: seq<Piece>, tracked: bool, ghost hole: set<Pos>) returns (ch: byte)
      requires ValidBut(hole) && ValidPos(blocks, block, offset) && ValidPieces(blocks, pieces)
      requires Copied(blocks, dirty + log, block, offset, Fill(blocks[block].pages[offset][0]))
      modifies this`blocks, this`dirty, this`log
      ensures ValidBut(hole) && Ran(old(blocks), blocks, old(dirty), dirty, old(log), log, tracked, PieceWrites(pieces))
      ensures Copied(blocks, dirty + log, block, offset, Fill(ch))
    {
      ghost var page := Fill(blocks[block].pages[offset][0]);
      PassPieces(pieces, tracked, hole);
      CopiedKept(old(blocks), blocks, old(dirty), dirty, old(log), log, tracked, PieceWrites(pieces), block, offset, page);
      ch := blocks[block].pages[offset][0];
    }

    // The part of ram_save_block that sends one page: its flag is reset, it is tested for
    // being filled with one byte, and copied, with the guest's writes in between.
    method SendPage(block: nat, offset: nat, reset: seq<GuestWrite>, pieces: seq<Piece>, tracked: bool) returns (bytesSent: nat)
      requires Valid() && ValidPos(blocks, block, offset) && ValidWrites(blocks, reset) && ValidPieces(blocks, pieces)
      modifies this`blocks, this`dirty, this`log, this`lastBlock, this`lastOffset, this`stream, this`recv
      ensures Valid() && bytesSent > 0 && lastBlock == block && lastOffset == offset
      ensures Recorded(old(blocks), reset, block == old(lastBlock), block, offset, old(stream), stream, bytesSent)
      ensures Ran(old(blocks), blocks, old(dirty) - {Pos(block, offset)}, dirty, old(log), log, tracked, reset + PieceWrites(pieces))
    {
      ResetFlag(block, offset);
      var dup, page := TakeReset(block, offset, reset, pieces, tracked, {Pos(block, offset)});
      PutRecord(block, offset, page, dup);
      bytesSent := if dup then 1 else PAGE;
    }

    method TakeReset(block: nat, offset: nat, reset: seq<GuestWrite>, pieces: seq<Piece>, tracked: bool, ghost hole: set<Pos>)
      returns (dup: bool, page: Page)
      requires ValidBut(hole) && ValidPos(blocks, block, offset) && ValidWrites(blocks, reset) && ValidPieces(blocks, pieces)
      modifies this`blocks, this`dirty, this`log
      ensures dup <==> Filled(WrittenAll(old(blocks), reset), block, offset)
      ensures ValidBut(hole) && Ran(old(blocks), blocks, old(dirty), dirty, old(log), log, tracked, reset + PieceWrites(pieces))
      ensures |page| == PAGE && (dup ==> page == Fill(page[0])) && Copied(blocks, dirty + log, block, offset, page)
    {
      GuestRuns(reset, tracked, hole);
      ghost var mid, dirty1, log1 := blocks, dirty, log;
      SameRamPieces(old(blocks), blocks, pieces);
      dup, page := TakePage(block, offset, pieces, tracked, hole);
      RanMore(old(blocks), mid, blocks, old(dirty), dirty1, dirty, old(log), log1, log, tracked, reset, PieceWrites(pieces));
    }

    method ResetFlag(block: nat, offset: nat)
      requires Valid() && ValidPos(blocks, block, offset)
      modifies this`dirty
      ensures ValidBut({Pos(block, offset)}) && dirty == old(dirty) - {Pos(block, offset)}
    {
      var pos := Pos(block, offset);
      CoveredMore(blocks, dirty + log + {}, (dirty - {pos}) + log + {pos}, recv);
      dirty := dirty - {pos};
    }

    // is_dup_page, and the bytes that then go out.
    method TakePage(block: nat, offset: nat, pieces: seq<Piece>, tracked: bool, ghost hole: set<Pos>) returns (dup: bool, page: Page)
      requires ValidBut(hole) && ValidPos(blocks, block, offset) && ValidPieces(blocks, pieces)
      modifies this`blocks, this`dirty, this`log
      ensures dup <==> Filled(old(blocks), block, offset)
      ensures ValidBut(hole) && Ran(old(blocks), blocks, old(dirty), dirty, old(log), log, tracked, PieceWrites(pieces))
      ensures |page| == PAGE && (dup ==> page == Fill(page[0])) && Copied(blocks, dirty + log, block, offset, page)
    {
      var p := blocks[block].pages[offset];
      dup := IsDupPage(p, p[0]);
      if dup {
        assert p[..PAGE] == p;
        var ch := CopyByte(block, offset, pieces, tracked, hole);
        page := Fill(ch);
      } else {
        page := CopyOut(block, offset, pieces, tracked, hole);
      }
    }

    // The record of a page.
    method PutRecord(block: nat, offset: nat, page: Page, dup: bool)
      requires ValidBut({Pos(block, offset)}) && |page| == PAGE && (dup ==> page == Fill(page[0]))
      requires Copied(blocks, dirty + log, block, offset, page)
      modifies this`lastBlock, this`lastOffset, this`stream, this`recv
      ensures Valid() && lastBlock == block && lastOffset == offset
      ensures RecordOf(block == old(lastBlock), blocks[block].id, offset, dup, old(stream), stream, if dup then 1 else PAGE)
    {
      var b := blocks[block];
      var cont := block == lastBlock;
      assert page[..PAGE] == page && b.pages[offset][..PAGE] == b.pages[offset];
      SendCovers(blocks, dirty + log, recv, block, offset, page);
      assert b in blocks;
      PageItem(recv, cont, b, offset, page, dup);
      ItemsMore(base, stream, recv, PutPage(cont, b.id, offset, page, dup), Store(recv, b.id, offset, page));
      stream := stream + PutPage(cont, b.id, offset, page, dup);
      recv := Store(recv, b.id, offset, page);
      lastBlock, lastOffset := block, offset;
      CoveredMore(blocks, dirty + log, dirty + log + {}, recv);
    }

    // ram_save_block
    method SaveBlock(reset: seq<GuestWrite>, pieces: seq<Piece>, tracked: bool) returns (bytesSent: nat)
      requires Valid() && ValidWrites(blocks, reset) && ValidPieces(blocks, pieces)
      modifies this`blocks, this`dirty, this`log, this`lastBlock, this`lastOffset, this`stream, this`recv
      ensures Valid()
      ensures bytesSent == 0 <==> old(dirty) == {}
      ensures bytesSent == 0 ==> stream == old(stream) && recv == old(recv) && dirty == old(dirty) && log == old(log)
      ensures bytesSent == 0 ==> lastBlock == old(lastBlock) && lastOffset == old(lastOffset) && blocks == old(blocks)
      ensures bytesSent > 0 ==> FirstDirty(old(blocks), old(dirty), old(lastBlock), old(lastOffset), lastBlock, lastOffset)
      ensures bytesSent > 0 ==>
                lastBlock >= 0 && Recorded(old(blocks), reset, lastBlock == old(lastBlock), lastBlock, lastOffset, old(stream), stream, bytesSent)
      ensures bytesSent > 0 ==>
                Ran(old(blocks), blocks, old(dirty) - {Pos(lastBlock, lastOffset)}, dirty, old(log), log, tracked, reset + PieceWrites(pieces))
    {
      var found, block, offset, _ := Scan(blocks, dirty, lastBlock, lastOffset);
      if found {
        bytesSent := SendPage(block, offset, reset, pieces, tracked);
      } else {
        lastBlock, lastOffset := block, offset;
        return 0;
      }
    }

    // Stage 1 of ram_save_live up to the block list: every page is marked dirty.
    constructor Begin(blocks: seq<Block>, recv: Recv)
      requires ValidBlocks(blocks) && Knows(recv, blocks)
      ensures Valid() && this.blocks == blocks && this.recv == recv && stream == []
      ensures log == {} && lastBlock == -1 && lastOffset == 0
      ensures forall b, o :: ValidPos(blocks, b, o) ==> Pos(b, o) in dirty
    {
      this.blocks, this.recv, base := blocks, recv, recv;
      log, stream, lastBlock, lastOffset := {}, [], -1, 0;
      var marked := MarkAll(blocks);
      dirty := marked;
      new;
      assert ValidPos(blocks, 0, 0);
    }

    // cpu_physical_sync_dirty_bitmap
    method Sync()
      requires Valid()
      modifies this`dirty, this`log
      ensures Valid() && log == {} && dirty == old(dirty + log)
    {
      dirty, log := dirty + log, {};
      assert dirty + log + {} == old(dirty + log + {});
    }
  
    method NewSection()
      requires Valid()
      modifies this`base, this`stream
      ensures Valid() && base == recv && stream == []
    {
      base, stream := recv, [];
    }

    // The end mark; what the receiver makes of the section is what this model says it holds.
    method EndSection() returns (section: seq<byte>)
      requires Valid()
      ensures section == stream + EOS
      ensures LoadAll(base, section) == Loaded(recv, [])
    {
      LoadSection(base, stream, recv, []);
      assert EOS + [] == EOS;
      section := stream + EOS;
    }

    // The block list that opens the first section.
    method PutBlockList()
      requires Valid()
      modifies this`stream
      ensures Valid()
      ensures stream == old(stream) + (Put64(HeaderWord(TotalPages(blocks))) + PutBlocks(blocks))
    {
      HeaderItem(recv, blocks);
      ItemsMore(base, stream, recv, Put64(HeaderWord(TotalPages(blocks))) + PutBlocks(blocks), recv);
      stream := stream + (Put64(HeaderWord(TotalPages(blocks))) + PutBlocks(blocks));
    }

    ghost function Now(ended: bool): Moment
      reads this
    {
      Moment(dirty, log, lastBlock, lastOffset, ended)
    }

    // The guest runs for a while, then one page is sent.
    method SaveOne(p: Pause, tracked: bool) returns (sent: nat)
      requires Valid() && ValidPause(blocks, p)
      modifies this`blocks, this`dirty, this`log, this`lastBlock, this`lastOffset, this`stream, this`recv
      ensures Valid() && SameRam(old(blocks), blocks)
      ensures sent == 0 ==> dirty == {} && Ran(old(blocks), blocks, old(dirty), dirty, old(log), log, tracked, p.ahead)
      ensures sent == 0 ==> lastBlock == old(lastBlock) && lastOffset == old(lastOffset)
      ensures sent > 0 ==> Turned(old(blocks), tracked, p, old(Now(false)), Now(false))
      ensures sent > 0 ==> blocks == WrittenAll(old(blocks), p.ahead + SendWrites(p))
      ensures old(stream) <= stream
    {
      GuestRuns(p.ahead, tracked, {});
      SameRamWrites(old(blocks), blocks, p.reset);
      SameRamPieces(old(blocks), blocks, p.pieces);
      sent := SendOne(p, tracked, old(blocks), old(Now(false)));
    }

    method SendOne(p: Pause, tracked: bool, ghost was: seq<Block>, ghost t: Moment) returns (sent: nat)
      requires Valid() && ValidWrites(blocks, p.reset) && ValidPieces(blocks, p.pieces)
      requires Ran(was, blocks, t.dirty, dirty, t.log, log, tracked, p.ahead)
      requires t.lastBlock == lastBlock && t.lastOffset == lastOffset && !t.ended
      modifies this`blocks, this`dirty, this`log, this`lastBlock, this`lastOffset, this`stream, this`recv
      ensures Valid()
      ensures sent == 0 ==> dirty == {} && dirty == old(dirty) && log == old(log) && blocks == old(blocks)
      ensures sent == 0 ==> lastBlock == old(lastBlock) && lastOffset == old(lastOffset)
      ensures sent > 0 ==> Turned(was, tracked, p, t, Now(false))
      ensures sent > 0 ==> SameRam(was, blocks) && blocks == WrittenAll(was, p.ahead + SendWrites(p))
      ensures old(stream) <= stream
    {
      ghost var mid, seen, log1 := blocks, dirty, log;
      sent := SaveBlock(p.reset, p.pieces, tracked);
      if sent > 0 {
        TurnSends(was, mid, blocks, seen, log1, tracked, p, t, Now(false));
      }
    }

    // One turn of the loop below while the file takes pages and there are any, or what the
    // guest does when the loop has ended.
    method SaveOrRun(p: Pause, ended: bool, tracked: bool) returns (ended': bool)
      requires Valid() && ValidPause(blocks, p)
      modifies this`blocks, this`dirty, this`log, this`lastBlock, this`lastOffset, this`stream, this`recv
      ensures Valid() && SameRam(old(blocks), blocks) && blocks == WrittenAll(old(blocks), p.ahead + SendWrites(p))
      ensures Turned(old(blocks), tracked, p, old(Now(ended)), Now(ended'))
      ensures old(stream) <= stream
    {
      ended' := ended;
      if ended {
        GuestRuns(p.ahead, tracked, {});
      } else {
        var sent := SaveOne(p, tracked);
        if sent > 0 {
          return;
        }
        ended' := true;
      }
      ghost var mid, m := blocks, Now(true);
      ValidSendWrites(old(blocks), p);
      SameRamWrites(old(blocks), blocks, SendWrites(p));
      GuestRuns(SendWrites(p), tracked, {});
      TurnEnds(old(blocks), mid, blocks, tracked, p, old(Now(ended)), m, Now(true));
    }

    // The rate-limited loop of ram_save_live.  The file takes at most |guest| pages.  The
    // guest keeps running: around page i it makes the writes guest[i], and when there is no
    // page to send any more the rest.
    method SaveBlocks(guest: seq<Pause>, tracked: bool) returns (ghost turns: seq<Moment>)
      requires Valid() && ValidPauses(blocks, guest)
      modifies this`blocks, this`dirty, this`log, this`lastBlock, this`lastOffset, this`stream, this`recv
      ensures Valid() && SameRam(old(blocks), blocks) && blocks == WrittenAll(old(blocks), PauseWrites(guest))
      ensures Turns(old(blocks), tracked, guest, turns)
      ensures turns[0] == old(Now(false)) && turns[|guest|] == Now(turns[|guest|].ended)
      ensures old(stream) <= stream
    {
      var ended := false;
      turns := [Now(false)];
      for i := 0 to |guest|
        invariant InLoop(old(blocks), guest, i, tracked, turns, ended) && turns[0] == old(Now(false)) && old(stream) <= stream
      {
        ended, turns := SaveNext(old(blocks), guest, i, i + 1, ended, tracked, turns);
      }
      assert guest[..|guest|] == guest;
    }

    ghost predicate InLoop(was: seq<Block>, guest: seq<Pause>, i: nat, tracked: bool, turns: seq<Moment>, ended: bool)
      reads this
    {
      && Valid() && SameRam(was, blocks) && i <= |guest| && blocks == WrittenAll(was, PauseWrites(guest[..i]))
      && Turns(was, tracked, guest[..i], turns) && turns[i] == Now(ended)
    }

    method SaveNext(ghost was: seq<Block>, guest: seq<Pause>, i: nat, n: nat, ended: bool, tracked: bool, ghost turns: seq<Moment>)
      returns (ended': bool, ghost turns': seq<Moment>)
      requires InLoop(was, guest, i, tracked, turns, ended) && ValidPauses(was, guest) && i < |guest| && n == i + 1
      modifies this`blocks, this`dirty, this`log, this`lastBlock, this`lastOffset, this`stream, this`recv
      ensures InLoop(was, guest, n, tracked, turns', ended') && turns'[0] == turns[0] && old(stream) <= stream
    {
      SameRamPauses(was, blocks, guest);
      ghost var mid := blocks;
      ended' := SaveOrRun(guest[i], ended, tracked);
      PauseNext(was, mid, guest, i, n);
      SameTurned(was, mid, tracked, guest[i], turns[i], Now(ended'));
      TurnsMore(was, tracked, guest, i, n, turns, Now(ended'));
      turns' := turns + [Now(ended')];
    }

    // ram_save_live, stage 1 after the flags are set
    method SaveStart(guest: seq<Pause>, tracked: bool) returns (section: seq<byte>, ghost turns: seq<Moment>)
      requires Valid() && ValidPauses(blocks, guest)
      modifies this
      ensures Valid() && SameRam(old(blocks), blocks) && blocks == WrittenAll(old(blocks), PauseWrites(guest))
      ensures LoadAll(old(recv), section) == Loaded(recv, [])
      ensures Turns(old(blocks), tracked, guest, turns)
      ensures turns[0] == old(Now(false)) && turns[|guest|] == Now(turns[|guest|].ended)
      ensures Put64(HeaderWord(TotalPages(old(blocks)))) + PutBlocks(old(blocks)) <= section
    {
      NewSection();
      PutBlockList();
      turns := SaveBlocks(guest, tracked);
      section := EndSection();
    }

    // ram_save_live, stage 2: the pages logged before the call count as dirty in it.
    method SavePart(guest: seq<Pause>, tracked: bool) returns (section: seq<byte>, ghost turns: seq<Moment>)
      requires Valid() && ValidPauses(blocks, guest)
      modifies this
      ensures Valid() && SameRam(old(blocks), blocks) && blocks == WrittenAll(old(blocks), PauseWrites(guest))
      ensures LoadAll(old(recv), section) == Loaded(recv, [])
      ensures Turns(old(blocks), tracked, guest, turns)
      ensures turns[0] == old(Moment(dirty + log, {}, lastBlock, lastOffset, false)) && turns[|guest|] == Now(turns[|guest|].ended)
    {
      Sync();
      NewSection();
      turns := SaveBlocks(guest, tracked);
      section := EndSection();
    }

    // The last loop of stage 3, regardless of rate limiting, on a stopped guest.
    method SaveAll()
      requires Valid()
      modifies this`blocks, this`dirty, this`log, this`lastBlock, this`lastOffset, this`stream, this`recv
      ensures Valid() && dirty == {} && log == old(log) && blocks == old(blocks)
    {
      var sent := 1;
      while sent != 0
        invariant Valid() && (sent == 0 ==> dirty == {}) && log == old(log) && blocks == old(blocks)
        decreases sent != 0, |dirty|
      {
        sent := SaveStopped();
      }
    }

    method SaveStopped() returns (sent: nat)
      requires Valid()
      modifies this`blocks, this`dirty, this`log, this`lastBlock, this`lastOffset, this`stream, this`recv
      ensures Valid() && log == old(log) && blocks == old(blocks)
      ensures if sent == 0 then dirty == {} else |dirty| < |old(dirty)|
    {
      ghost var before := dirty;
      NoWrites(blocks);
      sent := SaveBlock([], [], true);
      if sent > 0 {
        assert dirty == before - {Pos(lastBlock, lastOffset)};
        SmallerSet(before, dirty, Pos(lastBlock, lastOffset));
      }
    }

    // ram_save_live, stage 3, on a stopped guest: once the section is loaded, the
    // receiver's RAM is the sender's.
    method SaveEnd() returns (section: seq<byte>)
      requires Valid()
      modifies this
      ensures dirty == {} && log == {} && blocks == old(blocks)
      ensures LoadAll(old(recv), section) == Loaded(recv, []) && Same(blocks, recv)
    {
      Sync();
      NewSection();
      SaveAll();
      section := EndSection();
      assert dirty + log + {} == {};
      CoveredSame(blocks, recv);
    }
  }
}
