/** The version 4 RAM migration stream, byte by byte, and the side that loads it. */
module RamStream {

  import opened Bytes
  import opened Options

  // TARGET_PAGE_SIZE
  const PAGE: nat := 4096

  const FLAG_COMPRESS: nat := 0x02
  const FLAG_MEM_SIZE: nat := 0x04
  const FLAG_PAGE: nat := 0x08
  const FLAG_EOS: nat := 0x10
  const FLAG_CONTINUE: nat := 0x20

  const WORD: nat := 0x1_0000_0000_0000_0000

  type Id = seq<byte>
  type Page = seq<byte>

  // flags & flag, for a flag of one bit
  predicate Has(flags: nat, flag: nat)
    requires flag > 0
  {
    flags / flag % 2 == 1
  }

  const HALF: nat := 0x1_0000_0000

  function Put32(v: nat): (s: seq<byte>)
    ensures |s| == 4
  {
    [v / 256 / 256 / 256 % 256, v / 256 / 256 % 256, v / 256 % 256, v % 256]
  }

  function Put64(v: nat): (s: seq<byte>)
    ensures |s| == 8
  {
    Put32(v / HALF) + Put32(v % HALF)
  }

  function Get32(s: seq<byte>): nat
    requires |s| >= 4
  {
    var a: nat, b: nat, c: nat, d: nat := s[0], s[1], s[2], s[3];
    ((a * 256 + b) * 256 + c) * 256 + d
  }

  function Get64(s: seq<byte>): nat
    requires |s| >= 8
  {
    Get32(s) * HALF + Get32(s[4..])
  }

  lemma GetPut32(v: nat, rest: seq<byte>)
    requires v < HALF
    ensures Get32(Put32(v) + rest) == v
  {
    var q1 := v / 256;
    var q2 := q1 / 256;
    var q3 := q2 / 256;
    assert q3 % 256 == q3;
    assert v == q1 * 256 + v % 256 && q1 == q2 * 256 + q1 % 256 && q2 == q3 * 256 + q2 % 256;
  }

  lemma GetPut64(v: nat, rest: seq<byte>)
    requires v < WORD
    ensures Get64(Put64(v) + rest) == v
    ensures (Put64(v) + rest)[8..] == rest
  {
    var s := Put64(v) + rest;
    assert s == Put32(v / HALF) + (Put32(v % HALF) + rest);
    assert s[4..] == Put32(v % HALF) + rest;
    GetPut32(v / HALF, Put32(v % HALF) + rest);
    GetPut32(v % HALF, rest);
  }

  // The receiver: its RAM blocks, and the block the last record named.
  datatype Recv = Recv(mem: map<Id, seq<Page>>, cur: Option<Id>)

  // One turn of the loop in ram_load: a malformed record, or the new state and the rest
  // of the stream, with a note whether this was the end mark.
  datatype Turn = Bad | Turn(recv: Recv, rest: seq<byte>, eos: bool)

  // Reads a length byte and that many bytes.
  function GetId(s: seq<byte>): (r: Option<(Id, seq<byte>)>)
    ensures r.Some? ==> |r.value.1| < |s|
  {
    if |s| == 0 then None
    else
      var n: nat := s[0];
      if |s| < 1 + n then None else Some((s[1..1 + n], s[1 + n..]))
  }

  // Synchronize RAM block list: every block named must be known, with this length.
  function CheckBlocks(mem: map<Id, seq<Page>>, s: seq<byte>, total: nat): (r: Option<seq<byte>>)
    ensures r.Some? ==> |r.value| <= |s|
    decreases |s|
  {
    if total == 0 then Some(s)
    else
      match GetId(s)
      case None => None
      case Some((id, s')) =>
        if |s'| < 8 || id !in mem || |mem[id]| * PAGE != Get64(s') then None
        else
          var left := if Get64(s') <= total then total - Get64(s') else total - Get64(s') + WORD;
          CheckBlocks(mem, s'[8..], left)
  }

  // host_from_stream_offset: the block, and the rest of the stream.
  function Host(recv: Recv, s: seq<byte>, flags: nat): (r: Option<(Id, seq<byte>)>)
    ensures r.Some? ==> |r.value.1| <= |s|
  {
    if Has(flags, FLAG_CONTINUE) then
      (match recv.cur
       case None => None
       case Some(id) => Some((id, s)))
    else
      match GetId(s)
      case None => None
      case Some((id, s')) => if id in recv.mem then Some((id, s')) else None
  }

  function Fill(ch: byte): (p: Page)
    ensures |p| == PAGE && forall k :: 0 <= k < PAGE ==> p[k] == ch
  {
    seq(PAGE, _ => ch)
  }

  // The page a record carries, and the rest of the stream.
  function GetPage(s: seq<byte>, flags: nat): Option<(Page, seq<byte>)> {
    if Has(flags, FLAG_COMPRESS) then
      if |s| < 1 then None else Some((Fill(s[0]), s[1..]))
    else
      if |s| < PAGE then None else Some((s[..PAGE], s[PAGE..]))
  }

  // A page record, after its first word.
  function LoadPage(recv: Recv, s: seq<byte>, addr: nat, flags: nat): Turn {
    match Host(recv, s, flags)
    case None => Bad
    case Some((id, s')) =>
      match GetPage(s', flags)
      case None => Bad
      case Some((page, rest)) =>
        if id !in recv.mem || addr / PAGE >= |recv.mem[id]| then Bad
        else Turn(Recv(recv.mem[id := recv.mem[id][addr / PAGE := page]], Some(id)), rest, Has(flags, FLAG_EOS))
  }

  // The turn, after its first word.
  function WordTurn(recv: Recv, word: nat, s: seq<byte>): Turn {
    var flags := word % PAGE;
    var addr := word - flags;
    match if Has(flags, FLAG_MEM_SIZE) then CheckBlocks(recv.mem, s, addr) else Some(s)
    case None => Bad
    case Some(s') =>
      if Has(flags, FLAG_COMPRESS) || Has(flags, FLAG_PAGE) then LoadPage(recv, s', addr, flags)
      else Turn(recv, s', Has(flags, FLAG_EOS))
  }

  function LoadTurn(recv: Recv, s: seq<byte>): (t: Turn)
    ensures t.Turn? ==> |t.rest| < |s|
  {
    if |s| < 8 then Bad else WordTurn(recv, Get64(s), s[8..])
  }

  // ----- what the sender writes

  function PutId(id: Id): seq<byte>
    requires |id| < 256
  {
    [|id|] + id
  }

  function PageWord(cont: bool, offset: nat, dup: bool): nat {
    offset * PAGE + (if cont then FLAG_CONTINUE else 0) + (if dup then FLAG_COMPRESS else FLAG_PAGE)
  }

  function PutPage(cont: bool, id: Id, offset: nat, page: Page, dup: bool): seq<byte>
    requires |id| < 256 && |page| == PAGE
  {
    Put64(PageWord(cont, offset, dup)) + (if cont then [] else PutId(id)) + (if dup then [page[0]] else page)
  }

  const EOS: seq<byte> := Put64(FLAG_EOS)

  lemma GetPutId(id: Id, rest: seq<byte>)
    requires |id| < 256
    ensures GetId(PutId(id) + rest) == Some((id, rest))
  {
    var s := PutId(id) + rest;
    assert s[0] == |id| && s[1..1 + |id|] == id && s[1 + |id|..] == rest;
  }

  lemma FlagsAbove(offset: nat, flags: nat)
    requires flags < PAGE
    ensures (offset * PAGE + flags) % PAGE == flags
  {
  }

  lemma PageFlags(cont: bool, offset: nat, dup: bool)
    ensures var word := PageWord(cont, offset, dup);
            var flags := word % PAGE;
            && word - flags == offset * PAGE
            && Has(flags, FLAG_CONTINUE) == cont && Has(flags, FLAG_COMPRESS) == dup && Has(flags, FLAG_PAGE) == !dup
            && !Has(flags, FLAG_MEM_SIZE) && !Has(flags, FLAG_EOS)
  {
    FlagsAbove(offset, (if cont then FLAG_CONTINUE else 0) + (if dup then FLAG_COMPRESS else FLAG_PAGE));
  }

  lemma TurnAfterWord(recv: Recv, word: nat, tail: seq<byte>)
    requires word < WORD
    ensures LoadTurn(recv, Put64(word) + tail) == WordTurn(recv, word, tail)
  {
    GetPut64(word, tail);
  }

  lemma HostNamed(recv: Recv, cont: bool, id: Id, flags: nat, tail: seq<byte>)
    requires |id| < 256 && id in recv.mem && (cont ==> recv.cur == Some(id))
    requires Has(flags, FLAG_CONTINUE) == cont
    ensures Host(recv, (if cont then [] else PutId(id)) + tail, flags) == Some((id, tail))
  {
    if cont {
      assert [] + tail == tail;
    } else {
      GetPutId(id, tail);
    }
  }

  lemma DataPage(page: Page, dup: bool, flags: nat, rest: seq<byte>)
    requires |page| == PAGE && (dup ==> page == Fill(page[0])) && Has(flags, FLAG_COMPRESS) == dup
    ensures GetPage((if dup then [page[0]] else page) + rest, flags) == Some((page, rest))
  {
    var s := (if dup then [page[0]] else page) + rest;
    if dup {
      assert s[0] == page[0] && s[1..] == rest;
    } else {
      assert s[..PAGE] == page && s[PAGE..] == rest;
    }
  }

  lemma PageTurn(recv: Recv, cont: bool, id: Id, offset: nat, page: Page, dup: bool, rest: seq<byte>)
    requires |id| < 256 && |page| == PAGE && (dup ==> page == Fill(page[0]))
    requires id in recv.mem && offset < |recv.mem[id]| && (cont ==> recv.cur == Some(id))
    ensures WordTurn(recv, PageWord(cont, offset, dup),
                     (if cont then [] else PutId(id)) + ((if dup then [page[0]] else page) + rest))
         == Turn(Recv(recv.mem[id := recv.mem[id][offset := page]], Some(id)), rest, false)
  {
    var flags := PageWord(cont, offset, dup) % PAGE;
    PageFlags(cont, offset, dup);
    HostNamed(recv, cont, id, flags, (if dup then [page[0]] else page) + rest);
    DataPage(page, dup, flags, rest);
  }

  lemma PutPageRest(a: seq<byte>, b: seq<byte>, c: seq<byte>, rest: seq<byte>)
    ensures a + b + c + rest == a + (b + (c + rest))
  {
  }

  // A page record is read back as the page that was written, whatever follows it.
  lemma LoadPutPage(recv: Recv, cont: bool, id: Id, offset: nat, page: Page, dup: bool, rest: seq<byte>)
    requires |id| < 256 && |page| == PAGE && (dup ==> page == Fill(page[0]))
    requires id in recv.mem && offset < |recv.mem[id]| && (offset + 1) * PAGE <= WORD
    requires cont ==> recv.cur == Some(id)
    ensures LoadTurn(recv, PutPage(cont, id, offset, page, dup) + rest)
         == Turn(Recv(recv.mem[id := recv.mem[id][offset := page]], Some(id)), rest, false)
  {
    var word := PageWord(cont, offset, dup);
    var name := if cont then [] else PutId(id);
    var data := if dup then [page[0]] else page;
    PutPageRest(Put64(word), name, data, rest);
    TurnAfterWord(recv, word, name + (data + rest));
    PageTurn(recv, cont, id, offset, page, dup, rest);
  }

  // ----- the block list at the start of the stream

  datatype Block = Block(id: Id, base: nat, pages: seq<Page>)

  function TotalPages(blocks: seq<Block>): nat {
    if blocks == [] then 0 else |blocks[0].pages| + TotalPages(blocks[1..])
  }

  function PutBlocks(blocks: seq<Block>): seq<byte>
    requires forall b :: b in blocks ==> |b.id| < 256
  {
    if blocks == [] then []
    else PutId(blocks[0].id) + (Put64(|blocks[0].pages| * PAGE) + PutBlocks(blocks[1..]))
  }

  function HeaderWord(total: nat): nat {
    total * PAGE + FLAG_MEM_SIZE
  }

  ghost predicate Knows(recv: Recv, blocks: seq<Block>) {
    forall b :: b in blocks ==> |b.id| < 256 && b.id in recv.mem && |recv.mem[b.id]| == |b.pages|
  }

  // One entry of the list, whatever encodes its length.
  lemma CheckEntry(mem: map<Id, seq<Page>>, id: Id, size: nat, s: seq<byte>, total: nat, left: nat)
    requires |id| < 256 && id in mem && 0 < size == |mem[id]| * PAGE && size + left == total
    requires |s| >= 8 && Get64(s) == size
    ensures CheckBlocks(mem, PutId(id) + s, total) == CheckBlocks(mem, s[8..], left)
  {
    GetPutId(id, s);
  }

  lemma CheckFirst(mem: map<Id, seq<Page>>, id: Id, size: nat, rest: seq<byte>, total: nat, left: nat)
    requires |id| < 256 && id in mem && 0 < size == |mem[id]| * PAGE && size + left == total < WORD
    ensures CheckBlocks(mem, PutId(id) + (Put64(size) + rest), total) == CheckBlocks(mem, rest, left)
  {
    GetPut64(size, rest);
    CheckEntry(mem, id, size, Put64(size) + rest, total, left);
  }

  lemma PutFirst(a: seq<byte>, b: seq<byte>, c: seq<byte>, rest: seq<byte>)
    ensures a + (b + c) + rest == a + (b + (c + rest))
  {
  }

  lemma {:induction false} CheckPutBlocks(recv: Recv, blocks: seq<Block>, total: nat, rest: seq<byte>)
    requires Knows(recv, blocks) && TotalPages(blocks) * PAGE == total < WORD
    requires forall b :: b in blocks ==> b.pages != []
    ensures CheckBlocks(recv.mem, PutBlocks(blocks) + rest, total) == Some(rest)
    decreases |blocks|
  {
    if blocks == [] {
      assert PutBlocks(blocks) + rest == rest;
    } else {
      var b, more := blocks[0], blocks[1..];
      var size, left := |b.pages| * PAGE, TotalPages(more) * PAGE;
      assert b in blocks && forall x :: x in more ==> x in blocks;
      PutFirst(PutId(b.id), Put64(size), PutBlocks(more), rest);
      CheckFirst(recv.mem, b.id, size, PutBlocks(more) + rest, total, left);
      CheckPutBlocks(recv, more, left, rest);
    }
  }

  lemma CheckOther(mem: map<Id, seq<Page>>, id: Id, size: nat, rest: seq<byte>, total: nat)
    requires |id| < 256 && size < WORD && total > 0 && (id !in mem || |mem[id]| * PAGE != size)
    ensures CheckBlocks(mem, PutId(id) + (Put64(size) + rest), total) == None
  {
    GetPut64(size, rest);
    GetPutId(id, Put64(size) + rest);
  }

  // The list is rejected by any other receiver: one that lacks a block, or has it with
  // another length.
  lemma {:induction false} CheckRejects(recv: Recv, blocks: seq<Block>, total: nat, rest: seq<byte>)
    requires !Knows(recv, blocks) && TotalPages(blocks) * PAGE == total < WORD
    requires forall b :: b in blocks ==> |b.id| < 256 && b.pages != []
    ensures CheckBlocks(recv.mem, PutBlocks(blocks) + rest, total) == None
    decreases |blocks|
  {
    var b, more := blocks[0], blocks[1..];
    var size, left := |b.pages| * PAGE, TotalPages(more) * PAGE;
    assert b in blocks && forall x :: x in blocks ==> x == b || x in more;
    PutFirst(PutId(b.id), Put64(size), PutBlocks(more), rest);
    if b.id in recv.mem && |recv.mem[b.id]| == |b.pages| {
      CheckFirst(recv.mem, b.id, size, PutBlocks(more) + rest, total, left);
      CheckRejects(recv, more, left, rest);
    } else {
      CheckOther(recv.mem, b.id, size, PutBlocks(more) + rest, total);
    }
  }

  lemma HeaderFlags(total: nat)
    ensures var flags := HeaderWord(total) % PAGE;
            && HeaderWord(total) - flags == total * PAGE && Has(flags, FLAG_MEM_SIZE)
            && !Has(flags, FLAG_COMPRESS) && !Has(flags, FLAG_PAGE) && !Has(flags, FLAG_EOS)
  {
    assert HeaderWord(total) % PAGE == FLAG_MEM_SIZE;
  }

  lemma ListTurn(recv: Recv, word: nat, flags: nat, bytes: nat, s: seq<byte>, rest: seq<byte>)
    requires flags == word % PAGE && bytes == word - flags && CheckBlocks(recv.mem, s, bytes) == Some(rest)
    requires Has(flags, FLAG_MEM_SIZE) && !Has(flags, FLAG_COMPRESS) && !Has(flags, FLAG_PAGE) && !Has(flags, FLAG_EOS)
    ensures WordTurn(recv, word, s) == Turn(recv, rest, false)
  {
  }

  lemma HeaderTurn(recv: Recv, total: nat, list: seq<byte>, rest: seq<byte>)
    requires CheckBlocks(recv.mem, list + rest, total * PAGE) == Some(rest) && (total + 1) * PAGE <= WORD
    ensures LoadTurn(recv, Put64(HeaderWord(total)) + list + rest) == Turn(recv, rest, false)
  {
    var word := HeaderWord(total);
    HeaderFlags(total);
    ListTurn(recv, word, word % PAGE, total * PAGE, list + rest, rest);
    TurnAfterWord(recv, word, list + rest);
    assert Put64(word) + list + rest == Put64(word) + (list + rest);
  }

  // The block list is accepted by a receiver with the same blocks and changes nothing.
  lemma LoadPutHeader(recv: Recv, blocks: seq<Block>, rest: seq<byte>)
    requires Knows(recv, blocks) && (TotalPages(blocks) + 1) * PAGE <= WORD
    requires forall b :: b in blocks ==> b.pages != []
    ensures LoadTurn(recv, Put64(HeaderWord(TotalPages(blocks))) + PutBlocks(blocks) + rest) == Turn(recv, rest, false)
  {
    CheckPutBlocks(recv, blocks, TotalPages(blocks) * PAGE, rest);
    HeaderTurn(recv, TotalPages(blocks), PutBlocks(blocks), rest);
  }

  // Any other receiver refuses it.
  lemma RefusePutHeader(recv: Recv, blocks: seq<Block>, rest: seq<byte>)
    requires !Knows(recv, blocks) && (TotalPages(blocks) + 1) * PAGE <= WORD
    requires forall b :: b in blocks ==> |b.id| < 256 && b.pages != []
    ensures LoadTurn(recv, Put64(HeaderWord(TotalPages(blocks))) + PutBlocks(blocks) + rest) == Bad
  {
    var word, list := HeaderWord(TotalPages(blocks)), PutBlocks(blocks);
    CheckRejects(recv, blocks, TotalPages(blocks) * PAGE, rest);
    HeaderFlags(TotalPages(blocks));
    TurnAfterWord(recv, word, list + rest);
    assert Put64(word) + list + rest == Put64(word) + (list + rest);
  }

  // ----- sections

  datatype Loaded = Failed | Loaded(recv: Recv, rest: seq<byte>)

  // ram_load: turns of the loop up to and including the end mark.
  function LoadAll(recv: Recv, s: seq<byte>): Loaded
    decreases |s|
  {
    var t := LoadTurn(recv, s);
    if t.Bad? then Failed
    else if t.eos then Loaded(t.recv, t.rest)
    else LoadAll(t.recv, t.rest)
  }

  // item is one record that takes the receiver from recv to recv', whatever follows.
  ghost predicate Item(recv: Recv, item: seq<byte>, recv': Recv) {
    |item| > 0 && forall rest :: LoadTurn(recv, item + rest) == Turn(recv', rest, false)
  }

  // s is a sequence of such records.
  ghost predicate Items(recv: Recv, s: seq<byte>, recv': Recv)
    decreases |s|
  {
    if s == [] then recv' == recv
    else exists n, mid :: 0 < n <= |s| && Item(recv, s[..n], mid) && Items(mid, s[n..], recv')
  }

  lemma {:induction false} ItemsMore(recv: Recv, s: seq<byte>, mid: Recv, item: seq<byte>, recv': Recv)
    requires Items(recv, s, mid) && Item(mid, item, recv')
    ensures Items(recv, s + item, recv')
    decreases |s|
  {
    if s == [] {
      assert s + item == item;
      assert item[..|item|] == item && item[|item|..] == [];
      assert Items(recv', item[|item|..], recv');
    } else {
      var n, next :| 0 < n <= |s| && Item(recv, s[..n], next) && Items(next, s[n..], mid);
      assert (s + item)[..n] == s[..n] && (s + item)[n..] == s[n..] + item;
      ItemsMore(next, s[n..], mid, item, recv');
    }
  }

  lemma LoadEos(recv: Recv, rest: seq<byte>)
    ensures LoadTurn(recv, EOS + rest) == Turn(recv, rest, true)
  {
    TurnAfterWord(recv, FLAG_EOS, rest);
  }

  lemma CutAppend(s: seq<byte>, n: nat, t: seq<byte>)
    requires n <= |s|
    ensures s + t == s[..n] + (s[n..] + t)
  {
  }

  lemma LoadItem(recv: Recv, item: seq<byte>, mid: Recv, rest: seq<byte>)
    requires Item(recv, item, mid)
    ensures LoadAll(recv, item + rest) == LoadAll(mid, rest)
  {
    assert LoadTurn(recv, item + rest) == Turn(mid, rest, false);
  }

  // ram_load on a section applies exactly its records and stops at the end mark.
  lemma {:induction false} LoadSection(recv: Recv, s: seq<byte>, recv': Recv, rest: seq<byte>)
    requires Items(recv, s, recv')
    ensures LoadAll(recv, s + (EOS + rest)) == Loaded(recv', rest)
    decreases |s|
  {
    if s == [] {
      assert s + (EOS + rest) == EOS + rest;
      LoadEos(recv, rest);
    } else {
      var n, mid :| 0 < n <= |s| && Item(recv, s[..n], mid) && Items(mid, s[n..], recv');
      CutAppend(s, n, EOS + rest);
      LoadItem(recv, s[..n], mid, s[n..] + (EOS + rest));
      LoadSection(mid, s[n..], recv', rest);
    }
  }

  class Receiver {
    var mem: map<Id, seq<Page>>
    var cur: Option<Id>         // the static block of host_from_stream_offset

    constructor (mem: map<Id, seq<Page>>)
      ensures this.mem == mem && cur == None
    {
      this.mem, cur := mem, None;
    }

    // The part of ram_load that synchronizes the block list.
    method CheckList(s: seq<byte>, total: nat) returns (ok: bool, rest: seq<byte>)
      ensures CheckBlocks(mem, s, total) == if ok then Some(rest) else None
    {
      rest := s;
      var left: nat := total;
      while left != 0
        invariant CheckBlocks(mem, rest, left) == CheckBlocks(mem, s, total)
        decreases |rest|
      {
        if |rest| == 0 {
          return false, rest;
        }
        var n: nat := rest[0];
        if |rest| < 1 + n + 8 {
          return false, rest;
        }
        var id, after := rest[1..1 + n], rest[1 + n..];
        var length := Get64(after);
        if id !in mem || |mem[id]| * PAGE != length {
          return false, rest;
        }
        left := if length <= left then left - length else left - length + WORD;
        rest := after[8..];
      }
      return true, rest;
    }

    // host_from_stream_offset
    method FindHost(s: seq<byte>, flags: nat) returns (ok: bool, id: Id, rest: seq<byte>)
      ensures Host(Recv(mem, cur), s, flags) == if ok then Some((id, rest)) else None
    {
      if Has(flags, FLAG_CONTINUE) {
        if cur == None {
          return false, [], s;
        }
        return true, cur.value, s;
      }
      if |s| == 0 {
        return false, [], s;
      }
      var n: nat := s[0];
      if |s| < 1 + n {
        return false, [], s;
      }
      id, rest := s[1..1 + n], s[1 + n..];
      ok := id in mem;
    }

    // The part of ram_load that stores a page.
    method StorePage(s: seq<byte>, addr: nat, flags: nat) returns (ok: bool, rest: seq<byte>)
      modifies this
      ensures var t := LoadPage(old(Recv(mem, cur)), s, addr, flags);
              if ok then t == Turn(Recv(mem, cur), rest, Has(flags, FLAG_EOS)) else t == Bad
    {
      var id;
      ok, id, rest := FindHost(s, flags);
      if !ok {
        return;
      }
      if |rest| < (if Has(flags, FLAG_COMPRESS) then 1 else PAGE) || id !in mem || addr / PAGE >= |mem[id]| {
        return false, rest;
      }
      var page;
      if Has(flags, FLAG_COMPRESS) {
        page, rest := Fill(rest[0]), rest[1..];
      } else {
        page, rest := rest[..PAGE], rest[PAGE..];
      }
      mem, cur := mem[id := mem[id][addr / PAGE := page]], Some(id);
    }

    // The body of the loop of ram_load, after its first word.
    method TakeWord(word: nat, s: seq<byte>) returns (ok: bool, rest: seq<byte>, eos: bool)
      modifies this
      ensures var t := WordTurn(old(Recv(mem, cur)), word, s);
              if ok then t == Turn(Recv(mem, cur), rest, eos) else t == Bad
    {
      var flags := word % PAGE;
      var addr := word - flags;
      ok, rest, eos := true, s, Has(flags, FLAG_EOS);
      if Has(flags, FLAG_MEM_SIZE) {
        ok, rest := CheckList(rest, addr);
        if !ok {
          return;
        }
      }
      if Has(flags, FLAG_COMPRESS) || Has(flags, FLAG_PAGE) {
        ok, rest := StorePage(rest, addr, flags);
      }
    }

    method TakeTurn(s: seq<byte>) returns (ok: bool, rest: seq<byte>, eos: bool)
      modifies this
      ensures var t := LoadTurn(old(Recv(mem, cur)), s);
              if ok then t == Turn(Recv(mem, cur), rest, eos) else t == Bad
    {
      if |s| < 8 {
        return false, s, false;
      }
      ok, rest, eos := TakeWord(Get64(s), s[8..]);
    }

    // ram_load
    method Load(s: seq<byte>) returns (ok: bool, rest: seq<byte>)
      modifies this
      ensures var r := LoadAll(old(Recv(mem, cur)), s);
              if ok then r == Loaded(Recv(mem, cur), rest) else r == Failed
    {
      rest := s;
      while true
        invariant LoadAll(Recv(mem, cur), rest) == LoadAll(old(Recv(mem, cur)), s)
        decreases |rest|
      {
        var eos;
        ok, rest, eos := TakeTurn(rest);
        if !ok || eos {
          return;
        }
      }
    }
  }
}
