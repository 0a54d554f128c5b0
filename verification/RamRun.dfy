/** A whole migration of RAM: the sender's sections, with the guest at work, and the receiver
    that loads them one by one. */
module RamRun {
  import opened Bytes
  import opened Options
  import opened RamStream
  import opened RamMigration

  // All the writes of these calls, in order.
  function AllWrites(calls: seq<seq<Pause>>): seq<GuestWrite> {
    if calls == [] then [] else AllWrites(calls[..|calls| - 1]) + PauseWrites(calls[|calls| - 1])
  }

  ghost predicate ValidCalls(blocks: seq<Block>, calls: seq<seq<Pause>>) {
    forall i :: 0 <= i < |calls| ==> ValidPauses(blocks, calls[i])
  }

  // What the sender believes is what the receiver holds, after the first n calls.
  ghost predicate InStep(s: Saver, r: Receiver, blocks: seq<Block>, calls: seq<seq<Pause>>, n: nat)
    reads s, r
  {
    && s.Valid() && s.recv == Recv(r.mem, r.cur) && n <= |calls|
    && SameRam(blocks, s.blocks) && s.blocks == WrittenAll(blocks, AllWrites(calls[..n]))
  }

  lemma NextCall(blocks: seq<Block>, mid: seq<Block>, calls: seq<seq<Pause>>, i: nat, n: nat)
    requires i < |calls| && n == i + 1 && mid == WrittenAll(blocks, AllWrites(calls[..i]))
    ensures WrittenAll(mid, PauseWrites(calls[i])) == WrittenAll(blocks, AllWrites(calls[..n]))
  {
    WrittenInTurn(blocks, AllWrites(calls[..i]), PauseWrites(calls[i]));
    assert calls[..n][..i] == calls[..i];
  }

  // One call of ram_save_live, for stage 1 or 2, and the load of its section.
  method Step(s: Saver, r: Receiver, ghost blocks: seq<Block>, calls: seq<seq<Pause>>, i: nat, n: nat, tracked: bool) returns (ok: bool)
    requires InStep(s, r, blocks, calls, i) && ValidCalls(blocks, calls) && i < |calls| && n == i + 1
    modifies s, r
    ensures ok && InStep(s, r, blocks, calls, n)
  {
    ghost var mid := s.blocks;
    SameRamPauses(blocks, s.blocks, calls[i]);
    var section;
    ghost var turns;
    if i == 0 {
      section, turns := s.SaveStart(calls[i], tracked);
    } else {
      section, turns := s.SavePart(calls[i], tracked);
    }
    NextCall(blocks, mid, calls, i, n);
    var rest;
    ok, rest := r.Load(section);
  }

  // Any number of calls before the guest is stopped, then stage 3.  Every section loads, and
  // in the end the receiver's RAM is the sender's: what it was at the start with all the
  // guest's writes made in order.
  method Migrate(blocks: seq<Block>, mem: map<Id, seq<Page>>, calls: seq<seq<Pause>>, tracked: bool)
    returns (s: Saver, r: Receiver, ok: bool)
    requires ValidBlocks(blocks) && Knows(Recv(mem, None), blocks) && ValidCalls(blocks, calls)
    ensures ok && Same(s.blocks, Recv(r.mem, r.cur)) && s.blocks == WrittenAll(blocks, AllWrites(calls))
  {
    r := new Receiver(mem);
    s := new Saver.Begin(blocks, Recv(mem, None));
    ok := true;
    for i := 0 to |calls|
      invariant ok && InStep(s, r, blocks, calls, i) && fresh(s) && fresh(r)
    {
      ok := Step(s, r, blocks, calls, i, i + 1, tracked);
    }
    assert calls[..|calls|] == calls;
    var section := s.SaveEnd();
    var rest;
    ok, rest := r.Load(section);
  }
}
