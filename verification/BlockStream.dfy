/** The side that loads a block migration stream. */
module BlockStream {
  import opened Errno
  import opened Disk
  import opened BlockProtocol
  import opened BlockMigration
  import opened BlockRecords

  // bdrv_find: the first device of that name, or |names|.
  function Find(names: seq<string>, name: string): (i: nat)
    ensures i <= |names|
    ensures i < |names| ==> names[i] == name
    ensures forall j :: 0 <= j < i ==> names[j] != name
  {
    if names == [] || names[0] == name then 0 else 1 + Find(names[1..], name)
  }

  // The outcome of loading: the error, or 0, the disks, and what is left of the stream.
  datatype Loaded = Loaded(ret: int, disks: seq<Disk>, rest: seq<Rec>)

  // The part of block_load that handles one device block.  A record whose data is short
  // is where the stream ends: what the buffer held is written behind it, and then the
  // file's error is found.
  function LoadBlock(names: seq<string>, heap: Disk, disks: seq<Disk>, r: Rec): (int, seq<Disk>)
    requires |names| == |disks| && |heap| == CHUNK
  {
    var d := Find(names, r.name);
    if d == |names| || |disks[d]| == 0 then (-EINVAL, disks)
    else if Addr(r) > |disks[d]| then (-EIO, disks)
    else
      var room := |disks[d]| - Addr(r);
      var nr := if room < CHUNK then room else CHUNK;
      (if |r.data| < CHUNK then -EIO else 0, disks[d := Overwrite(disks[d], Addr(r), Padded(r.data, heap)[..nr])])
  }

  function LoadRec(names: seq<string>, heap: Disk, disks: seq<Disk>, r: Rec): (res: (int, seq<Disk>))
    requires |names| == |disks| && |heap| == CHUNK
    ensures |res.1| == |disks|
  {
    if IsBlock(r) then LoadBlock(names, heap, disks, r)
    else if IsProgress(r) || IsEos(r) then (0, disks)
    else (-EINVAL, disks)
  }

  // block_load; at the end of the stream it reads a word of zeros.
  function LoadRecs(names: seq<string>, heap: Disk, disks: seq<Disk>, recs: seq<Rec>): (r: Loaded)
    requires |names| == |disks| && |heap| == CHUNK
    ensures |r.disks| == |disks| && |r.rest| <= |recs|
    ensures recs != [] ==> |r.rest| < |recs|
    decreases |recs|
  {
    if recs == [] then Loaded(-EINVAL, disks, [])
    else
      var (err, disks') := LoadRec(names, heap, disks, recs[0]);
      if err != 0 || IsEos(recs[0]) then Loaded(err, disks', recs[1..]) else LoadRecs(names, heap, disks', recs[1..])
  }

  // Section after section, up to the first that fails.
  function LoadSections(names: seq<string>, heap: Disk, disks: seq<Disk>, recs: seq<Rec>): (r: (int, seq<Disk>))
    requires |names| == |disks| && |heap| == CHUNK
    decreases |recs|
  {
    if recs == [] then (0, disks)
    else
      var r := LoadRecs(names, heap, disks, recs);
      if r.ret != 0 then (r.ret, r.disks) else LoadSections(names, heap, r.disks, r.rest)
  }

  // A block is refused if its device, at place d of the names, is missing or empty, and so is
  // one that starts beyond the end of its device; nothing is written, and the loading stops.
  lemma BadBlockRefused(names: seq<string>, heap: Disk, disks: seq<Disk>, r: Rec, recs: seq<Rec>, d: nat)
    requires |names| == |disks| && |heap| == CHUNK && IsBlock(r)
    requires d <= |names| && (d < |names| ==> names[d] == r.name) && forall j :: 0 <= j < d ==> names[j] != r.name
    ensures d == |names| || |disks[d]| == 0 ==> LoadRecs(names, heap, disks, [r] + recs) == Loaded(-EINVAL, disks, recs)
    ensures d < |names| && 0 < |disks[d]| < Addr(r) ==> LoadRecs(names, heap, disks, [r] + recs) == Loaded(-EIO, disks, recs)
  {
    assert ([r] + recs)[1..] == recs;
  }

  class Receiver {
    const names: seq<string>
    const heap: Disk            // what a freshly allocated buffer holds
    var disks: seq<Disk>

    constructor (names: seq<string>, heap: Disk, disks: seq<Disk>)
      ensures this.names == names && this.heap == heap && this.disks == disks
    {
      this.names, this.heap, this.disks := names, heap, disks;
    }

    // block_load
    method Load(recs: seq<Rec>) returns (ret: int, rest: seq<Rec>)
      requires |names| == |disks| && |heap| == CHUNK
      modifies this`disks
      ensures Loaded(ret, disks, rest) == LoadRecs(names, heap, old(disks), recs)
    {
      var i := 0;
      while i < |recs|
        invariant i <= |recs| && |disks| == |names|
        invariant LoadRecs(names, heap, disks, recs[i..]) == LoadRecs(names, heap, old(disks), recs)
      {
        var r := recs[i];
        assert recs[i..][1..] == recs[i + 1..];
        if IsBlock(r) {
          var d := Find(names, r.name);
          if d == |names| || |disks[d]| == 0 {
            return -EINVAL, recs[i + 1..];
          }
          if Addr(r) > |disks[d]| {
            return -EIO, recs[i + 1..];
          }
          var nr := CHUNK;
          if |disks[d]| - Addr(r) < CHUNK {
            nr := |disks[d]| - Addr(r);
          }
          disks := disks[d := Overwrite(disks[d], Addr(r), Padded(r.data, heap)[..nr])];
          if |r.data| < CHUNK {
            return -EIO, recs[i + 1..];
          }
        } else if IsProgress(r) {
        } else if !IsEos(r) {
          return -EINVAL, recs[i + 1..];
        }
        if IsEos(r) {
          return 0, recs[i + 1..];
        }
        i := i + 1;
      }
      return -EINVAL, [];
    }

    // qemu_loadvm_state, for the sections of the block driver
    method LoadAll(recs: seq<Rec>) returns (ret: int)
      requires |names| == |disks| && |heap| == CHUNK
      modifies this`disks
      ensures (ret, disks) == LoadSections(names, heap, old(disks), recs)
    {
      ret := 0;
      var left := recs;
      while left != [] && ret == 0
        invariant |names| == |disks|
        invariant if ret == 0 then LoadSections(names, heap, disks, left) == LoadSections(names, heap, old(disks), recs)
                  else (ret, disks) == LoadSections(names, heap, old(disks), recs)
        decreases |left|
      {
        ret, left := Load(left);
      }
    }
  }

  // A block that was sent is stored where it came from.
  lemma LoadEncoded(names: seq<string>, heap: Disk, disks: seq<Disk>, r: Rec, b: Blk)
    requires |names| == |disks| && |heap| == CHUNK && Distinct(names) && ValidBlk(disks, b) && Encodes(names, r, b)
    ensures LoadRec(names, heap, disks, r) == (0, Store(disks, b))
  {
    EncodedFlags(names, r, b);
    assert Find(names, r.name) == b.loc.dev;
    assert Padded(r.data, heap)[..|b.buf|] == b.buf;
  }

  // A record that loads without an error is loaded before the rest.
  lemma LoadNext(names: seq<string>, heap: Disk, disks: seq<Disk>, recs: seq<Rec>, disks': seq<Disk>)
    requires |names| == |disks| == |disks'| && |heap| == CHUNK && recs != []
    requires LoadRec(names, heap, disks, recs[0]) == (0, disks') && (IsEos(recs[0]) || |recs| > 1)
    ensures LoadSections(names, heap, disks, recs) == LoadSections(names, heap, disks', recs[1..])
  {
    if IsEos(recs[0]) {
      assert LoadRecs(names, heap, disks, recs) == Loaded(0, disks', recs[1..]);
    } else {
      assert LoadRecs(names, heap, disks, recs) == LoadRecs(names, heap, disks', recs[1..]);
    }
  }

  lemma LoadReport(names: seq<string>, heap: Disk, disks: seq<Disk>, r: Rec)
    requires |names| == |disks| && |heap| == CHUNK && IsReport(r)
    ensures LoadRec(names, heap, disks, r) == (0, disks) && (IsEos(r) <==> r == EOS)
  {
    ReportFlags(r);
  }

  // A stream that ends before its end mark: a word of zeros is read, which has no flag.
  lemma LoadCut(names: seq<string>, heap: Disk, disks: seq<Disk>, r: Rec, disks': seq<Disk>)
    requires |names| == |disks| == |disks'| && |heap| == CHUNK
    requires LoadRec(names, heap, disks, r) == (0, disks') && !IsEos(r)
    ensures LoadSections(names, heap, disks, [r]) == (-EINVAL, disks')
  {
    assert [r][1..] == [];
    assert LoadRecs(names, heap, disks, [r]) == LoadRecs(names, heap, disks', []);
  }

  // Loading a stream stores exactly the blocks it carries, in order, and succeeds if and
  // only if the stream has not been cut inside a section.
  lemma {:induction false} LoadCarried(names: seq<string>, heap: Disk, disks: seq<Disk>, recs: seq<Rec>, blks: seq<Blk>)
    requires |names| == |disks| && |heap| == CHUNK && Distinct(names) && Carries(names, recs, blks)
    requires forall b :: b in blks ==> ValidBlk(disks, b)
    ensures LoadSections(names, heap, disks, recs) == (if Sections(recs) then 0 else -EINVAL, StoreAll(disks, blks))
    decreases |recs|
  {
    if recs != [] {
      var r, rest := recs[0], recs[1..];
      var disks' := if IsReport(r) then disks else Store(disks, blks[0]);
      var blks' := if IsReport(r) then blks else blks[1..];
      if IsReport(r) {
        LoadReport(names, heap, disks, r);
      } else {
        LoadEncoded(names, heap, disks, r, blks[0]);
        EncodedFlags(names, r, blks[0]);
      }
      if rest == [] && r != EOS {
        assert recs == [r] && blks' == [];
        LoadCut(names, heap, disks, r, disks');
      } else {
        LoadNext(names, heap, disks, recs, disks');
        forall b | b in blks' ensures ValidBlk(disks', b) { LayoutKeepsBlk(disks, disks', b); }
        assert rest != [] ==> rest[|rest| - 1] == recs[|recs| - 1];
        LoadCarried(names, heap, disks', rest, blks');
      }
    }
  }
}
