/** The records of a block migration stream. */
module BlockRecords {
  import opened Disk
  import opened BlockProtocol

  const FLAG_DEVICE_BLOCK: nat := 1
  const FLAG_EOS: nat := 2
  const FLAG_PROGRESS: nat := 4

  // One record: a word holding a sector number (or a percentage) above nine flag bits
  // and, for a device block, the device's name and a buffer of CHUNK sectors.
  datatype Rec = Rec(word: nat, name: string, data: Disk)

  function Flags(r: Rec): nat {
    r.word % 512
  }

  function Addr(r: Rec): nat {
    r.word / 512
  }

  predicate IsBlock(r: Rec) {
    Flags(r) % 2 == 1
  }

  predicate IsEos(r: Rec) {
    Flags(r) / 2 % 2 == 1
  }

  predicate IsProgress(r: Rec) {
    Flags(r) / 4 % 2 == 1
  }

  const EOS := Rec(FLAG_EOS, "", [])

  function Progress(percent: nat): Rec {
    Rec(percent * 512 + FLAG_PROGRESS, "", [])
  }

  // A buffer of CHUNK sectors after data was read into its front; heap is what it held.
  function Padded(data: Disk, heap: Disk): (buf: Disk)
    requires |heap| == CHUNK
    ensures |buf| == CHUNK
    ensures forall k :: 0 <= k < CHUNK && k < |data| ==> buf[k] == data[k]
  {
    if |data| < CHUNK then data + heap[|data|..] else data[..CHUNK]
  }

  // blk_send
  function BlockRec(names: seq<string>, b: Blk, heap: Disk): Rec
    requires b.loc.dev < |names| && |heap| == CHUNK
  {
    Rec(Lo(b.loc.chunk) * 512 + FLAG_DEVICE_BLOCK, names[b.loc.dev], Padded(b.buf, heap))
  }

  // The record names the block's device and first sector and starts with its data.
  ghost predicate Encodes(names: seq<string>, r: Rec, b: Blk) {
    && b.loc.dev < |names| && r.name == names[b.loc.dev]
    && r.word == Lo(b.loc.chunk) * 512 + FLAG_DEVICE_BLOCK
    && |r.data| == CHUNK && b.buf <= r.data
  }

  // An end mark or a progress report.
  predicate IsReport(r: Rec) {
    r == EOS || r == Progress(Addr(r))
  }

  // The blocks a stream holds, with end marks and progress reports anywhere between.
  ghost predicate Carries(names: seq<string>, recs: seq<Rec>, blks: seq<Blk>)
    decreases |recs|
  {
    if recs == [] then blks == []
    else if IsReport(recs[0]) then Carries(names, recs[1..], blks)
    else blks != [] && Encodes(names, recs[0], blks[0]) && Carries(names, recs[1..], blks[1..])
  }

  // Whole sections: the stream is empty or ends with an end mark.
  predicate Sections(recs: seq<Rec>) {
    recs != [] ==> recs[|recs| - 1] == EOS
  }

  lemma ProgressReports(percent: nat)
    ensures IsReport(Progress(percent))
  {
  }

  lemma ReportFlags(r: Rec)
    requires IsReport(r)
    ensures !IsBlock(r) && (IsEos(r) <==> r == EOS) && (r != EOS ==> IsProgress(r))
  {
    if r != EOS {
      assert Flags(r) == 4;
    }
  }

  lemma EncodedFlags(names: seq<string>, r: Rec, b: Blk)
    requires Encodes(names, r, b)
    ensures IsBlock(r) && !IsEos(r) && !IsReport(r) && Addr(r) == Lo(b.loc.chunk)
  {
    assert Flags(r) == 1;
  }

  lemma BlockRecEncodes(names: seq<string>, b: Blk, heap: Disk)
    requires b.loc.dev < |names| && |heap| == CHUNK && |b.buf| <= CHUNK
    ensures Encodes(names, BlockRec(names, b, heap), b)
  {
  }

  lemma {:induction false} CarriesConcat(names: seq<string>, recs: seq<Rec>, blks: seq<Blk>, recs': seq<Rec>, blks': seq<Blk>)
    requires Carries(names, recs, blks) && Carries(names, recs', blks')
    ensures Carries(names, recs + recs', blks + blks')
    decreases |recs|
  {
    if recs == [] {
      assert recs + recs' == recs' && blks + blks' == blks';
    } else {
      assert (recs + recs')[1..] == recs[1..] + recs';
      if IsReport(recs[0]) {
        CarriesConcat(names, recs[1..], blks, recs', blks');
      } else {
        CarriesConcat(names, recs[1..], blks[1..], recs', blks');
        assert (blks + blks')[1..] == blks[1..] + blks';
      }
    }
  }

  lemma CarriesBlock(names: seq<string>, recs: seq<Rec>, blks: seq<Blk>, b: Blk, heap: Disk)
    requires Carries(names, recs, blks) && b.loc.dev < |names| && |heap| == CHUNK && |b.buf| <= CHUNK
    ensures Carries(names, recs + [BlockRec(names, b, heap)], blks + [b])
  {
    var r := BlockRec(names, b, heap);
    BlockRecEncodes(names, b, heap);
    EncodedFlags(names, r, b);
    assert [r][1..] == [] && [b][1..] == [];
    assert Carries(names, [r], [b]);
    CarriesConcat(names, recs, blks, [r], [b]);
  }

  lemma CarriesReport(names: seq<string>, recs: seq<Rec>, blks: seq<Blk>, r: Rec)
    requires Carries(names, recs, blks) && IsReport(r)
    ensures Carries(names, recs + [r], blks)
  {
    assert [r][1..] == [];
    assert Carries(names, [r], []);
    CarriesConcat(names, recs, blks, [r], []);
    assert blks + [] == blks;
  }
}
