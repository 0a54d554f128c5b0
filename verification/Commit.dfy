/** The copy loop of bdrv_commit: the sectors of an overlay go into its backing image. */
module Commit {
  import opened Disk
  import opened Errno

  const COMMIT_BUF_SECTORS: nat := 2048

  // What a reader of the overlay sees.
  function Visible(overlay: map<nat, Sector>, backing: Disk): (d: Disk)
    ensures |d| == |backing|
  {
    seq(|backing|, i requires 0 <= i < |backing| => if i in overlay then overlay[i] else backing[i])
  }

  // bdrv_is_allocated: from sector on, n sectors are all allocated or all not.
  ghost predicate Run(overlay: map<nat, Sector>, total: nat, sector: nat, n: nat) {
    && 0 < n <= COMMIT_BUF_SECTORS && sector + n <= total
    && forall i :: sector <= i < sector + n ==> (i in overlay <==> sector in overlay)
  }

  class Image {
    // The sectors the overlay holds, and an image of the same size below it.
    var overlay: map<nat, Sector>
    var backing: Disk

    // Which of the reads and writes fail.
    const fails: nat -> bool
    var ops: nat

    // None of the operations after the first m and up to n fails.
    ghost predicate Clean(m: nat, n: nat) {
      forall i :: m < i <= n ==> !fails(i)
    }

    constructor (overlay: map<nat, Sector>, backing: Disk, fails: nat -> bool)
      ensures this.overlay == overlay && this.backing == backing
    {
      this.overlay, this.backing, this.fails, ops := overlay, backing, fails, 0;
    }

    method Read(sector: nat, n: nat) returns (ret: int, buf: Disk)
      requires sector + n <= |backing|
      modifies `ops
      ensures ops == old(ops) + 1 && (ret == 0 <==> !fails(ops))
      ensures ret == 0 ==> buf == Visible(overlay, backing)[sector..sector + n]
    {
      ops := ops + 1;
      if fails(ops) {
        return -EIO, [];
      }
      return 0, Visible(overlay, backing)[sector..sector + n];
    }

    method WriteBacking(sector: nat, buf: Disk) returns (ret: int)
      requires sector + |buf| <= |backing|
      modifies `ops, `backing
      ensures ops == old(ops) + 1 && (ret == 0 <==> !fails(ops))
      ensures backing == if ret == 0 then Overwrite(old(backing), sector, buf) else old(backing)
    {
      ops := ops + 1;
      if fails(ops) {
        return -EIO;
      }
      backing := Overwrite(backing, sector, buf);
      return 0;
    }

    // Copying what is visible over it changes nothing visible.
    lemma CopyKeeps(was: Disk, sector: nat, n: nat)
      requires sector + n <= |was| && backing == Overwrite(was, sector, Visible(overlay, was)[sector..sector + n])
      ensures Visible(overlay, backing) == Visible(overlay, was)
    {
    }

    // The for loop of bdrv_commit; runs gives the answers of bdrv_is_allocated.  It succeeds
    // if and only if none of the reads and writes it makes fails.
    method CopyLoop(runs: nat -> nat) returns (ret: int)
      requires forall s: nat :: s < |backing| ==> Run(overlay, |backing|, s, runs(s))
      modifies `ops, `backing
      ensures |backing| == |old(backing)| && (ret == 0 || ret == -EIO) && ops >= old(ops)
      ensures ret == 0 <==> Clean(old(ops), ops)
      ensures Visible(overlay, backing) == Visible(overlay, old(backing))
      ensures ret == 0 ==> backing == Visible(overlay, old(backing))
    {
      var sector := 0;
      ghost var seen := Visible(overlay, backing);
      while sector < |backing|
        invariant 0 <= sector <= |backing| == |old(backing)| && Visible(overlay, backing) == seen
        invariant forall i :: 0 <= i < sector ==> backing[i] == seen[i]
        invariant ops >= old(ops) && Clean(old(ops), ops)
      {
        var n := runs(sector);
        assert Run(overlay, |backing|, sector, n);
        ghost var was := backing;
        if sector in overlay {
          var r, buf := Read(sector, n);
          if r != 0 {
            return -EIO;
          }
          r := WriteBacking(sector, buf);
          if r != 0 {
            return -EIO;
          }
          CopyKeeps(was, sector, n);
        }
        forall i | sector <= i < sector + n ensures backing[i] == seen[i] {
          assert i in overlay <==> sector in overlay;
        }
        sector := sector + n;
      }
      ret := 0;
    }

    // bdrv_commit on an image whose backing file is writable; makeEmpty says whether the
    // driver can empty the overlay.
    method Commit(runs: nat -> nat, makeEmpty: bool) returns (ret: int)
      requires forall s: nat :: s < |backing| ==> Run(overlay, |backing|, s, runs(s))
      modifies this
      ensures |backing| == |old(backing)| && Visible(overlay, backing) == Visible(old(overlay), old(backing))
      ensures (ret == 0 || ret == -EIO) && ops >= old(ops)
      ensures ret == 0 <==> Clean(old(ops), ops)
      ensures ret == 0 ==> backing == Visible(old(overlay), old(backing))
      ensures overlay == if ret == 0 && makeEmpty then map[] else old(overlay)
    {
      ret := CopyLoop(runs);
      if ret == 0 && makeEmpty {
        overlay := map[];
        assert Visible(overlay, backing) == backing;
      }
    }
  }
}
