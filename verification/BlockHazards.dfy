/** Two things block migration relies on and does not enforce: a run in which two reads
    of one chunk complete out of order, and a last flush that the rate limit cuts short. */
module BlockHazards {
  import opened Disk
  import opened BlockProtocol
  import opened Options

  const CELL := Loc(0, 0)
  const BLANK := Blk(CELL, [0], [false])
  const OLDER := Blk(CELL, [1], [true])
  const NEWER := Blk(CELL, [2], [true])

  function StaleState(i: nat): State {
    if i == 0 then State([[1]], [[0]], {}, [], [0], [], [], [])
    else if i == 1 then State([[1]], [[0]], {}, [], [1], [BLANK], [], [])
    else if i == 2 then State([[1]], [[0]], {}, [], [1], [OLDER], [], [])
    else if i == 3 then State([[2]], [[0]], {}, [Write(0, 0, 1)], [1], [OLDER], [], [])
    else if i == 4 then State([[2]], [[0]], {CELL}, [], [1], [OLDER], [], [])
    else if i == 5 then State([[2]], [[0]], {}, [], [1], [OLDER, BLANK], [], [])
    else if i == 6 then State([[2]], [[0]], {}, [], [1], [OLDER, NEWER], [], [])
    else if i == 7 then State([[2]], [[0]], {}, [], [1], [OLDER], [NEWER], [])
    else if i == 8 then State([[2]], [[0]], {}, [], [1], [], [NEWER, OLDER], [])
    else if i == 9 then State([[2]], [[0]], {}, [], [1], [], [OLDER], [NEWER])
    else if i == 10 then State([[2]], [[0]], {}, [], [1], [], [], [NEWER, OLDER])
    else if i == 11 then State([[2]], [[2]], {}, [], [1], [], [], [OLDER])
    else State([[2]], [[1]], {}, [], [1], [], [], [])
  }

  function StaleStep(i: nat): Step {
    if i == 0 then BulkRead(0)
    else if i == 1 then Fill(0, 0)
    else if i == 2 then Land(0, 0, [2])
    else if i == 3 then Mark(0)
    else if i == 4 then DirtyRead(CELL)
    else if i == 5 then Fill(1, 0)
    else if i == 6 then Done(1)
    else if i == 7 then Done(0)
    else if i < 10 then Send
    else Load
  }

  ghost predicate StaleMove(i: nat) {
    Move(StaleState(i), StaleStep(i), StaleState(i + 1), false)
  }

  lemma CellData(v: Sector)
    ensures ValidLoc([[v]], CELL) && At([[v]], CELL) == [v]
  {
  }

  lemma StaleSubmits()
    ensures StaleMove(0) && StaleMove(4)
  {
    CellData(1);
    CellData(2);
    assert BlankRead([[1]], CELL) == BLANK == BlankRead([[2]], CELL);
    assert BulkReads(StaleState(0), 0, StaleState(1));
    assert DirtyReads(StaleState(4), CELL, StaleState(5));
  }

  lemma StaleFills()
    ensures StaleMove(1) && StaleMove(5)
  {
    CellData(1);
    CellData(2);
    assert [false][0 := true] == [true] && [0][0 := 1] == [1] && [0][0 := 2] == [2];
    assert [BLANK][0 := OLDER] == [OLDER];
    assert Fills(StaleState(1), 0, 0, StaleState(2));
    assert [OLDER, BLANK][1 := NEWER] == [OLDER, NEWER];
    assert Fills(StaleState(5), 1, 0, StaleState(6));
  }

  lemma StaleWrite()
    ensures StaleMove(2) && StaleMove(3)
  {
    assert Overwrite([1], 0, [2]) == [2];
    assert Lands(StaleState(2), 0, 0, [2], StaleState(3));
    assert DirtyLocs(Write(0, 0, 1)) == {CELL};
    assert Marks(StaleState(3), 0, StaleState(4));
  }

  lemma StaleDone()
    ensures StaleMove(6) && StaleMove(7)
  {
    assert Completes(StaleState(6), 1, false, StaleState(7));
    assert Completes(StaleState(7), 0, false, StaleState(8));
  }

  lemma StaleSent()
    ensures StaleMove(8) && StaleMove(9)
  {
    assert Sends(StaleState(8), StaleState(9));
    assert Sends(StaleState(9), StaleState(10));
  }

  lemma CellStore(v: Sector, w: Sector)
    ensures ValidBlk([[v]], Blk(CELL, [w], [true])) && Store([[v]], Blk(CELL, [w], [true])) == [[w]]
  {
    CellData(v);
    var r := Store([[v]], Blk(CELL, [w], [true]));
    assert |r| == 1 && |r[0]| == 1 && At(r, CELL) == [w];
    assert Chunk(r[0], 0) == r[0][..];
  }

  lemma CellLoad(st: State, v: Sector, w: Sector, st': State)
    requires st.dst == [[v]] && st.wire != [] && st.wire[0] == Blk(CELL, [w], [true])
    requires st' == st.(dst := [[w]], wire := st.wire[1..])
    ensures Loads(st, st')
  {
    CellStore(v, w);
  }

  lemma StaleLoads()
    ensures StaleMove(10) && StaleMove(11)
  {
    assert [NEWER, OLDER][1..] == [OLDER];
    CellLoad(StaleState(10), 0, 2, StaleState(11));
    CellLoad(StaleState(11), 2, 1, StaleState(12));
  }

  lemma StaleMoves(i: nat)
    requires i < 12
    ensures StaleMove(i)
  {
    if i == 0 || i == 4 {
      StaleSubmits();
    } else if i == 1 || i == 5 {
      StaleFills();
    } else if i < 4 {
      StaleWrite();
    } else if i < 8 {
      StaleDone();
    } else if i < 10 {
      StaleSent();
    } else {
      StaleLoads();
    }
  }

  // Completion order matters: with two reads of one chunk in flight (the bulk phase does
  // not look at the in-flight bitmap), the older copy may arrive last and stay.
  lemma OrderNeeded() returns (states: seq<State>, steps: seq<Step>)
    ensures Run(states, steps, false) && Init(states[0])
    ensures Finished(states[|steps|]) && states[|steps|].dst != states[|steps|].src
  {
    states, steps := seq(13, i requires 0 <= i => StaleState(i)), seq(12, i requires 0 <= i => StaleStep(i));
    forall i | 0 <= i < |steps| ensures Move(states[i], steps[i], states[i + 1], false) {
      StaleMoves(i);
    }
    assert states[12].dst[0][0] == 1 && states[12].src[0][0] == 2;
  }

  function HeldState(i: nat): State {
    if i == 0 then State([[2]], [[0]], {}, [], [0], [], [], [])
    else if i == 1 then State([[2]], [[0]], {}, [], [1], [BLANK], [], [])
    else if i == 2 then State([[2]], [[0]], {}, [], [1], [NEWER], [], [])
    else State([[2]], [[0]], {}, [], [1], [], [NEWER], [])
  }

  function HeldStep(i: nat): Step {
    if i == 0 then BulkRead(0) else if i == 1 then Fill(0, 0) else Done(0)
  }

  ghost predicate HeldMove(i: nat) {
    Move(HeldState(i), HeldStep(i), HeldState(i + 1), true)
  }

  lemma HeldMoves(i: nat)
    requires i < 3
    ensures HeldMove(i)
  {
    CellData(2);
    assert BlankRead([[2]], CELL) == BLANK;
    assert [false][0 := true] == [true] && [0][0 := 2] == [2];
    assert [BLANK][0 := NEWER] == [NEWER];
    if i == 0 {
      assert BulkReads(HeldState(0), 0, HeldState(1));
    } else if i == 1 {
      assert Fills(HeldState(1), 0, 0, HeldState(2));
    } else {
      assert Completes(HeldState(2), 0, true, HeldState(3));
    }
  }

  // The flush of stage 3 matters: a run after which no chunk is dirty, so that nothing is
  // resent, and the rate limit holds back the one queued copy.  The destination is left
  // with its old contents.
  lemma CutFlushLoses() returns (states: seq<State>, steps: seq<Step>)
    ensures Run(states, steps, true) && Init(states[0])
    ensures var st := states[|steps|];
            && Stopped(st) && st.dirty == {} && |st.queue| == 1
            && st.wire + st.queue[..0] == [] && StoreAll(st.dst, st.wire + st.queue[..0]) != st.src
  {
    states, steps := seq(4, i requires 0 <= i => HeldState(i)), seq(3, i requires 0 <= i => HeldStep(i));
    forall i | 0 <= i < |steps| ensures Move(states[i], steps[i], states[i + 1], true) {
      HeldMoves(i);
    }
    var st := states[3];
    assert st.wire + st.queue[..0] == [];
    assert st.dst[0][0] == 0 && st.src[0][0] == 2;
  }
}
