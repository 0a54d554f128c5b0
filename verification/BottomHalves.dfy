/** Bottom halves: callbacks on a linked list that is walked while they create, schedule,
    cancel and delete each other, or walk it again. */
module BottomHalves {

  class BH {
    var scheduled: bool
    var idle: bool
    var deleted: bool
    var next: BH?

    constructor (next: BH?)
      ensures !scheduled && !idle && !deleted && this.next == next
    {
      scheduled, idle, deleted, this.next := false, false, false, next;
    }
  }

  // Lists are written from the last node to the first, so that a new node comes at the end.
  // What the node at place i, or for i == |list| the anchor, points to:
  ghost function Below(list: seq<BH>, i: nat): BH?
    requires i <= |list|
  {
    if i == 0 then null else list[i - 1]
  }

  // Each node points to the one below it, and the lowest to null.
  ghost predicate Links(list: seq<BH>)
    reads list`next
  {
    forall i {:trigger list[i].next} :: 0 <= i < |list| ==> list[i].next == Below(list, i)
  }

  // No node comes twice: the rest of the list would have two lengths.
  lemma {:induction false} Apart(list: seq<BH>, i: nat, j: nat)
    requires Links(list) && i < j < |list|
    ensures list[i] != list[j]
  {
    assert list[i].next == Below(list, i) && list[j].next == Below(list, j);
    if i > 0 {
      Apart(list, i - 1, j - 1);
    }
  }

  lemma AllApart(list: seq<BH>, j: nat)
    requires Links(list) && j < |list|
    ensures OnlyAt(list, j)
  {
    forall i | 0 <= i < |list| && i != j ensures list[i] != list[j] {
      if i < j {
        Apart(list, i, j);
      } else {
        Apart(list, j, i);
      }
    }
  }

  ghost function Dead(list: seq<BH>): (dead: set<BH>)
    reads list`deleted
    ensures forall b :: b in list ==> (b in dead <==> b.deleted)
  {
    set b | b in list && b.deleted
  }

  // The nodes that are not in dead.
  ghost function Without(list: seq<BH>, dead: set<BH>): (r: seq<BH>)
    ensures forall b :: b in r ==> b in list && b !in dead
    ensures forall b :: b in list && b !in dead ==> b in r
  {
    if list == [] then []
    else if list[|list| - 1] in dead then Without(list[..|list| - 1], dead)
    else Without(list[..|list| - 1], dead) + [list[|list| - 1]]
  }

  ghost function Among(list: seq<BH>, dead: set<BH>): set<BH> {
    set b | b in list && b in dead
  }

  // Of the nodes all, those from place p on have been swept: what is left of them follows
  // the others on the list, and the rest is freed.
  ghost predicate Swept(all: seq<BH>, dead: set<BH>, was: set<BH>, p: nat, list: seq<BH>, freed: set<BH>) {
    && p <= |all| && p <= |list| && list[..p] == all[..p]
    && Without(all, dead) == Without(all[..p], dead) + list[p..]
    && freed + Among(all[..p], dead) == was + dead
  }

  lemma SweptNone(all: seq<BH>, dead: set<BH>, was: set<BH>)
    requires forall b :: b in dead ==> b in all
    ensures Swept(all, dead, was, |all|, all, was)
  {
    assert all[..|all|] == all && Among(all, dead) == dead;
  }

  lemma SweptAll(all: seq<BH>, dead: set<BH>, was: set<BH>, list: seq<BH>, freed: set<BH>)
    requires Swept(all, dead, was, 0, list, freed)
    ensures list == Without(all, dead) && freed == was + dead
  {
    assert all[..0] == [] && list[0..] == list && Among([], dead) == {};
  }

  lemma WithoutLast(all: seq<BH>, dead: set<BH>, p: nat, m: nat)
    requires p == m + 1 && p <= |all|
    ensures Without(all[..p], dead) == if all[m] in dead then Without(all[..m], dead) else Without(all[..m], dead) + [all[m]]
    ensures Among(all[..p], dead) == Among(all[..m], dead) + if all[m] in dead then {all[m]} else {}
  {
    assert all[..p][..m] == all[..m];
  }

  lemma SweptKeep(all: seq<BH>, dead: set<BH>, was: set<BH>, p: nat, m: nat, list: seq<BH>, freed: set<BH>)
    requires Swept(all, dead, was, p, list, freed) && p == m + 1 && list[m] !in dead
    ensures Swept(all, dead, was, m, list, freed)
  {
    assert list[..p][m] == all[..p][m];
    WithoutLast(all, dead, p, m);
    assert list[..m] == list[..p][..m] && all[..m] == all[..p][..m];
    Rejoin(Without(all[..m], dead), list, p, m);
  }

  lemma Rejoin(w: seq<BH>, list: seq<BH>, p: nat, m: nat)
    requires p == m + 1 && p <= |list|
    ensures w + [list[m]] + list[p..] == w + list[m..]
  {
    assert [list[m]] + list[p..] == list[m..];
  }

  lemma SweptDrop(all: seq<BH>, dead: set<BH>, was: set<BH>, p: nat, m: nat, list: seq<BH>, freed: set<BH>)
    requires Swept(all, dead, was, p, list, freed) && p == m + 1 && list[m] in dead
    ensures Swept(all, dead, was, m, list[..m] + list[p..], freed + {list[m]})
  {
    assert list[..p][m] == all[..p][m];
    WithoutLast(all, dead, p, m);
    assert list[..m] == list[..p][..m] && all[..m] == all[..p][..m];
  }

  // What code running in a callback does: something to the k-th bottom half of the list,
  // a new one, several things, or a poll in which the callbacks that run do what is given
  // for each in turn.
  datatype Action =
    | New
    | Schedule(k: nat)
    | ScheduleIdle(k: nat)
    | Cancel(k: nat)
    | Delete(k: nat)
    | Do(actions: seq<Action>)
    | Poll(runs: seq<Action>)

  // The action is one on a bottom half of a list of n.
  predicate Aims(a: Action, n: nat) {
    (a.Schedule? || a.ScheduleIdle? || a.Cancel? || a.Delete?) && a.k < n
  }

  // What becomes of that bottom half's flags: scheduling one that is scheduled already leaves
  // it idle or not as it was.
  predicate Hit(a: Action, was: Flags, f: Flags) {
    match a
    case Schedule(_) => f == if was.scheduled then was else Flags(true, false, was.deleted)
    case ScheduleIdle(_) => f == if was.scheduled then was else Flags(true, true, was.deleted)
    case Cancel(_) => f == Flags(false, was.idle, was.deleted)
    case Delete(_) => f == Flags(false, was.idle, true)
    case _ => f == was
  }

  datatype Flags = Flags(scheduled: bool, idle: bool, deleted: bool)

  ghost function FlagsOf(bh: BH): Flags
    reads bh
  {
    Flags(bh.scheduled, bh.idle, bh.deleted)
  }

  const CLEARED := Flags(false, false, false)

  // A note in the log: bh has these flags now, and whether its callback is called.
  datatype Note = Note(bh: BH, flags: Flags, called: bool)

  // The flags of bh according to the first n notes, or all.
  ghost function LatestAt(log: seq<Note>, n: nat, bh: BH): Flags
    requires n <= |log|
  {
    if n == 0 then CLEARED else if log[n - 1].bh == bh then log[n - 1].flags else LatestAt(log, n - 1, bh)
  }

  ghost function Latest(log: seq<Note>, bh: BH): Flags {
    LatestAt(log, |log|, bh)
  }

  lemma {:induction false} LatestPrefix(log: seq<Note>, log': seq<Note>, n: nat, bh: BH)
    requires n <= |log| && log <= log'
    ensures LatestAt(log', n, bh) == LatestAt(log, n, bh)
  {
    if n > 0 {
      LatestPrefix(log, log', n - 1, bh);
    }
  }

  lemma LatestMore(log: seq<Note>, n: Note, bh: BH)
    ensures Latest(log + [n], bh) == if n.bh == bh then n.flags else Latest(log, bh)
  {
    LatestPrefix(log, log + [n], |log|, bh);
  }

  // One node's turn in a walk: its flags as its turn comes, and which notes are made in it.
  datatype Turn = Turn(bh: BH, flags: Flags, from: nat, to: nat)

  ghost predicate Due(t: Turn) {
    !t.flags.deleted && t.flags.scheduled
  }

  // Its flags are those the log gives it then.
  ghost predicate Seen(t: Turn, log: seq<Note>) {
    t.from <= |log| && t.flags == LatestAt(log, t.from, t.bh)
  }

  // If it is due they are cleared and its callback is called, before anything else happens;
  // if not, nothing happens.
  ghost predicate Taken(t: Turn, log: seq<Note>) {
    && t.from <= t.to <= |log|
    && (if Due(t) then CalledAt(t.bh, log, t.from) && t.from + 2 <= t.to else t.from == t.to)
  }

  ghost predicate CalledAt(bh: BH, log: seq<Note>, n: nat) {
    n + 2 <= |log| && log[n] == Note(bh, CLEARED, false) && log[n + 1] == Note(bh, CLEARED, true)
  }

  lemma SeenLater(t: Turn, log: seq<Note>, log': seq<Note>)
    requires Seen(t, log) && log <= log'
    ensures Seen(t, log')
  {
    LatestPrefix(log, log', t.from, t.bh);
  }

  // How long the log was as turn j came.
  ghost function Since(turns: seq<Turn>, start: nat, j: nat): nat
    requires j <= |turns|
  {
    if j == 0 then start else turns[j - 1].to
  }

  // Turn j is that of the j-th node of the list, and comes where the one before it ends.
  ghost predicate TurnOf(list: seq<BH>, turns: seq<Turn>, start: nat, log: seq<Note>, j: nat) {
    && j < |turns| <= |list| && turns[j].bh == list[|list| - 1 - j] && turns[j].from == Since(turns, start, j)
    && Taken(turns[j], log) && Seen(turns[j], log)
  }

  // The turns of the nodes of the list from its first down to place p, one each and in
  // order, with all that was noted since the log had length start.
  ghost predicate Walked(list: seq<BH>, p: nat, turns: seq<Turn>, start: nat, log: seq<Note>) {
    && p + |turns| == |list| && |log| == Since(turns, start, |turns|)
    && (forall j {:trigger TurnOf(list, turns, start, log, j)} :: 0 <= j < |turns| ==> TurnOf(list, turns, start, log, j))
  }

  ghost predicate Busy(turns: seq<Turn>) {
    exists t :: t in turns && Due(t) && !t.flags.idle
  }

  lemma TurnLater(list: seq<BH>, turns: seq<Turn>, start: nat, log: seq<Note>, j: nat, t: Turn, log': seq<Note>)
    requires TurnOf(list, turns, start, log, j) && log <= log' && |turns| < |list|
    ensures TurnOf(list, turns + [t], start, log', j)
  {
    SeenLater(turns[j], log, log');
    assert (turns + [t])[j] == turns[j] && Since(turns + [t], start, j) == Since(turns, start, j);
  }

  lemma WalkedMore(list: seq<BH>, p: nat, m: nat, turns: seq<Turn>, start: nat, log: seq<Note>, t: Turn, log': seq<Note>)
    requires Walked(list, p, turns, start, log) && p == m + 1 && log <= log'
    requires t.bh == list[m] && t.from == |log| && t.to == |log'| && Taken(t, log') && Seen(t, log')
    ensures Walked(list, m, turns + [t], start, log')
    ensures Busy(turns + [t]) <==> Busy(turns) || (Due(t) && !t.flags.idle)
  {
    var more := turns + [t];
    forall j | 0 <= j < |more| ensures TurnOf(list, more, start, log', j) {
      if j < |turns| {
        assert TurnOf(list, turns, start, log, j);
        TurnLater(list, turns, start, log, j, t, log');
      } else {
        assert Since(more, start, j) == Since(turns, start, j);
      }
    }
    BusyMore(turns, t);
  }

  lemma BusyMore(turns: seq<Turn>, t: Turn)
    ensures Busy(turns + [t]) <==> Busy(turns) || (Due(t) && !t.flags.idle)
  {
    var more := turns + [t];
    if Busy(turns) {
      var u :| u in turns && Due(u) && !u.flags.idle;
      assert u in more;
    }
    if Due(t) && !t.flags.idle {
      assert more[|turns|] == t;
    }
  }

  // ----- callbacks that do nothing

  // Nothing is noted but that a node's flags are cleared and its callback called.
  ghost predicate Quiet(turns: seq<Turn>) {
    forall t :: t in turns ==> t.to <= t.from + 2
  }

  ghost predicate OnlyAt(list: seq<BH>, i: nat) {
    i < |list| && forall j :: 0 <= j < |list| && j != i ==> list[j] != list[i]
  }

  // The two notes of a turn say nothing of other nodes.
  lemma QuietTurn(t: Turn, log: seq<Note>, bh: BH)
    requires Taken(t, log) && t.to <= t.from + 2 && t.bh != bh
    ensures LatestAt(log, t.to, bh) == LatestAt(log, t.from, bh)
  {
    if Due(t) {
      assert LatestAt(log, t.from + 1, bh) == LatestAt(log, t.from, bh);
    }
  }

  // What a walk says of one turn.
  lemma TurnAt(list: seq<BH>, turns: seq<Turn>, start: nat, log: seq<Note>, j: nat)
    requires Walked(list, 0, turns, start, log) && Quiet(turns) && j < |turns|
    ensures turns[j].bh == list[|list| - 1 - j] && Taken(turns[j], log) && Seen(turns[j], log)
    ensures turns[j].to <= turns[j].from + 2 && turns[j].from == if j == 0 then start else turns[j - 1].to
  {
    assert turns[j] in turns && TurnOf(list, turns, start, log, j);
  }

  // Turn i goes by without a note on bh.
  ghost predicate Hop(turns: seq<Turn>, start: nat, log: seq<Note>, bh: BH, i: nat) {
    && i < |turns| && turns[i].from <= |log| && turns[i].to <= |log|
    && turns[i].from == (if i == 0 then start else turns[i - 1].to)
    && LatestAt(log, turns[i].to, bh) == LatestAt(log, turns[i].from, bh)
  }

  lemma {:induction false} Hops(turns: seq<Turn>, start: nat, log: seq<Note>, bh: BH, k: nat)
    requires k <= |turns| && start <= |log| && forall i {:trigger Hop(turns, start, log, bh, i)} :: 0 <= i < k ==> Hop(turns, start, log, bh, i)
    ensures k > 0 ==> turns[k - 1].to <= |log| && LatestAt(log, turns[k - 1].to, bh) == LatestAt(log, start, bh)
  {
    if k > 0 {
      assert Hop(turns, start, log, bh, k - 1);
      Hops(turns, start, log, bh, k - 1);
    }
  }

  // Then each turn finds its node with the flags it had when the walk began.
  lemma QuietFlags(list: seq<BH>, turns: seq<Turn>, start: nat, log: seq<Note>, k: nat)
    requires Walked(list, 0, turns, start, log) && Quiet(turns) && k < |turns| && OnlyAt(list, |list| - 1 - k) && start <= |log|
    ensures turns[k].flags == LatestAt(log, start, list[|list| - 1 - k])
  {
    var bh := list[|list| - 1 - k];
    forall i | 0 <= i < k ensures Hop(turns, start, log, bh, i) {
      TurnAt(list, turns, start, log, i);
      QuietTurn(turns[i], log, bh);
    }
    Hops(turns, start, log, bh, k);
    TurnAt(list, turns, start, log, k);
  }

  // ----- moments

  // The state of the list at one moment.
  datatype Snapshot = Snapshot(list: seq<BH>, dead: set<BH>, nodes: set<BH>, nesting: nat, freed: set<BH>, log: seq<Note>)

  // What anything that happens during a walk keeps: nodes are only added, in front of the
  // first; none is unlinked or freed; what is deleted stays deleted and is not called, and
  // what is called has its flags cleared.
  ghost predicate Later(s: Snapshot, t: Snapshot) {
    && t.nesting == s.nesting && t.freed == s.freed && s.list <= t.list && s.dead <= t.dead && s.log <= t.log
    && Spared(s.dead, t.log, |s.log|) && OnList(t.nodes - s.nodes, t.list)
  }

  ghost predicate Spared(dead: set<BH>, log: seq<Note>, n: nat) {
    forall k {:trigger log[k].called} :: n <= k < |log| && log[k].called ==> log[k].bh !in dead && log[k].flags == CLEARED
  }

  ghost predicate OnList(nodes: set<BH>, list: seq<BH>) {
    forall b :: b in nodes ==> b in list
  }

  lemma LaterTrans(s: Snapshot, t: Snapshot, u: Snapshot)
    requires Later(s, t) && Later(t, u)
    ensures Later(s, u)
  {
    forall k | |s.log| <= k < |u.log| && u.log[k].called ensures u.log[k].bh !in s.dead && u.log[k].flags == CLEARED {
      if k < |t.log| {
        assert t.log[k].called;
      }
    }
    forall b | b in u.nodes - s.nodes ensures b in u.list {
      if b in t.nodes {
        assert b in t.nodes - s.nodes;
      } else {
        assert b in u.nodes - t.nodes;
      }
    }
  }

  class Context {
    var first: BH?
    var nesting: nat

    // The nodes on the list, all there have been, those that were freed, and what was done
    // to their flags and which callbacks were called, in order.
    ghost var list: seq<BH>
    ghost var nodes: set<BH>
    ghost var freed: set<BH>
    ghost var log: seq<Note>

    ghost predicate Valid()
      reads this, list
    {
      && Links(list) && first == Below(list, |list|)
      && (forall b :: b in list ==> b in nodes && b !in freed)
      && (forall b {:trigger Latest(log, b)} :: b in list ==> FlagsOf(b) == Latest(log, b))
    }

    constructor ()
      ensures Valid() && list == [] && nesting == 0
    {
      first, nesting, list, nodes, freed, log := null, 0, [], {}, {}, [];
    }

    ghost function Now(): Snapshot
      reads this, list`deleted
    {
      Snapshot(list, Dead(list), nodes, nesting, freed, log)
    }

    method BhNew() returns (bh: BH)
      requires Valid()
      modifies `first, `list, `nodes, `log
      ensures Valid() && fresh(bh) && list == old(list) + [bh] && nodes == old(nodes) + {bh}
      ensures log == old(log) + [Note(bh, CLEARED, false)]
    {
      bh := new BH(first);
      first := bh;
      list := list + [bh];
      nodes := nodes + {bh};
      log := log + [Note(bh, CLEARED, false)];
      forall b | b in list ensures FlagsOf(b) == Latest(log, b) {
        LatestMore(old(log), Note(bh, CLEARED, false), b);
      }
    }

    // The anchor or the field that points to the node at place p - 1 is moved past it.
    method Unlink(prev: BH?, bh: BH, ghost p: nat, ghost m: nat)
      requires Valid() && m < |list| && p == m + 1 && bh == list[m] && prev == (if p < |list| then list[p] else null)
      modifies `first, `list, `freed, nodes`next
      ensures Valid() && list == old(list)[..m] + old(list)[p..] && freed == old(freed) + {bh}
    {
      AllApart(list, m);
      if prev == null {
        first := bh.next;
      } else {
        AllApart(list, p);
        prev.next := bh.next;
      }
      list := list[..m] + list[p..];
      freed := freed + {bh};
    }

    // One turn of the loop below, at the node at place m.
    method SweepOne(prev: BH?, bh: BH, ghost p: nat, ghost m: nat) returns (prev': BH?, bh': BH?)
      requires Valid() && p == m + 1 && p <= |list| && bh == list[m]
      requires prev == if p < |list| then list[p] else null
      modifies `first, `list, `freed, nodes`next
      ensures Valid() && list == if bh.deleted then old(list)[..m] + old(list)[p..] else old(list)
      ensures freed == if bh.deleted then old(freed) + {bh} else old(freed)
      ensures m <= |list| && prev' == (if m < |list| then list[m] else null) && bh' == Below(list, m)
    {
      prev' := prev;
      if bh.deleted {
        Unlink(prev, bh, p, m);
      } else {
        prev' := bh;
      }
      bh' := if prev' == null then first else prev'.next;
    }

    // The loop that unlinks and frees deleted bottom halves; prev is the node whose next
    // field bhp points to, or null while bhp points to the anchor.
    method Sweep()
      requires Valid() && nesting == 0
      modifies `first, `list, `freed, nodes`next
      ensures Valid() && list == Without(old(list), old(Dead(list))) && freed == old(freed) + old(Dead(list))
    {
      ghost var all, dead, p: nat := list, Dead(list), |list|;
      var prev: BH? := null;
      var bh := first;
      SweptNone(all, dead, freed);
      while bh != null
        invariant Valid() && Swept(all, dead, old(freed), p, list, freed) && bh == Below(list, p)
        invariant prev == if p < |list| then list[p] else null
        decreases p
      {
        ghost var m: nat := p - 1;
        if bh.deleted {
          SweptDrop(all, dead, old(freed), p, m, list, freed);
        } else {
          SweptKeep(all, dead, old(freed), p, m, list, freed);
        }
        prev, bh := SweepOne(prev, bh, p, m);
        p := m;
      }
      SweptAll(all, dead, old(freed), list, freed);
    }

    // What the log says of a flag change made to bh.
    twostate lemma Noted(bh: BH)
      requires old(Valid()) && list == old(list) && bh in list && log == old(log) + [Note(bh, FlagsOf(bh), false)]
      requires forall b :: b in list && b != bh ==> FlagsOf(b) == old(FlagsOf(b))
      ensures forall b {:trigger Latest(log, b)} :: b in list ==> FlagsOf(b) == Latest(log, b)
    {
      forall b | b in list ensures FlagsOf(b) == Latest(log, b) {
        LatestMore(old(log), Note(bh, FlagsOf(bh), false), b);
        assert old(FlagsOf(b)) == Latest(old(log), b);
      }
    }

    // qemu_bh_schedule and qemu_bh_schedule_idle
    method BhSchedule(bh: BH, idle: bool)
      requires Valid() && bh in list
      modifies bh`scheduled, bh`idle, `log
      ensures Valid() && bh.scheduled && bh.idle == if old(bh.scheduled) then old(bh.idle) else idle
      ensures log == old(log) || log == old(log) + [Note(bh, FlagsOf(bh), false)]
    {
      if bh.scheduled {
        return;
      }
      bh.scheduled, bh.idle := true, idle;
      log := log + [Note(bh, FlagsOf(bh), false)];
      Noted(bh);
    }

    method BhCancel(bh: BH)
      requires Valid() && bh in list
      modifies bh`scheduled, `log
      ensures Valid() && !bh.scheduled && log == old(log) + [Note(bh, FlagsOf(bh), false)]
    {
      bh.scheduled := false;
      log := log + [Note(bh, FlagsOf(bh), false)];
      Noted(bh);
    }

    method BhDelete(bh: BH)
      requires Valid() && bh in list
      modifies bh`scheduled, bh`deleted, `log
      ensures Valid() && !bh.scheduled && bh.deleted && log == old(log) + [Note(bh, FlagsOf(bh), false)]
    {
      bh.scheduled, bh.deleted := false, true;
      log := log + [Note(bh, FlagsOf(bh), false)];
      Noted(bh);
    }

    // The k-th node of the list.
    method Nth(k: nat) returns (bh: BH?)
      requires Valid()
      ensures if k < |list| then bh == list[|list| - 1 - k] else bh == null
    {
      bh := first;
      var i := 0;
      while bh != null && i < k
        invariant i <= k && i <= |list| && bh == Below(list, |list| - i)
        decreases |list| - i
      {
        bh, i := bh.next, i + 1;
      }
    }

    // Any code that runs while a walk is active.
    method Act(a: Action)
      requires Valid() && nesting > 0
      modifies this, nodes
      ensures Valid() && Later(old(Now()), Now()) && fresh(nodes - old(nodes))
      ensures a.New? ==> |list| == |old(list)| + 1
      ensures Aims(a, |old(list)|) ==> Hit(a, old(FlagsOf(list[|list| - 1 - a.k])), FlagsOf(old(list)[|old(list)| - 1 - a.k]))
      decreases a, 7
    {
      match a
      case New =>
        var _ := BhNew();
      case Schedule(_) =>
        ActOn(a);
      case ScheduleIdle(_) =>
        ActOn(a);
      case Cancel(_) =>
        ActOn(a);
      case Delete(_) =>
        ActOn(a);
      case Do(_) =>
        ActAll(a);
      case Poll(runs) =>
        var _, _, _ := BhPoll(a);
    }

    // Something done to the k-th bottom half of the list, if there is one.
    method ActOn(a: Action)
      requires Valid() && nesting > 0 && (a.Schedule? || a.ScheduleIdle? || a.Cancel? || a.Delete?)
      modifies this, nodes
      ensures Valid() && Later(old(Now()), Now()) && nodes == old(nodes)
      ensures Aims(a, |old(list)|) ==> Hit(a, old(FlagsOf(list[|list| - 1 - a.k])), FlagsOf(old(list)[|old(list)| - 1 - a.k]))
    {
      var bh := Nth(a.k);
      if bh == null {
        return;
      }
      if a.Schedule? || a.ScheduleIdle? {
        BhSchedule(bh, a.ScheduleIdle?);
      } else if a.Cancel? {
        BhCancel(bh);
      } else {
        BhDelete(bh);
      }
    }

    method ActAll(a: Action)
      requires Valid() && nesting > 0 && a.Do?
      modifies this, nodes
      ensures Valid() && Later(old(Now()), Now()) && fresh(nodes - old(nodes))
      decreases a, 6
    {
      ghost var s := Now();
      for i := 0 to |a.actions|
        invariant Valid() && Later(s, Now()) && fresh(nodes - old(nodes))
      {
        ghost var t := Now();
        Act(a.actions[i]);
        LaterTrans(s, t, Now());
      }
    }

    // bh->cb(bh->opaque), doing what is a.runs[used], if given.
    method Callback(a: Action, used: nat, bh: BH)
      requires Valid() && nesting > 0 && a.Poll? && bh in list && FlagsOf(bh) == CLEARED
      modifies this, nodes
      ensures Valid() && Later(old(Now()), Now()) && fresh(nodes - old(nodes))
      ensures |log| > |old(log)| && log[|old(log)|] == Note(bh, old(FlagsOf(bh)), true)
      ensures used >= |a.runs| ==> |log| == |old(log)| + 1
      decreases a, 0
    {
      ghost var s := Now();
      log := log + [Note(bh, FlagsOf(bh), true)];
      forall b | b in list ensures FlagsOf(b) == Latest(log, b) {
        LatestMore(old(log), Note(bh, CLEARED, true), b);
      }
      ghost var t := Now();
      if used < |a.runs| {
        Act(a.runs[used]);
        LaterTrans(s, t, Now());
      }
    }

    // The flags are cleared before the callback is called.
    method ClearFlags(bh: BH) returns (busy: bool)
      requires Valid() && bh in list && !bh.deleted
      modifies bh`scheduled, bh`idle, `log
      ensures Valid() && FlagsOf(bh) == CLEARED && busy == !old(bh.idle) && log == old(log) + [Note(bh, CLEARED, false)]
    {
      bh.scheduled := false;
      busy := !bh.idle;
      bh.idle := false;
      log := log + [Note(bh, FlagsOf(bh), false)];
      Noted(bh);
    }

    // One turn of the walk, at the node at place m; next is read before the callback is called.
    method Visit(a: Action, used: nat, bh: BH, ghost m: nat) returns (next: BH?, ran: bool, busy: bool, ghost t: Turn)
      requires Valid() && nesting > 0 && a.Poll? && m < |list| && bh == list[m]
      modifies this, nodes
      ensures Valid() && Later(old(Now()), Now()) && fresh(nodes - old(nodes))
      ensures t == Turn(bh, old(FlagsOf(bh)), |old(log)|, |log|)
      ensures Taken(t, log) && Seen(t, log) && ran == Due(t) && busy == (Due(t) && !t.flags.idle)
      ensures next == Below(old(list), m)
      ensures used >= |a.runs| ==> t.to <= t.from + 2
      decreases a, 1
    {
      next, ran, busy := bh.next, false, false;
      if !bh.deleted && bh.scheduled {
        ghost var s := Now();
        ran := true;
        busy := ClearFlags(bh);
        ghost var u := Now();
        Callback(a, used, bh);
        LaterTrans(s, u, Now());
      }
      t := Turn(bh, old(FlagsOf(bh)), |old(log)|, |log|);
      LatestPrefix(old(log), log, t.from, bh);
      assert t.flags == Latest(old(log), bh);
    }

    // A walk that started in state s has reached place p.  quiet says that the callbacks do
    // nothing.
    ghost predicate InWalk(s: Snapshot, p: nat, turns: seq<Turn>, ret: int, quiet: bool)
      reads this, list
    {
      && Valid() && Later(s, Now())
      && Walked(s.list, p, turns, |s.log|, log) && ret == (if Busy(turns) then 1 else 0)
      && (quiet ==> Quiet(turns))
    }

    // The body of the for loop of qemu_bh_poll.
    method TakeTurn(a: Action, used: nat, ret: int, bh: BH, ghost s: Snapshot, ghost p: nat, ghost m: nat,
                    ghost turns: seq<Turn>, ghost quiet: bool)
      returns (next: BH?, used': nat, ret': int, ghost turns': seq<Turn>)
      requires a.Poll? && s.nesting > 0 && p == m + 1 && p <= |s.list| && bh == s.list[m]
      requires InWalk(s, p, turns, ret, quiet) && (quiet ==> a.runs == [])
      modifies this, nodes
      ensures InWalk(s, m, turns', ret', quiet) && fresh(nodes - old(nodes))
      ensures next == Below(s.list, m)
      decreases a, 2
    {
      ghost var before, u := log, Now();
      ghost var t;
      var ran, busy;
      next, ran, busy, t := Visit(a, used, bh, m);
      LaterTrans(s, u, Now());
      WalkedMore(s.list, p, m, turns, |s.log|, before, t, log);
      turns' := turns + [t];
      ret' := if busy then 1 else ret;
      used' := if ran then used + 1 else used;
    }

    // The for loop of qemu_bh_poll.
    method WalkList(a: Action, ghost s: Snapshot, ghost quiet: bool) returns (ret: int, ghost turns: seq<Turn>)
      requires a.Poll? && s.nesting > 0 && s.list == list && InWalk(s, |s.list|, [], 0, quiet) && (quiet ==> a.runs == [])
      modifies this, nodes
      ensures InWalk(s, 0, turns, ret, quiet) && fresh(nodes - old(nodes))
      decreases a, 3
    {
      ghost var p: nat := |s.list|;
      var used: nat := 0;
      var bh := first;
      ret, turns := 0, [];
      while bh != null
        invariant InWalk(s, p, turns, ret, quiet) && fresh(nodes - old(nodes))
        invariant p <= |s.list| && bh == Below(s.list, p)
        decreases p
      {
        ghost var m: nat := p - 1;
        bh, used, ret, turns := TakeTurn(a, used, ret, bh, s, p, m, turns, quiet);
        p := m;
      }
    }

    // A walk: whatever the callbacks do, every node that was on the list gets one turn, in
    // the order of the list, and no other node does.  It runs if and only if it is due then.
    method Walk(a: Action) returns (ret: int, ghost turns: seq<Turn>)
      requires Valid() && nesting > 0 && a.Poll?
      modifies this, nodes
      ensures Valid() && Later(old(Now()), Now()) && fresh(nodes - old(nodes))
      ensures Walked(old(list), 0, turns, |old(log)|, log) && ret == if Busy(turns) then 1 else 0
      ensures a.runs == [] ==> Quiet(turns)
      decreases a, 4
    {
      ret, turns := WalkList(a, Now(), a.runs == []);
    }

    // full is the list at the end of the walk, with the nodes created in it in front.
    method BhPoll(a: Action) returns (ret: int, ghost turns: seq<Turn>, ghost full: seq<BH>)
      requires Valid() && a.Poll?
      modifies this, nodes
      ensures Valid() && nesting == old(nesting) && fresh(nodes - old(nodes))
      ensures Walked(old(list), 0, turns, |old(log)|, log) && ret == if Busy(turns) then 1 else 0
      ensures a.runs == [] ==> Quiet(turns)
      ensures old(nesting) > 0 ==> Later(old(Now()), Now()) && list == full
      ensures old(list) <= full && OnList(nodes - old(nodes), full)
      ensures old(nesting) == 0 ==> list == Without(full, Dead(full)) && freed == old(freed) + Dead(full)
      ensures Spared(old(Dead(list)), log, |old(log)|)
      decreases a, 6
    {
      ret, turns := WalkNested(a);
      full := list;
      if nesting == 0 {
        Sweep();
      }
    }

    // The walk, with nesting counted up for its time.
    method WalkNested(a: Action) returns (ret: int, ghost turns: seq<Turn>)
      requires Valid() && a.Poll?
      modifies this, nodes
      ensures Valid() && Later(old(Now()), Now()) && fresh(nodes - old(nodes))
      ensures Walked(old(list), 0, turns, |old(log)|, log) && ret == if Busy(turns) then 1 else 0
      ensures a.runs == [] ==> Quiet(turns)
      decreases a, 5
    {
      nesting := nesting + 1;
      ret, turns := Walk(a);
      nesting := nesting - 1;
    }
  }
}
