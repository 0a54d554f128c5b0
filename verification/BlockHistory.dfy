/** What happens in a block migration, on record: the states it goes through, what the guest
    has asked for and which of it has reached the disks. */
module BlockHistory {
  import opened Disk
  import opened BlockProtocol

  // A guest write.
  datatype Request = Request(dev: nat, at: nat, data: Disk)

  datatype History = History(
    states: seq<State>,        // the states so far, the present one last
    told: seq<Request>,        // the writes the guest has submitted
    waiting: seq<Request>,     // those whose data has not reached the image
    landed: seq<Request>)      // those whose data has, in the order it did

  // What happens next: a step that is not the guest's, a new write, or one that lands.
  datatype Tick = Take(step: Step) | Ask(r: Request) | Arrive(i: nat)

  ghost predicate Ends(h: History, st: State) {
    h.states != [] && h.states[|h.states| - 1] == st
  }

  ghost predicate Extends(h: History, st: State, t: Tick, h': History, st': State) {
    && Ends(h, st)
    && match t
       case Take(s) => !s.Land? && Move(st, s, st', true) && h' == h.(states := h.states + [st'])
       case Ask(r) => st' == st && h' == h.(told := h.told + [r], waiting := h.waiting + [r])
       case Arrive(i) =>
         && i < |h.waiting|
         && var r := h.waiting[i];
            && Lands(st, r.dev, r.at, r.data, st')
            && h' == History(h.states + [st'], h.told, h.waiting[..i] + h.waiting[i + 1..], h.landed + [r])
  }

  // A property of histories that whatever happens next keeps.
  ghost predicate Closed(p: iset<History>) {
    forall h, st, t, h', st' :: h in p && Extends(h, st, t, h', st') ==> h' in p
  }

  // Nothing is forgotten, and the guest has not submitted anything in between.
  ghost predicate After(h: History, h': History) {
    h.states <= h'.states && h.told == h'.told && h.landed <= h'.landed
  }

  lemma AfterTrans(a: History, b: History, c: History)
    requires After(a, b) && After(b, c)
    ensures After(a, c)
  {
  }

  // ----- the histories that are

  // The disks after these writes.
  function Applied(disks: seq<Disk>, rs: seq<Request>): (r: seq<Disk>) {
    if rs == [] then disks else ApplyOne(Applied(disks, rs[..|rs| - 1]), rs[|rs| - 1])
  }

  function ApplyOne(disks: seq<Disk>, r: Request): seq<Disk> {
    if r.dev < |disks| && r.at + |r.data| <= |disks[r.dev]|
    then disks[r.dev := Overwrite(disks[r.dev], r.at, r.data)] else disks
  }

  ghost predicate Linked(a: State, b: State) {
    exists s :: Move(a, s, b, true)
  }

  ghost predicate Traced(states: seq<State>) {
    forall i {:trigger Linked(states[i - 1], states[i])} :: 0 < i < |states| ==> Linked(states[i - 1], states[i])
  }

  // A record of a run from the given state, with the disks holding what has landed, and
  // every write submitted either landed or waiting.
  ghost predicate Genuine(start: State, h: History) {
    && h.states != [] && h.states[0] == start && Traced(h.states)
    && Reaches(start, h.states[|h.states| - 1])
    && multiset(h.told) == multiset(h.waiting) + multiset(h.landed)
    && h.states[|h.states| - 1].src == Applied(start.src, h.landed)
  }

  ghost function AllGenuine(start: State): iset<History> {
    iset h | Genuine(start, h)
  }

  lemma TracedMore(states: seq<State>, s: Step, st': State)
    requires states != [] && Traced(states) && Move(states[|states| - 1], s, st', true)
    ensures Traced(states + [st'])
  {
    var more := states + [st'];
    forall i | 0 < i < |more| ensures Linked(more[i - 1], more[i]) {
      if i < |states| {
        assert Linked(states[i - 1], states[i]);
      }
    }
  }

  lemma Removed<T>(s: seq<T>, i: nat)
    requires i < |s|
    ensures multiset(s) == multiset(s[..i] + s[i + 1..]) + multiset{s[i]}
  {
    assert s == s[..i] + [s[i]] + s[i + 1..];
  }

  lemma GenuineStep(start: State, h: History, st: State, s: Step, h': History, st': State)
    requires Genuine(start, h) && Extends(h, st, Take(s), h', st')
    ensures Genuine(start, h')
  {
    TracedMore(h.states, s, st');
    ReachesStep(start, st, s, st');
  }

  lemma GenuineLand(start: State, h: History, st: State, i: nat, h': History, st': State)
    requires Genuine(start, h) && Extends(h, st, Arrive(i), h', st')
    ensures Genuine(start, h')
  {
    var r := h.waiting[i];
    var s := Land(r.dev, r.at, r.data);
    assert Move(st, s, st', true);
    TracedMore(h.states, s, st');
    ReachesStep(start, st, s, st');
    Removed(h.waiting, i);
    assert h'.landed[..|h'.landed| - 1] == h.landed;
  }

  lemma GenuineClosed(start: State)
    ensures Closed(AllGenuine(start)) && History([start], [], [], []) in AllGenuine(start)
  {
    ReachesSelf(start);
    forall h, st, t, h', st' | h in AllGenuine(start) && Extends(h, st, t, h', st') ensures h' in AllGenuine(start) {
      match t
      case Take(s) => GenuineStep(start, h, st, s, h', st');
      case Ask(r) =>
      case Arrive(i) => GenuineLand(start, h, st, i, h', st');
    }
  }
}
