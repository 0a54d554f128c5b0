/** bdrv_aio_multiwrite: submitting a list of writes at once, with a counter that says when
    the callbacks of all the original requests may run. */
module Multiwrite {

  import opened Errno

  // The first failure among results in the order they came, 0 without one.
  function FirstError(log: seq<int>): (e: int)
    ensures e <= 0
  {
    if log == [] then 0
    else if log[0] < 0 then log[0]
    else FirstError(log[1..])
  }

  // Entry k is the first failure.
  ghost predicate FailsAt(log: seq<int>, k: nat) {
    k < |log| && log[k] < 0 && forall j :: 0 <= j < k ==> log[j] >= 0
  }

  lemma {:induction false} FirstErrorIs(log: seq<int>) returns (k: nat)
    ensures if FirstError(log) == 0 then forall j :: 0 <= j < |log| ==> log[j] >= 0
            else FailsAt(log, k) && FirstError(log) == log[k]
  {
    k := 0;
    if log != [] && log[0] >= 0 {
      k := FirstErrorIs(log[1..]);
      if FirstError(log) < 0 {
        assert log[1..][k] == log[k + 1];
        k := k + 1;
        assert forall j :: 0 < j < k ==> log[j] == log[1..][j - 1];
      } else {
        assert forall j :: 0 < j < |log| ==> log[j] == log[1..][j - 1];
      }
    }
  }

  lemma {:induction false} FirstErrorNext(log: seq<int>, ret: int)
    ensures FirstError(log + [ret]) == if ret < 0 && FirstError(log) == 0 then ret else FirstError(log)
  {
    if log != [] {
      assert (log + [ret])[1..] == log[1..] + [ret];
      FirstErrorNext(log[1..], ret);
    }
  }

  // One call of each of the first n callbacks, in order, with this result.
  function Calls(n: nat, error: int): seq<(nat, int)> { seq(n, i => (i, error)) }

  // What may happen while a write is being submitted: completions of writes that were
  // accepted, this one included, and whether it is accepted at all.
  datatype Submission = Submission(accepted: bool, during: seq<(nat, int)>)

  // ----- what the writes report

  // Writes still outstanding, and the results reported.
  datatype Tally = Tally(pending: set<nat>, log: seq<int>)

  // These completions, of which only those of outstanding writes can happen, in order.
  function Reported(pending: set<nat>, events: seq<(nat, int)>): Tally {
    if events == [] then Tally(pending, [])
    else
      var t, e := Reported(pending, events[..|events| - 1]), events[|events| - 1];
      if e.0 in t.pending then Tally(t.pending - {e.0}, t.log + [e.1]) else t
  }

  // Write w is among those that complete.
  ghost predicate Reports(events: seq<(nat, int)>, w: nat) {
    exists i :: 0 <= i < |events| && events[i].0 == w
  }

  // Each outstanding write that completes reports once, and the others stay outstanding.
  lemma {:induction false} ReportedOnce(pending: set<nat>, events: seq<(nat, int)>)
    ensures var t := Reported(pending, events);
            && t.pending <= pending && |t.log| + |t.pending| == |pending|
            && forall w :: w in pending ==> (w in t.pending <==> !Reports(events, w))
  {
    if events != [] {
      var n := |events| - 1;
      var front := events[..n];
      ReportedOnce(pending, front);
      var t, e := Reported(pending, front), events[n];
      if e.0 in t.pending {
        assert t.pending == (t.pending - {e.0}) + {e.0};
      }
      forall w | w in pending ensures Reports(events, w) <==> Reports(front, w) || w == e.0 {
        if Reports(front, w) {
          var i :| 0 <= i < |front| && front[i].0 == w;
          assert events[i].0 == w;
        }
        if w == e.0 {
          assert events[n].0 == w;
        }
        if Reports(events, w) && w != e.0 {
          var i :| 0 <= i < |events| && events[i].0 == w;
          assert front[i].0 == w;
        }
      }
    }
  }

  // Event i is the first completion of a write that is outstanding.
  ghost predicate Counts(pending: set<nat>, events: seq<(nat, int)>, i: nat) {
    i < |events| && events[i].0 in pending && forall j :: 0 <= j < i ==> events[j].0 != events[i].0
  }

  // at are the places of those, in order.
  ghost predicate Places(pending: set<nat>, events: seq<(nat, int)>, at: seq<nat>) {
    && (forall k :: 0 <= k < |at| ==> Counts(pending, events, at[k]))
    && (forall j, k :: 0 <= j < k < |at| ==> at[j] < at[k])
    && (forall i :: 0 <= i < |events| && Counts(pending, events, i) ==> i in at)
  }

  lemma CountsFront(pending: set<nat>, events: seq<(nat, int)>, n: nat, i: nat)
    requires n == |events| - 1 && i < n
    ensures Counts(pending, events, i) <==> Counts(pending, events[..n], i)
  {
  }

  lemma PlacesMore(pending: set<nat>, events: seq<(nat, int)>, n: nat, at: seq<nat>, at': seq<nat>)
    requires n == |events| - 1 && Places(pending, events[..n], at)
    requires at' == if Counts(pending, events, n) then at + [n] else at
    ensures Places(pending, events, at')
  {
    forall k | 0 <= k < |at| ensures at[k] < n && Counts(pending, events, at[k]) {
      assert Counts(pending, events[..n], at[k]);
      CountsFront(pending, events, n, at[k]);
    }
    forall i | 0 <= i < |events| && Counts(pending, events, i) ensures i in at' {
      if i < n {
        CountsFront(pending, events, n, i);
        assert i in at;
      } else {
        assert at'[|at|] == n;
      }
    }
  }

  // The last event counts if and only if its write is outstanding then.
  lemma LastCounts(pending: set<nat>, events: seq<(nat, int)>, n: nat)
    requires n == |events| - 1
    ensures events[n].0 in Reported(pending, events[..n]).pending <==> Counts(pending, events, n)
  {
    var front, w := events[..n], events[n].0;
    ReportedOnce(pending, front);
    if w in pending && Reports(front, w) {
      var i :| 0 <= i < |front| && front[i].0 == w;
      assert events[i].0 == w;
    }
    if w in pending && !Reports(front, w) {
      forall j | 0 <= j < n ensures events[j].0 != w {
        assert front[j] == events[j];
      }
    }
  }

  // These are the results of the events at those places.
  ghost predicate ResultsAt(log: seq<int>, events: seq<(nat, int)>, at: seq<nat>) {
    |log| == |at| && forall k :: 0 <= k < |at| ==> at[k] < |events| && log[k] == events[at[k]].1
  }

  lemma ResultsMore(log: seq<int>, events: seq<(nat, int)>, n: nat, at: seq<nat>)
    requires n == |events| - 1 && ResultsAt(log, events[..n], at)
    ensures ResultsAt(log, events, at) && ResultsAt(log + [events[n].1], events, at + [n])
  {
  }

  // The results reported are those of the first completions of outstanding writes.
  lemma {:induction false} ReportedResults(pending: set<nat>, events: seq<(nat, int)>) returns (at: seq<nat>)
    ensures Places(pending, events, at) && ResultsAt(Reported(pending, events).log, events, at)
  {
    if events == [] {
      at := [];
    } else {
      var n := |events| - 1;
      var was := ReportedResults(pending, events[..n]);
      LastCounts(pending, events, n);
      at := if Counts(pending, events, n) then was + [n] else was;
      PlacesMore(pending, events, n, was, at);
      ResultsMore(Reported(pending, events[..n]).log, events, n, was);
    }
  }

  // The first n writes submitted, all accepted, with what completes meanwhile.
  function Submitted(subs: seq<Submission>, n: nat): Tally
    requires n <= |subs|
  {
    if n == 0 then Tally({}, [])
    else
      var t := Submitted(subs, n - 1);
      var r := Reported(t.pending + {n - 1}, subs[n - 1].during);
      Tally(r.pending, t.log + r.log)
  }

  // How many are accepted before the first that is not.
  function Accepted(subs: seq<Submission>): (n: nat)
    ensures n <= |subs| && (forall k :: 0 <= k < n ==> subs[k].accepted) && (n < |subs| ==> !subs[n].accepted)
  {
    if subs == [] || !subs[0].accepted then 0 else 1 + Accepted(subs[1..])
  }

  // When the loop of submissions has ended.
  function AfterLoop(subs: seq<Submission>): Tally {
    var n := Accepted(subs);
    var t := Submitted(subs, n);
    if n == |subs| then t
    else
      var r := Reported(t.pending, subs[n].during);
      Tally(r.pending, t.log + r.log)
  }

  // When the call has returned: a late refusal reports -EIO, and the dummy request 0.
  function AfterCall(subs: seq<Submission>): Tally {
    var t := AfterLoop(subs);
    Tally(t.pending, t.log + (if Accepted(subs) < |subs| then [-EIO] else []) + [0])
  }

  // And after completions that follow.
  function AfterAll(subs: seq<Submission>, later: seq<(nat, int)>): Tally {
    var t := AfterCall(subs);
    var r := Reported(t.pending, later);
    Tally(r.pending, t.log + r.log)
  }

  lemma AcceptedIs(subs: seq<Submission>, n: nat)
    requires n <= |subs| && (forall k :: 0 <= k < n ==> subs[k].accepted) && (n < |subs| ==> !subs[n].accepted)
    ensures Accepted(subs) == n
  {
  }

  lemma {:induction false} SubmittedBelow(subs: seq<Submission>, n: nat)
    requires n <= |subs|
    ensures forall w :: w in Submitted(subs, n).pending ==> w < n
  {
    if n > 0 {
      SubmittedBelow(subs, n - 1);
      ReportedOnce(Submitted(subs, n - 1).pending + {n - 1}, subs[n - 1].during);
    }
  }

  class MultiwriteCB {
    var error: int
    var numRequests: int
    const numCallbacks: nat
    var freed: bool

    // The calls of user callbacks so far.
    var calls: seq<(nat, int)>

    // The driver's side: writes that were accepted and have not completed.
    var pending: set<nat>

    // Requests that are counted without being accepted; results in the order they were
    // reported; nothing was submitted.
    ghost var extra: nat
    ghost var log: seq<int>
    ghost var refused: bool

    ghost predicate Valid()
      reads this
    {
      && error == FirstError(log)
      && (!freed ==> numRequests == |pending| + extra > 0 && calls == [] && !refused)
      && (freed ==> pending == {} && extra == 0)
      && (freed && !refused ==> calls == Calls(numCallbacks, FirstError(log)))
      && (refused ==> freed && calls == [])
    }

    constructor (n: nat)
      ensures Valid() && numCallbacks == n && !freed && calls == [] && pending == {} && extra == 1 && log == []
    {
      error, numRequests, numCallbacks, freed, calls := 0, 1, n, false, [];
      pending, extra, log, refused := {}, 1, [], false;
    }

    method UserCallbacks()
      modifies `calls
      ensures calls == old(calls) + Calls(numCallbacks, error)
    {
      ghost var was := calls;
      for i := 0 to numCallbacks
        invariant calls == was + Calls(i, error)
      {
        calls := calls + [(i, error)];
      }
    }

    // multiwrite_cb, for write w if it was accepted, or for a request that was only counted.
    method Callback(w: nat, accepted: bool, ret: int)
      requires Valid() && !freed && if accepted then w in pending else extra > 0
      modifies this
      ensures Valid() && log == old(log) + [ret] && !refused
      ensures pending == (if accepted then old(pending) - {w} else old(pending))
      ensures extra == (if accepted then old(extra) else old(extra) - 1)
      ensures freed <==> pending == {} && extra == 0
    {
      FirstErrorNext(log, ret);
      if ret < 0 && error == 0 {
        error := ret;
      }
      log := log + [ret];
      if accepted {
        pending := pending - {w};
      }
      extra := if accepted then extra else extra - 1;
      numRequests := numRequests - 1;
      if numRequests == 0 {
        UserCallbacks();
        freed := true;
      }
    }

    // Writes outstanding and results reported since there was this log.
    ghost predicate Shows(log0: seq<int>, t: Tally)
      reads this
    {
      pending == t.pending && log == log0 + t.log
    }

    // Writes outstanding and all results reported.
    ghost predicate Tallied(t: Tally)
      reads this
    {
      pending == t.pending && log == t.log
    }

    // Completions of accepted writes, in any order; what is not pending cannot complete.
    method Completions(events: seq<(nat, int)>)
      requires Valid() && (pending != {} ==> !freed)
      modifies this
      ensures Valid() && extra == old(extra) && refused == old(refused)
      ensures Shows(old(log), Reported(old(pending), events))
      ensures (pending == {} && extra == 0) || !freed
      ensures old(freed) ==> freed && calls == old(calls)
    {
      for i := 0 to |events|
        invariant Valid() && extra == old(extra) && refused == old(refused)
        invariant Shows(old(log), Reported(old(pending), events[..i]))
        invariant old(freed) ==> freed && calls == old(calls)
      {
        assert events[..i + 1][..i] == events[..i];
        if events[i].0 in pending {
          Callback(events[i].0, true, events[i].1);
        }
      }
      assert events[..|events|] == events;
    }

    // bdrv_aio_writev for write i, which the caller has counted.
    method Writev(i: nat, s: Submission) returns (accepted: bool)
      requires Valid() && !freed && extra == 2 && i !in pending
      modifies this
      ensures Valid() && !freed && accepted == s.accepted
      ensures extra == if accepted then 1 else 2
      ensures Shows(old(log), Reported(old(pending) + if accepted then {i} else {}, s.during))
    {
      accepted := s.accepted;
      if accepted {
        pending := pending + {i};
        extra := extra - 1;
      }
      assert old(pending) + {} == old(pending);
      Completions(s.during);
    }

    // One turn of the loop below.
    method SubmitOne(subs: seq<Submission>, at: nat) returns (accepted: bool)
      requires Valid() && !freed && extra == 1 && at < |subs| && (forall k :: 0 <= k < at ==> subs[k].accepted)
      requires Tallied(Submitted(subs, at))
      modifies this
      ensures Valid() && !freed && accepted == subs[at].accepted && extra == if accepted then 1 else 2
      ensures accepted ==> Tallied(Submitted(subs, at + 1))
      ensures !accepted ==> Accepted(subs) == at && Tallied(AfterLoop(subs))
    {
      SubmittedBelow(subs, at);
      AcceptedIs(subs, if subs[at].accepted then Accepted(subs) else at);
      numRequests := numRequests + 1;
      extra := extra + 1;
      ghost var t := Submitted(subs, at);
      accepted := Writev(at, subs[at]);
      assert t.pending + {} == t.pending;
    }

    // The loop of submissions, up to the first that is not accepted; at is where it stopped.
    method Submit(subs: seq<Submission>) returns (at: nat)
      requires Valid() && !freed && extra == 1 && pending == {} && log == []
      modifies this
      ensures Valid() && !freed && at == Accepted(subs) && extra == if at < |subs| then 2 else 1
      ensures Tallied(AfterLoop(subs))
    {
      at := 0;
      while at < |subs|
        invariant Valid() && !freed && extra == 1 && at <= |subs| && (forall k :: 0 <= k < at ==> subs[k].accepted)
        invariant Tallied(Submitted(subs, at))
      {
        var accepted := SubmitOne(subs, at);
        if !accepted {
          return;
        }
        at := at + 1;
      }
      AcceptedIs(subs, at);
    }

    // What follows the loop: -EIO for a request that was not accepted, and the dummy request.
    method EndCall(subs: seq<Submission>, at: nat)
      requires Valid() && !freed && at == Accepted(subs) && extra == (if at < |subs| then 2 else 1)
      requires Tallied(AfterLoop(subs))
      modifies this
      ensures Valid() && extra == 0 && !refused && (freed <==> pending == {}) && Tallied(AfterCall(subs))
    {
      ghost var t := AfterLoop(subs);
      if at < |subs| {
        Callback(0, false, -EIO);
      } else {
        assert t.log + [] == t.log;
      }
      Callback(0, false, 0);
    }

    // The label fail: nothing was submitted.
    method Fail(subs: seq<Submission>)
      requires Valid() && !freed && Accepted(subs) == 0 < |subs| && Tallied(AfterLoop(subs))
      modifies this
      ensures Valid() && refused
    {
      ReportedOnce({}, subs[0].during);
      freed, refused, extra := true, true, 0;
    }
  }

  // For each of n requests: the error left in it, and the block that tracks them if any
  // was submitted. m of them are left after merging.
  method AioMultiwrite(medium: bool, errors: seq<int>, m: nat, subs: seq<Submission>)
    returns (status: int, errors': seq<int>, mcb: MultiwriteCB?)
    requires |subs| == m <= |errors| && (errors != [] ==> 0 < m)
    ensures !medium ==> status == -1 && mcb == null && errors' == seq(|errors|, _ => -ENOMEDIUM)
    ensures medium && errors == [] ==> status == 0 && mcb == null && errors' == errors
    ensures medium && errors != [] ==> mcb != null && mcb.Valid() && mcb.numCallbacks == |errors|
    ensures medium && errors != [] && !subs[0].accepted ==>
              status == -1 && errors' == seq(|errors|, _ => -EIO) && mcb.refused
    ensures medium && errors != [] ==> fresh(mcb)
    ensures medium && errors != [] && subs[0].accepted ==>
              status == 0 && errors' == errors && !mcb.refused && mcb.extra == 0 && (mcb.freed <==> mcb.pending == {})
    ensures medium && errors != [] && subs[0].accepted ==> mcb.Tallied(AfterCall(subs))
  {
    status, errors', mcb := 0, errors, null;
    if !medium {
      errors' := seq(|errors|, _ => -ENOMEDIUM);
      status := -1;
      return;
    }
    if errors == [] {
      return;
    }
    mcb := new MultiwriteCB(|errors|);
    var at := mcb.Submit(subs);
    if at < m && at == 0 {
      mcb.Fail(subs);
      errors' := seq(|errors|, _ => -EIO);
      status := -1;
      return;
    }
    mcb.EndCall(subs, at);
  }

  // A call and any completions after it, in any order: while a write is outstanding no
  // callback has run; once none is, each has run once, with the first error the writes
  // reported.
  method ExactlyOnce(errors: seq<int>, m: nat, subs: seq<Submission>, later: seq<(nat, int)>) returns (mcb: MultiwriteCB)
    requires |subs| == m <= |errors| && 0 < m && subs[0].accepted
    ensures var t := AfterAll(subs, later);
            mcb.pending == t.pending && mcb.calls == if t.pending == {} then Calls(|errors|, FirstError(t.log)) else []
  {
    var _, _, tracked := AioMultiwrite(true, errors, m, subs);
    mcb := tracked;
    mcb.Completions(later);
    assert mcb.Tallied(AfterAll(subs, later));
  }

  // No write is outstanding once each has completed.
  lemma AllReported(subs: seq<Submission>, later: seq<(nat, int)>)
    requires forall w: nat :: w < |subs| ==> Reports(later, w)
    ensures AfterAll(subs, later).pending == {}
  {
    var n := Accepted(subs);
    SubmittedBelow(subs, n);
    if n < |subs| {
      ReportedOnce(Submitted(subs, n).pending, subs[n].during);
    }
    ReportedOnce(AfterCall(subs).pending, later);
  }

  // ----- the error of a call

  lemma {:induction false} FirstErrorOf(a: seq<int>, b: seq<int>)
    ensures FirstError(a + b) == if FirstError(a) < 0 then FirstError(a) else FirstError(b)
  {
    if a == [] {
      assert a + b == b;
    } else {
      assert (a + b)[1..] == a[1..] + b;
      FirstErrorOf(a[1..], b);
    }
  }

  // All these completions succeed.
  ghost predicate Succeed(events: seq<(nat, int)>) {
    forall i :: 0 <= i < |events| ==> events[i].1 >= 0
  }

  ghost predicate AllSucceed(subs: seq<Submission>) {
    forall k {:trigger Succeed(subs[k].during)} :: 0 <= k < |subs| ==> Succeed(subs[k].during)
  }

  lemma ReportedSucceed(pending: set<nat>, events: seq<(nat, int)>)
    requires Succeed(events)
    ensures FirstError(Reported(pending, events).log) == 0
  {
    var at := ReportedResults(pending, events);
    var log := Reported(pending, events).log;
    forall k | 0 <= k < |log| ensures log[k] >= 0 {
      assert log[k] == events[at[k]].1;
    }
    var _ := FirstErrorIs(log);
  }

  lemma {:induction false} SubmittedSucceed(subs: seq<Submission>, n: nat)
    requires n <= |subs| && AllSucceed(subs)
    ensures FirstError(Submitted(subs, n).log) == 0
  {
    if n > 0 {
      NextSucceeds(subs, n - 1, n, Submitted(subs, n - 1));
      SubmittedSucceed(subs, n - 1);
    }
  }

  lemma NextSucceeds(subs: seq<Submission>, m: nat, n: nat, t: Tally)
    requires n == m + 1 && n <= |subs| && AllSucceed(subs) && t == Submitted(subs, m)
    ensures FirstError(t.log) == 0 ==> FirstError(Submitted(subs, n).log) == 0
  {
    assert Succeed(subs[m].during);
    if FirstError(t.log) == 0 {
      ReportedAfter(t, t.pending + {m}, subs[m].during);
    }
  }

  lemma ReportedAfter(t: Tally, pending: set<nat>, events: seq<(nat, int)>)
    requires FirstError(t.log) == 0 && Succeed(events)
    ensures FirstError(t.log + Reported(pending, events).log) == 0
  {
    ReportedSucceed(pending, events);
    FirstErrorOf(t.log, Reported(pending, events).log);
  }

  lemma LoopSucceeds(subs: seq<Submission>)
    requires AllSucceed(subs)
    ensures FirstError(AfterLoop(subs).log) == 0
  {
    var n := Accepted(subs);
    SubmittedSucceed(subs, n);
    if n < |subs| {
      assert Succeed(subs[n].during);
      var t := Submitted(subs, n);
      ReportedAfter(t, t.pending, subs[n].during);
    }
  }

  // The error of a call: the first reported in its loop, or -EIO for a late refusal, or the
  // first reported afterwards.
  lemma ErrorOf(subs: seq<Submission>, later: seq<(nat, int)>)
    ensures var inLoop := FirstError(AfterLoop(subs).log);
            FirstError(AfterAll(subs, later).log) ==
              if inLoop < 0 then inLoop
              else if Accepted(subs) < |subs| then -EIO
              else FirstError(Reported(AfterLoop(subs).pending, later).log)
  {
    var t := AfterLoop(subs);
    var late := if Accepted(subs) < |subs| then [-EIO] else [];
    var r := Reported(t.pending, later);
    FirstErrorOf(t.log + late + [0], r.log);
    FirstErrorOf(t.log + late, [0]);
    FirstErrorOf(t.log, late);
  }

  // A write that was not accepted shows in every callback, as -EIO if nothing else failed;
  // and if all are accepted and succeed, no callback carries an error.
  lemma LateRefusal(subs: seq<Submission>, later: seq<(nat, int)>)
    ensures var error, good := FirstError(AfterAll(subs, later).log), Succeed(later) && AllSucceed(subs);
            && ((exists k :: 0 <= k < |subs| && !subs[k].accepted) ==> error < 0)
            && (good ==> error == if exists k :: 0 <= k < |subs| && !subs[k].accepted then -EIO else 0)
  {
    ErrorOf(subs, later);
    assert (exists k :: 0 <= k < |subs| && !subs[k].accepted) <==> Accepted(subs) < |subs|;
    if Succeed(later) && AllSucceed(subs) {
      LoopSucceeds(subs);
      ReportedSucceed(AfterLoop(subs).pending, later);
    }
  }
}
