/** The rate-limited output buffer between a migration stream and its transport. */
module BufferedFile {
  import opened Bytes
  import opened Errno

  // How a run of calls of the transport ended: everything was taken, the transport was not
  // ready, the rate limit was reached, or it answered with this number, not a positive one.
  datatype Outcome = All | Again | Limited | Failed(error: int)

  // The bytes taken, the number of calls after them, the bytes counted, and how it ended.
  datatype Sent = Sent(taken: nat, calls: nat, xfer: nat, outcome: Outcome)

  // A transport that answers its k-th call with replies(k), offered n bytes until it stops
  // taking them, with or without regard to a rate limit.
  function Offer(replies: nat -> int, calls: nat, n: nat, xfer: nat, limit: nat, limited: bool): (s: Sent)
    ensures s.taken <= n
    decreases n
  {
    if n == 0 then Sent(0, calls, xfer, All)
    else if limited && xfer > limit then Sent(0, calls, xfer, Limited)
    else
      var r := replies(calls);
      if r == -EAGAIN then Sent(0, calls + 1, xfer, Again)
      else if r <= 0 then Sent(0, calls + 1, xfer, Failed(r))
      else
        var t := if r < n then r else n;
        var s := Offer(replies, calls + 1, n - t, xfer + t, limit, limited);
        s.(taken := t + s.taken)
  }

  lemma {:induction false} OfferEnds(replies: nat -> int, calls: nat, n: nat, xfer: nat, limit: nat, limited: bool)
    ensures var s := Offer(replies, calls, n, xfer, limit, limited);
            && s.calls >= calls && (n > 0 && !limited ==> s.calls > calls)
            && (s.outcome.All? ==> s.taken == n) && (s.outcome.Limited? ==> limited)
            && (s.outcome.Again? ==> s.calls > 0 && replies(s.calls - 1) == -EAGAIN)
            && (s.outcome.Failed? ==> s.calls > 0 && replies(s.calls - 1) == s.outcome.error <= 0)
    decreases n
  {
    if n > 0 && !(limited && xfer > limit) && replies(calls) > 0 {
      var r := replies(calls);
      var t := if r < n then r else n;
      OfferEnds(replies, calls + 1, n - t, xfer + t, limit, limited);
    }
  }

  // After taking bytes, the rest of s is t.
  ghost predicate Continues(s: Sent, taken: nat, t: Sent) {
    s.taken == taken + t.taken && s.calls == t.calls && s.xfer == t.xfer && s.outcome == t.outcome
  }

  lemma OfferMore(replies: nat -> int, limit: nat, limited: bool, s: Sent, t: nat,
                  calls: nat, n: nat, xfer: nat, taken: nat, calls': nat, n': nat, xfer': nat, taken': nat)
    requires Continues(s, taken, Offer(replies, calls, n, xfer, limit, limited)) && n > 0 && !(limited && xfer > limit)
    requires 0 < replies(calls) && t == if replies(calls) < n then replies(calls) else n
    requires calls' == calls + 1 && n' == n - t && xfer' == xfer + t && taken' == taken + t
    ensures Continues(s, taken', Offer(replies, calls', n', xfer', limit, limited))
  {
  }

  // A transport that never answers 0.
  ghost predicate Sound(replies: nat -> int) { forall k :: replies(k) != 0 }

  // Data that goes past what is held back keeps its place only if the two commute.
  lemma PassBy(front: seq<byte>, held: seq<byte>, taken: seq<byte>, rest: seq<byte>)
    ensures (front + taken) + (held + rest) == (front + held) + (taken + rest) <==> taken + held == held + taken
  {
    var a, b := taken + held, held + taken;
    assert (front + taken) + (held + rest) == front + (a + rest);
    assert (front + held) + (taken + rest) == front + (b + rest);
    if front + (a + rest) == front + (b + rest) {
      assert a + rest == (front + (a + rest))[|front|..] == b + rest;
      assert a == (a + rest)[..|a|] == b;
    }
  }

  // What a put leaves in order: bytes sent past held ones commute with them, and a put that
  // fails has sent nothing.
  predicate Orderly(taken: seq<byte>, held: seq<byte>, failed: bool) {
    if failed then taken == [] else taken + held == held + taken
  }

  function Fill(n: nat, v: byte): (r: seq<byte>)
    ensures |r| == n && forall k :: 0 <= k < n ==> r[k] == v
  {
    seq(n, _ => v)
  }

  // All bytes of these lengths commute: if and only if one of the lengths is 0.
  lemma AllCommute(n: nat, h: nat)
    ensures (forall a: seq<byte>, b: seq<byte> :: |a| == n && |b| == h ==> a + b == b + a) <==> n == 0 || h == 0
  {
    if n == 0 || h == 0 {
      forall a: seq<byte>, b: seq<byte> | |a| == n && |b| == h ensures a + b == b + a {
        assert a == [] || b == [];
      }
    } else {
      var a, b := Fill(n, 1), Fill(h, 0);
      assert (a + b)[0] == 1 && (b + a)[0] == 0;
      assert |a| == n && |b| == h && a + b != b + a;
    }
  }

  // A put of size bytes, of which it sends taken, over a buffer of length bytes, of which the
  // flush sends flushed, is orderly whatever the bytes are.
  ghost predicate AlwaysOrderly(size: nat, taken: nat, length: nat, flushed: nat, failed: bool)
    requires taken <= size && flushed <= length
  {
    forall data: seq<byte>, buf: seq<byte> :: |data| == size && |buf| == length ==> Orderly(data[..taken], buf[flushed..], failed)
  }

  // Exactly when nothing is sent, or nothing is held; after a failure, when nothing is sent.
  lemma AlwaysOrderlyIs(size: nat, taken: nat, length: nat, flushed: nat, failed: bool)
    requires taken <= size && flushed <= length
    ensures AlwaysOrderly(size, taken, length, flushed, failed) <==> taken == 0 || (!failed && flushed == length)
  {
    var held := length - flushed;
    AllCommute(taken, held);
    if taken == 0 || (!failed && held == 0) {
      forall data: seq<byte>, buf: seq<byte> | |data| == size && |buf| == length
        ensures Orderly(data[..taken], buf[flushed..], failed)
      {
        assert data[..taken] == [] || buf[flushed..] == [];
      }
    } else {
      var data, buf := Fill(size, 1), Fill(length, 0);
      assert !Orderly(data[..taken], buf[flushed..], failed) by {
        if !failed {
          assert (data[..taken] + buf[flushed..])[0] == 1 && (buf[flushed..] + data[..taken])[0] == 0;
        }
      }
    }
  }

  // A put takes some of its data past what is held, and holds the rest unless it fails.
  lemma Ordered(front: seq<byte>, held: seq<byte>, taken: seq<byte>, rest: seq<byte>, failed: bool)
    requires failed ==> rest == []
    ensures (front + taken) + (held + rest) == (front + held) + (if failed then [] else taken + rest) <==> Orderly(taken, held, failed)
  {
    if failed {
      if taken != [] {
        assert |(front + taken) + (held + rest)| != |(front + held) + []|;
      }
    } else {
      PassBy(front, held, taken, rest);
    }
  }

  class QEMUFileBuffered {
    var freezeOutput: bool
    var bytesXfer: nat
    var xferLimit: nat
    var buffer: array<byte>
    var bufferSize: nat

    // The error of the file this buffer belongs to, 0 for none.
    var lastError: int

    // The transport: its answers, how often it was called, what it has been given.
    const replies: nat -> int
    var calls: nat
    var delivered: seq<byte>

    // The bytes of all puts that returned their size.
    ghost var accepted: seq<byte>

    ghost predicate Valid()
      reads this
    {
      bufferSize <= buffer.Length
    }

    ghost function Held(): seq<byte>
      requires Valid()
      reads this, buffer
    {
      buffer[..bufferSize]
    }

    // What was delivered and what is held make up all that was accepted, in order.
    ghost predicate InSync()
      requires Valid()
      reads this, buffer
    {
      delivered + Held() == accepted
    }

    constructor (rate: nat, replies: nat -> int)
      ensures Valid() && InSync() && fresh(buffer) && lastError == 0 && this.replies == replies && calls == 0
      ensures delivered == [] && accepted == [] && bufferSize == 0 && bytesXfer == 0 && xferLimit == rate / 10 && !freezeOutput
    {
      freezeOutput, bytesXfer, xferLimit := false, 0, rate / 10;
      buffer := new byte[0];
      bufferSize, lastError := 0, 0;
      this.replies, calls, delivered, accepted := replies, 0, [], [];
    }

    // The transport is offered data and takes some of it, or none.
    method PutBackend(data: seq<byte>) returns (ret: int)
      modifies `calls, `delivered
      ensures calls == old(calls) + 1
      ensures ret == if replies(old(calls)) > |data| then |data| else replies(old(calls))
      ensures delivered + (if ret > 0 then data[ret..] else data) == old(delivered) + data
      ensures |delivered| == |old(delivered)| + if ret > 0 then ret else 0
    {
      ret := replies(calls);
      calls := calls + 1;
      if ret > |data| {
        ret := |data|;
      }
      if ret > 0 {
        assert data == data[..ret] + data[ret..];
        delivered := delivered + data[..ret];
      }
    }

    method Append(data: seq<byte>)
      requires Valid()
      modifies `buffer, `bufferSize, buffer
      ensures Valid() && Held() == old(Held()) + data && (buffer == old(buffer) || fresh(buffer))
    {
      if |data| > buffer.Length - bufferSize {
        var tmp := new byte[buffer.Length + |data| + 1024];
        forall i | 0 <= i < bufferSize {
          tmp[i] := buffer[i];
        }
        buffer := tmp;
      }
      ghost var was := buffer[..bufferSize];
      forall i | bufferSize <= i < bufferSize + |data| {
        buffer[i] := data[i - bufferSize];
      }
      bufferSize := bufferSize + |data|;
      assert buffer[..bufferSize] == was + data;
    }

    // What could not be delivered moves to the front.
    method Shift(offset: nat)
      requires Valid() && offset <= bufferSize
      modifies `bufferSize, buffer
      ensures Valid() && Held() == old(Held())[offset..]
    {
      forall i | 0 <= i < bufferSize - offset {
        buffer[i] := buffer[i + offset];
      }
      bufferSize := bufferSize - offset;
    }

    // One call of the transport in the loops below.
    method PushOnce(data: seq<byte>, limited: bool, xfer: nat, ghost s: Sent, ghost taken: nat)
      returns (rest: seq<byte>, ret: int)
      requires data != [] && !(limited && xfer > xferLimit)
      requires Continues(s, taken, Offer(replies, calls, |data|, xfer, xferLimit, limited))
      modifies `calls, `delivered, `freezeOutput, `lastError
      ensures delivered + rest == old(delivered) + data && |rest| + (if ret > 0 then ret else 0) == |data|
      ensures ret > 0 ==> freezeOutput == old(freezeOutput) && lastError == old(lastError)
      ensures ret > 0 ==> Continues(s, taken + ret, Offer(replies, calls, |rest|, xfer + ret, xferLimit, limited))
      ensures ret <= 0 ==> s.taken == taken && s.calls == calls && s.xfer == xfer
      ensures ret <= 0 ==> freezeOutput == (old(freezeOutput) || s.outcome.Again?) && (s.outcome.Failed? <==> ret != -EAGAIN)
      ensures ret <= 0 ==> lastError == if s.outcome.Failed? then s.outcome.error else old(lastError)
    {
      ghost var c := calls;
      ret := PutBackend(data);
      rest := data;
      if ret == -EAGAIN {
        freezeOutput := true;
      } else if ret <= 0 {
        lastError := ret;
      } else {
        rest := data[ret..];
        OfferMore(replies, xferLimit, limited, s, ret, c, |data|, xfer, taken, calls, |rest|, xfer + ret, taken + ret);
      }
    }

    // The loops of buffered_flush and buffered_put_buffer; only the latter heeds and counts
    // towards the rate limit.
    method Push(data: seq<byte>, limited: bool, ghost s: Sent) returns (rest: seq<byte>, failed: bool)
      requires s == Offer(replies, calls, |data|, bytesXfer, xferLimit, limited)
      modifies `calls, `delivered, `freezeOutput, `lastError, `bytesXfer
      ensures |rest| == |data| - s.taken && delivered + rest == old(delivered) + data && failed == s.outcome.Failed?
      ensures calls == s.calls && bytesXfer == if limited then s.xfer else old(bytesXfer)
      ensures freezeOutput == (old(freezeOutput) || s.outcome.Again?)
      ensures lastError == if s.outcome.Failed? then s.outcome.error else old(lastError)
    {
      rest, failed := data, false;
      var xfer: nat, ret := bytesXfer, 0;
      ghost var taken: nat := 0;
      while rest != [] && !(limited && xfer > xferLimit)
        invariant delivered + rest == old(delivered) + data && taken + |rest| == |data|
        invariant lastError == old(lastError) && freezeOutput == old(freezeOutput)
        invariant bytesXfer == if limited then xfer else old(bytesXfer)
        invariant Continues(s, taken, Offer(replies, calls, |rest|, xfer, xferLimit, limited))
        decreases |rest|
      {
        rest, ret := PushOnce(rest, limited, xfer, s, taken);
        if ret <= 0 {
          failed := ret != -EAGAIN;
          break;
        }
        xfer, taken := xfer + ret, taken + ret;
        bytesXfer := if limited then xfer else bytesXfer;
      }
    }

    // How the loop of a flush now would go.
    ghost function Flushing(): Sent
      reads this
    {
      Offer(replies, calls, bufferSize, bytesXfer, xferLimit, false)
    }

    method Flush()
      requires Valid()
      modifies `calls, `delivered, `freezeOutput, `lastError, `bytesXfer, `bufferSize, buffer
      ensures Valid() && bytesXfer == old(bytesXfer) && InSync() == old(InSync())
      ensures old(lastError) != 0 ==> lastError == old(lastError) && calls == old(calls)
      ensures old(lastError) != 0 ==> delivered == old(delivered) && Held() == old(Held()) && freezeOutput == old(freezeOutput)
      ensures old(lastError) == 0 ==>
                && Held() == old(Held()[Flushing().taken..]) && delivered + Held() == old(delivered + Held())
                && calls == old(Flushing().calls) && freezeOutput == (old(freezeOutput) || old(Flushing().outcome.Again?))
                && lastError == if old(Flushing().outcome.Failed?) then old(Flushing().outcome.error) else 0
    {
      if lastError != 0 {
        return;
      }
      ghost var s := Flushing();
      ghost var held := Held();
      var rest, _ := Push(buffer[..bufferSize], false, s);
      assert rest == (delivered + rest)[|delivered|..] == held[s.taken..];
      Shift(bufferSize - |rest|);
    }

    // How the loop of a put of this size would go after that flush.
    ghost function Putting(size: nat): Sent
      reads this
    {
      var f := Flushing();
      if f.outcome.Again? then Sent(0, f.calls, bytesXfer, Again)
      else Offer(replies, f.calls, size, bytesXfer, xferLimit, true)
    }

    ghost predicate KeepsOrder(data: seq<byte>)
      requires Valid()
      reads this, buffer
    {
      Orderly(data[..Putting(|data|).taken], Held()[Flushing().taken..], Putting(|data|).outcome.Failed?)
    }

    // Puts of this size keep the order whatever the bytes are.
    ghost predicate SizeKeepsOrder(size: nat)
      requires Valid()
      reads this
    {
      AlwaysOrderly(size, Putting(size).taken, bufferSize, Flushing().taken, Putting(size).outcome.Failed?)
    }

    // What a caller can tell from the transport's answers: the put sends nothing, or it does
    // not fail and the flush before it has sent all that was held.
    lemma SizeKeepsOrderIs(data: seq<byte>)
      requires Valid()
      ensures SizeKeepsOrder(|data|) <==>
                Putting(|data|).taken == 0 || (!Putting(|data|).outcome.Failed? && Flushing().taken == bufferSize)
      ensures SizeKeepsOrder(|data|) ==> KeepsOrder(data)
    {
      AlwaysOrderlyIs(|data|, Putting(|data|).taken, bufferSize, Flushing().taken, Putting(|data|).outcome.Failed?);
    }

    // A transport that never answers 0 keeps the order of every put that sets no error.
    lemma SoundKeepsOrder(data: seq<byte>)
      requires Valid() && Sound(replies) && !Flushing().outcome.Failed? && !Putting(|data|).outcome.Failed?
      ensures KeepsOrder(data)
    {
      var f, p := Flushing(), Putting(|data|);
      OfferEnds(replies, calls, bufferSize, bytesXfer, xferLimit, false);
      var taken, held := data[..p.taken], Held()[f.taken..];
      if f.outcome.Again? {
        assert taken == [] && taken + held == held == held + taken;
      } else {
        assert held == [] && taken + held == taken == held + taken;
      }
    }

    // The pieces of a put: what the flush will have sent, what it leaves, what the loop sends
    // and what remains.
    ghost predicate Pieces(data: seq<byte>, f: Sent, p: Sent, front: seq<byte>, held: seq<byte>, taken: seq<byte>, rest: seq<byte>)
      requires Valid()
      reads this, buffer
    {
      && f == Flushing() && p == Putting(|data|)
      && front + held == delivered + Held() && |held| == bufferSize - f.taken
      && taken + rest == data && |taken| == p.taken
    }

    // A flush in a put.
    method PutFlush(ghost f: Sent, ghost front: seq<byte>, ghost held: seq<byte>)
      requires Valid() && lastError == 0 && f == Flushing()
      requires front + held == delivered + Held() && |held| == bufferSize - f.taken
      modifies `calls, `delivered, `freezeOutput, `lastError, `bytesXfer, `bufferSize, buffer
      ensures Valid() && bytesXfer == old(bytesXfer) && delivered == front && Held() == held
      ensures calls == f.calls && freezeOutput == f.outcome.Again?
      ensures lastError == if f.outcome.Failed? then f.outcome.error else 0
    {
      ghost var n := |delivered + Held()| - |held|;
      freezeOutput := false;
      Flush();
      assert front == (front + held)[..n] && delivered == (delivered + Held())[..n];
      assert held == (front + held)[n..] && Held() == (delivered + Held())[n..];
    }

    // The loop in a put.
    method PutRest(data: seq<byte>, ghost p: Sent, ghost taken: seq<byte>, ghost rest: seq<byte>) returns (left: seq<byte>, failed: bool)
      requires p == Offer(replies, calls, |data|, bytesXfer, xferLimit, true) && taken + rest == data && |taken| == p.taken
      modifies `calls, `delivered, `freezeOutput, `lastError, `bytesXfer
      ensures left == rest && failed == p.outcome.Failed? && delivered == old(delivered) + taken
      ensures calls == p.calls && bytesXfer == p.xfer && freezeOutput == (old(freezeOutput) || p.outcome.Again?)
      ensures lastError == if p.outcome.Failed? then p.outcome.error else old(lastError)
    {
      ghost var n := |delivered + data| - |rest|;
      left, failed := Push(data, true, p);
      assert delivered + left == (old(delivered) + taken) + rest;
      assert left == (delivered + left)[n..] && rest == ((old(delivered) + taken) + rest)[n..];
      assert delivered == (delivered + left)[..n] && old(delivered) + taken == ((old(delivered) + taken) + rest)[..n];
    }

    // A put while there is no error: a flush, then the loop, then the rest is held.
    method PutNow(data: seq<byte>, ghost f: Sent, ghost p: Sent,
                  ghost front: seq<byte>, ghost held: seq<byte>, ghost taken: seq<byte>, ghost rest: seq<byte>) returns (r: int)
      requires Valid() && lastError == 0 && Pieces(data, f, p, front, held, taken, rest)
      modifies this, buffer
      ensures Valid() && (buffer == old(buffer) || fresh(buffer)) && xferLimit == old(xferLimit)
      ensures r == (if p.outcome.Failed? then -EINVAL else |data|) && accepted == old(accepted) + if r < 0 then [] else data
      ensures delivered == front + taken && Held() == held + if r < 0 then [] else rest
      ensures calls == p.calls && bytesXfer == p.xfer && freezeOutput == (f.outcome.Again? || p.outcome.Again?)
      ensures lastError == if p.outcome.Failed? then p.outcome.error else if f.outcome.Failed? then f.outcome.error else 0
    {
      PutFlush(f, front, held);
      var left, failed := data, false;
      if !freezeOutput {
        left, failed := PutRest(data, p, taken, rest);
      } else {
        assert taken == [] && rest == data;
      }
      if failed {
        return -EINVAL;
      }
      Append(left);
      accepted := accepted + data;
      r := |data|;
    }

    // What that does to the order.
    method PutOrdered(data: seq<byte>, ghost f: Sent, ghost p: Sent,
                      ghost front: seq<byte>, ghost held: seq<byte>, ghost taken: seq<byte>, ghost rest: seq<byte>) returns (r: int)
      requires Valid() && lastError == 0 && Pieces(data, f, p, front, held, taken, rest)
      modifies this, buffer
      ensures Valid() && (buffer == old(buffer) || fresh(buffer)) && xferLimit == old(xferLimit)
      ensures r == (if p.outcome.Failed? then -EINVAL else |data|) && accepted == old(accepted) + if r < 0 then [] else data
      ensures lastError == if p.outcome.Failed? then p.outcome.error else if f.outcome.Failed? then f.outcome.error else 0
      ensures old(InSync()) ==> (InSync() <==> Orderly(taken, held, p.outcome.Failed?))
    {
      r := PutNow(data, f, p, front, held, taken, rest);
      Ordered(front, held, taken, if r < 0 then [] else rest, r < 0);
    }

    // The outcomes of a put that leaves no error.
    lemma NoError(data: seq<byte>, f: Sent, p: Sent)
      requires Valid() && Sound(replies) && f == Flushing() && p == Putting(|data|)
      requires (if p.outcome.Failed? then p.outcome.error else if f.outcome.Failed? then f.outcome.error else 0) == 0
      ensures !p.outcome.Failed? && KeepsOrder(data)
    {
      OfferEnds(replies, calls, bufferSize, bytesXfer, xferLimit, false);
      OfferEnds(replies, f.calls, |data|, bytesXfer, xferLimit, true);
      SoundKeepsOrder(data);
    }

    // buffered_put_buffer without the notification of the client.
    method PutBuffer(data: seq<byte>) returns (r: int)
      requires Valid()
      modifies this, buffer
      ensures Valid() && (buffer == old(buffer) || fresh(buffer)) && xferLimit == old(xferLimit)
      ensures old(lastError) != 0 ==> r == old(lastError) == lastError && accepted == old(accepted) && InSync() == old(InSync())
      ensures old(lastError) == 0 ==> r == if old(Putting(|data|).outcome.Failed?) then -EINVAL else |data|
      ensures old(lastError) == 0 ==> accepted == old(accepted) + if r < 0 then [] else data
      ensures old(lastError) == 0 && old(InSync()) ==> (InSync() <==> old(KeepsOrder(data)))
      ensures old(lastError) == 0 && old(InSync()) && old(SizeKeepsOrder(|data|)) ==> InSync()
      ensures Sound(replies) && lastError == 0 && old(InSync()) ==> InSync() && r == |data|
    {
      if lastError != 0 {
        return lastError;
      }
      ghost var f, p := Flushing(), Putting(|data|);
      SizeKeepsOrderIs(data);
      ghost var error := if p.outcome.Failed? then p.outcome.error else if f.outcome.Failed? then f.outcome.error else 0;
      if Sound(replies) && error == 0 {
        NoError(data, f, p);
      }
      ghost var held, taken := Held()[f.taken..], data[..p.taken];
      assert (delivered + Held()[..f.taken]) + held == delivered + Held() && taken + data[p.taken..] == data;
      r := PutOrdered(data, f, p, delivered + Held()[..f.taken], held, taken, data[p.taken..]);
    }

    // The rest of buffered_close before the transport is closed, for a transport that after
    // some number of calls answers neither -EAGAIN nor 0; with an error set it does not matter.
    method Close(ghost ready: nat)
      requires Valid() && (lastError == 0 ==> forall k :: k >= ready ==> replies(k) != -EAGAIN && replies(k) != 0)
      modifies this, buffer
      ensures Valid() && accepted == old(accepted) && InSync() == old(InSync()) && (lastError == 0 ==> bufferSize == 0)
      ensures old(InSync()) && lastError == 0 ==> delivered == accepted
    {
      while lastError == 0 && bufferSize != 0
        invariant Valid() && accepted == old(accepted) && buffer == old(buffer) && InSync() == old(InSync())
        invariant old(lastError) != 0 ==> lastError != 0
        decreases lastError == 0, if calls < ready then ready - calls else 0, bufferSize
      {
        OfferEnds(replies, calls, bufferSize, bytesXfer, xferLimit, false);
        Flush();
      }
      assert lastError == 0 ==> delivered + Held() == delivered;
    }

    // How the flush at the start of a period would go now.
    ghost function Ticking(): Sent
      reads this
    {
      Offer(replies, calls, bufferSize, 0, xferLimit, false)
    }

    // buffered_rate_tick up to the notification of the client: a new period begins.
    method RateTick()
      requires Valid()
      modifies this, buffer
      ensures Valid() && accepted == old(accepted) && InSync() == old(InSync())
      ensures old(freezeOutput) && old(lastError) == 0 ==> bytesXfer == old(bytesXfer) && delivered == old(delivered)
      ensures !old(freezeOutput) && old(lastError) == 0 ==>
                && bytesXfer == 0 && Held() == old(Held()[Ticking().taken..]) && delivered + Held() == old(delivered + Held())
                && calls == old(Ticking().calls) && freezeOutput == old(Ticking().outcome.Again?)
                && lastError == if old(Ticking().outcome.Failed?) then old(Ticking().outcome.error) else 0
    {
      if lastError != 0 {
        Close(0);
        return;
      }
      if freezeOutput {
        return;
      }
      bytesXfer := 0;
      Flush();
    }

    // buffered_rate_limit
    method RateLimit() returns (r: int)
      ensures r == if lastError != 0 then lastError else if freezeOutput || bytesXfer > xferLimit then 1 else 0
    {
      if lastError != 0 {
        return lastError;
      }
      r := if freezeOutput then 1 else if bytesXfer > xferLimit then 1 else 0;
    }
  }

  // -EAGAIN, then 0, then one byte at a time.
  function Stalls(k: nat): int { if k == 0 then -EAGAIN else if k == 1 then 0 else 1 }

  // Two puts through a transport that answers 0 once: no error is set, and the second byte
  // is delivered while the first is still held.
  method ZeroReorders() returns (f: QEMUFileBuffered)
    ensures f.Valid() && f.lastError == 0 && !f.InSync()
  {
    f := new QEMUFileBuffered(1000, Stalls);
    assert f.Putting(1) == Sent(0, 1, 0, Again);
    var r := f.PutNow([7], f.Flushing(), f.Putting(1), [], [], [], [7]);
    assert f.Held() == [7] && f.delivered == [] && f.accepted == [7];
    assert f.Flushing() == Sent(0, 2, 0, Failed(0));
    assert Offer(Stalls, 3, 0, 1, 100, true) == Sent(0, 3, 1, All);
    assert f.Putting(1) == Sent(1, 3, 1, All);
    r := f.PutNow([8], f.Flushing(), f.Putting(1), [], [7], [8], []);
    assert f.delivered + f.Held() == [8, 7] && f.accepted == [7, 8];
  }
}
