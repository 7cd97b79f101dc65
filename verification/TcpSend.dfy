/** The sending side of a circuit: requests become messages on the send queue, and a flush takes
    the queue to the socket buffer by buffer while other threads go on queueing. */
module TcpSends {
  import opened Options
  import opened Sealing
  import opened Wire
  import opened Requests
  import opened Outgoings
  import opened Senders
  import opened ComBufs
  import opened ComQueSends

  /** What a caller is told: nothing was to be sent, a check failed, or the status of the queue. */
  datatype Outcome = Nothing | Denied(why: Refusal) | Queued(status: Status)

  /** The outcomes a request can have. */
  predicate Judged(p: Prepared, o: Outcome) {
    match p
    case Silent => o == Nothing
    case Rejected(why) => o == Denied(why)
    case Ready(m) => o == Queued(Judgement(m)) || o == Queued(NoMemory)
  }

  predicate AllSound(cs: seq<Call>) {
    forall i :: 0 <= i < |cs| ==> Sound(cs[i])
  }

  predicate AllJudged(cs: seq<Call>, link: Link, os: seq<Outcome>)
    requires AllSound(cs) && |os| <= |cs|
  {
    forall i :: 0 <= i < |os| ==> Judged(Prepare(cs[i], link), os[i])
  }

  /** The messages that were queued, in order. */
  function Accepted(cs: seq<Call>, link: Link, os: seq<Outcome>, n: nat): seq<Outgoing>
    requires AllSound(cs) && n <= |os| <= |cs|
  {
    if n == 0 then [] else Kept(Accepted(cs, link, os, n - 1), Prepare(cs[n - 1], link), os[n - 1])
  }

  function Kept(ms: seq<Outgoing>, p: Prepared, o: Outcome): seq<Outgoing> {
    if o == Queued(Normal) && p.Ready? then ms + [p.m] else ms
  }

  /** The requests that were queued, in order. */
  function AcceptedCalls(cs: seq<Call>, os: seq<Outcome>, n: nat): seq<Call>
    requires n <= |os| <= |cs|
  {
    if n == 0 then []
    else AcceptedCalls(cs, os, n - 1) + if os[n - 1] == Queued(Normal) then [cs[n - 1]] else []
  }

  /** A request and the message it became. */
  predicate Became(c: Call, link: Link, m: Outgoing) {
    Sound(c) && Prepare(c, link) == Ready(m) && Judgement(m) == Normal
  }

  lemma {:induction false} AcceptedBecame(cs: seq<Call>, link: Link, os: seq<Outcome>, n: nat)
    requires AllSound(cs) && n <= |os| <= |cs| && AllJudged(cs, link, os)
    ensures |AcceptedCalls(cs, os, n)| == |Accepted(cs, link, os, n)|
    ensures forall k :: 0 <= k < |Accepted(cs, link, os, n)| ==>
              Became(AcceptedCalls(cs, os, n)[k], link, Accepted(cs, link, os, n)[k])
  {
    if n > 0 {
      AcceptedBecame(cs, link, os, n - 1);
      assert Judged(Prepare(cs[n - 1], link), os[n - 1]);
    }
  }

  lemma {:induction false} AcceptedSame(cs: seq<Call>, link: Link, os: seq<Outcome>, more: seq<Outcome>, n: nat)
    requires AllSound(cs) && n <= |os| && os <= more && |more| <= |cs|
    ensures Accepted(cs, link, more, n) == Accepted(cs, link, os, n)
  {
    if n > 0 {
      AcceptedSame(cs, link, os, more, n - 1);
    }
  }

  /** A message for which the send queue cannot have a buffer: all the buffers but the one that may be
      on its way to the socket would not hold this message and those before it, even if each was
      filled up but for 39 bytes. */
  predicate TooMuch(memory: nat, ms: seq<Outgoing>, p: Prepared) {
    && p.Ready? && Framable(p.m) && AllTransmittable(ms)
    && (memory == 0 || Capacity(memory - 1) < |FramesOf(ms)| + |FrameFor(p.m)|)
  }

  /** Memory has run out only where there was too much to hold. */
  ghost predicate AllTooMuch(cs: seq<Call>, link: Link, memory: nat, os: seq<Outcome>)
    requires AllSound(cs) && |os| <= |cs|
  {
    forall i :: 0 <= i < |os| && os[i] == Queued(NoMemory) ==>
      TooMuch(memory, Accepted(cs, link, os, i), Prepare(cs[i], link))
  }

  lemma TooMuchMore(cs: seq<Call>, link: Link, memory: nat, os: seq<Outcome>, o: Outcome)
    requires AllSound(cs) && |os| < |cs| && AllTooMuch(cs, link, memory, os)
    requires o == Queued(NoMemory) ==> TooMuch(memory, Accepted(cs, link, os, |os|), Prepare(cs[|os|], link))
    ensures AllTooMuch(cs, link, memory, os + [o])
  {
    var more := os + [o];
    forall i | 0 <= i < |more| && more[i] == Queued(NoMemory)
      ensures TooMuch(memory, Accepted(cs, link, more, i), Prepare(cs[i], link))
    {
      AcceptedSame(cs, link, os, more, i);
      if i < |os| {
        assert os[i] == Queued(NoMemory);
      }
    }
  }

  lemma {:induction false} CapacityGrows(a: nat, b: nat)
    requires a <= b
    ensures Capacity(a) <= Capacity(b)
  {
    if a < b {
      CapacityGrows(a, b - 1);
    }
  }

  /** What the queue finds too much is too much. */
  lemma TightIsTooMuch(memory: nat, held: nat, stream: nat, ms: seq<Outgoing>, m: Outgoing)
    requires held <= memory <= held + 1 && AllTransmittable(ms) && Framable(m) && stream <= |FramesOf(ms)|
    requires Capacity(held) < stream + |FrameFor(m)|
    ensures TooMuch(memory, ms, Ready(m))
  {
    if memory > 0 {
      CapacityGrows(memory - 1, held);
    }
  }

  lemma OneMore(ms: seq<Outgoing>, m: Outgoing, sent: seq<byte>, flight: seq<byte>, stream: seq<byte>)
    requires AllTransmittable(ms) && Transmittable(m) && sent + (flight + stream) == FramesOf(ms)
    ensures AllTransmittable(ms + [m]) && sent + (flight + (stream + FrameFor(m))) == FramesOf(ms + [m])
  {
    FramesAppend(ms, m);
    Associative(flight, stream, FrameFor(m));
    Associative(sent, flight + stream, FrameFor(m));
  }

  /** What the client asked for, what it was told, and all the bytes that came of it. */
  datatype Ledger = Ledger(
    calls: seq<Call>, link: Link, memory: nat, outcomes: seq<Outcome>, bytes: seq<byte>)

  function Messages(l: Ledger): seq<Outgoing>
    requires AllSound(l.calls) && |l.outcomes| <= |l.calls|
  {
    Accepted(l.calls, l.link, l.outcomes, |l.outcomes|)
  }

  /** The bytes are the frames of the messages accepted, each whole and in order. */
  ghost predicate Balanced(l: Ledger) {
    && AllSound(l.calls) && |l.outcomes| <= |l.calls| && AllJudged(l.calls, l.link, l.outcomes)
    && AllTransmittable(Messages(l)) && l.bytes == FramesOf(Messages(l))
    && AllTooMuch(l.calls, l.link, l.memory, l.outcomes)
  }

  lemma {:induction false} JudgedMore(cs: seq<Call>, link: Link, os: seq<Outcome>, o: Outcome)
    requires AllSound(cs) && |os| < |cs| && AllJudged(cs, link, os) && Judged(Prepare(cs[|os|], link), o)
    ensures AllJudged(cs, link, os + [o])
  {
    assert (os + [o])[|os|] == o && forall i :: 0 <= i < |os| ==> (os + [o])[i] == os[i];
  }

  lemma BalancedMore(l: Ledger, o: Outcome, bytes: seq<byte>)
    requires Sealed(Balanced, l) && |l.outcomes| < |l.calls| && AllSound(l.calls)
    requires var p := Prepare(l.calls[|l.outcomes|], l.link);
             var ms := Kept(Messages(l), p, o);
             Judged(p, o) && AllTransmittable(ms) && bytes == FramesOf(ms)
             && (o == Queued(NoMemory) ==> TooMuch(l.memory, Messages(l), p))
    ensures Sealed(Balanced, l.(outcomes := l.outcomes + [o], bytes := bytes))
  {
    var more := l.(outcomes := l.outcomes + [o], bytes := bytes);
    Unseal(Balanced, l);
    Unseal(Balanced, more);
    JudgedMore(l.calls, l.link, l.outcomes, o);
    TooMuchMore(l.calls, l.link, l.memory, l.outcomes, o);
    AcceptedSame(l.calls, l.link, l.outcomes, more.outcomes, |l.outcomes|);
  }

  class TcpSend {
    const link: Link
    const memory: nat             // the buffers there are for sending
    const que: ComQueSend
    const wire: WireSendAdapter
    const calls: seq<Call>        // what the threads of the client will ask for, in order
    var outcomes: seq<Outcome>    // what they have been told so far

    /** No message is in progress; so many buffers are on their way to the socket. */
    ghost predicate Idle(out: nat)
      reads que
    {
      que.Valid() && que.pFirstUncommited.Invalid? && que.Held() + out == memory
    }

    ghost function Now(bytes: seq<byte>): Ledger
      reads this
    {
      Ledger(calls, link, memory, outcomes, bytes)
    }

    /** What was sent, what is on its way to the socket and what is queued is balanced. */
    ghost predicate Valid(flight: seq<byte>, out: nat)
      reads this, que, wire
    {
      Idle(out) && out <= 1 && |outcomes| <= |calls| && Sealed(Balanced, Now(wire.sent + (flight + que.stream)))
    }

    /** The socket has refused, and the messages behind what was sent are lost. */
    ghost predicate Broken(lost: seq<byte>)
      reads this, que, wire
    {
      Idle(0) && que.stream == [] && |outcomes| <= |calls| && Sealed(Balanced, Now(wire.sent + lost))
    }

    /** The socket has never refused. */
    ghost predicate Taken()
      reads wire
    {
      AllTaken(wire.takes, wire.sends)
    }

    constructor (link: Link, calls: seq<Call>, memory: nat, takes: nat -> nat)
      requires AllSound(calls)
      ensures Valid([], 0) && fresh(que) && fresh(wire) && outcomes == []
      ensures this.link == link && this.calls == calls && this.memory == memory
      ensures wire.takes == takes && Taken()
    {
      this.link, this.calls, this.memory, outcomes := link, calls, memory, [];
      que := new ComQueSend(memory);
      wire := new WireSendAdapter(takes);
      Unseal(Balanced, Ledger(calls, link, memory, [], []));
    }

    /** What the checks have made of a request goes to the queue, if it is a message. */
    method Send(p: Prepared, ghost ms: seq<Outgoing>, ghost flight: seq<byte>, ghost out: nat) returns (o: Outcome)
      requires Idle(out) && out <= 1
      requires p.Ready? ==> Present(p.m) && (Judgement(p.m) == Normal ==> Transmittable(p.m))
      requires AllTransmittable(ms) && wire.sent + (flight + que.stream) == FramesOf(ms)
      modifies que
      ensures Idle(out) && Judged(p, o) && AllTransmittable(Kept(ms, p, o))
      ensures wire.sent + (flight + que.stream) == FramesOf(Kept(ms, p, o))
      ensures o == Queued(NoMemory) ==> TooMuch(memory, ms, p)
    {
      match p {
        case Silent => o := Nothing;
        case Rejected(why) => o := Denied(why);
        case Ready(m) =>
          var status := Enqueue(m, ms, flight, out);
          o := Queued(status);
      }
    }

    /** A message goes to the queue whole, or not at all. */
    method Enqueue(m: Outgoing, ghost ms: seq<Outgoing>, ghost flight: seq<byte>, ghost out: nat)
      returns (status: Status)
      requires Idle(out) && out <= 1 && Present(m) && (Judgement(m) == Normal ==> Transmittable(m))
      requires AllTransmittable(ms) && wire.sent + (flight + que.stream) == FramesOf(ms)
      modifies que
      ensures Idle(out) && (status == Judgement(m) || status == NoMemory)
      ensures AllTransmittable(if status == Normal then ms + [m] else ms)
      ensures wire.sent + (flight + que.stream) == FramesOf(if status == Normal then ms + [m] else ms)
      ensures status == NoMemory ==> TooMuch(memory, ms, Ready(m))
    {
      ghost var stream := que.stream;
      status := que.QueueMessage(m);
      if status == Normal {
        OneMore(ms, m, wire.sent, flight, stream);
      }
      if status == NoMemory {
        TightIsTooMuch(memory, que.Held(), |stream|, ms, m);
      }
    }

    method QueueNext(ghost flight: seq<byte>, ghost out: nat)
      requires Valid(flight, out) && |outcomes| < |calls|
      modifies `outcomes, que
      ensures Valid(flight, out) && |outcomes| == old(|outcomes|) + 1
    {
      ghost var l := Now(wire.sent + (flight + que.stream));
      Unseal(Balanced, l);
      var p := Prepare(calls[|outcomes|], link);
      if p.Ready? {
        PreparedAgrees(calls[|outcomes|], link);
      }
      var o := Send(p, Messages(l), flight, out);
      BalancedMore(l, o, wire.sent + (flight + que.stream));
      outcomes := outcomes + [o];
    }

    /** What other threads queue while the lock is free. */
    method Others(ghost flight: seq<byte>, ghost out: nat)
      requires Valid(flight, out)
      modifies `outcomes, que
      ensures Valid(flight, out) && |outcomes| >= old(|outcomes|)
      ensures |outcomes| == old(|outcomes|) ==> que.stream == old(que.stream)
    {
      while |outcomes| < |calls|
        invariant Valid(flight, out) && |outcomes| >= old(|outcomes|)
        invariant |outcomes| == old(|outcomes|) ==> que.stream == old(que.stream)
        decreases |calls| - |outcomes|
      {
        if * {
          break;
        }
        QueueNext(flight, out);
      }
    }

    method TakeBuffer() returns (pBuf: Option<Buf>)
      requires Valid([], 0)
      modifies que
      ensures pBuf.Some? ==> pBuf.value.Valid() && Valid(pBuf.value.committed, 1) && |que.stream| < |old(que.stream)|
      ensures pBuf.None? ==> Valid([], 0) && que.stream == []
    {
      assert [] + que.stream == que.stream;
      pBuf := que.PopNextComBufToSend();
    }

    /** Send one buffer, however the socket splits it, and give it back; if the socket refuses,
        something is left. */
    method SendBuffer(b: Buf) returns (success: bool, ghost left: seq<byte>)
      requires b.Valid() && Valid(b.committed, 1) && Taken()
      modifies que, wire
      ensures old(wire.sent) <= wire.sent && Valid(left, 0) && (success <==> left == [])
      ensures que.stream == old(que.stream) && (success <==> Taken())
    {
      ghost var sent := wire.sent;
      var cb := new ComBuf.Holding(b);
      success := cb.FlushToWire(wire);
      left := cb.State().committed;
      MiddleMoved(sent, b.committed, que.stream, wire.sent, left);
      que.Release();
    }

    /** Send buffer after buffer until none is left or the socket refuses.  While a buffer is
        being sent the lock is free and other threads queue more messages; whatever they queue,
        the socket gets the frames of the messages accepted, in order and each of them whole, or,
        if it refuses, a prefix of them. */
    method Flush() returns (ok: bool, ghost lost: seq<byte>)
      requires Valid([], 0) && Taken()
      modifies `outcomes, que, wire
      ensures ok <==> Taken()
      ensures |outcomes| >= old(|outcomes|) && old(wire.sent) <= wire.sent
      ensures if ok then Valid([], 0) && que.stream == [] && lost == [] else Broken(lost)
    {
      var pBuf := TakeBuffer();
      while pBuf.Some?
        invariant |outcomes| >= old(|outcomes|) && old(wire.sent) <= wire.sent && Taken()
        invariant pBuf.Some? ==> pBuf.value.Valid() && Valid(pBuf.value.committed, 1)
        invariant pBuf.None? ==> Valid([], 0) && que.stream == []
        decreases |calls| - |outcomes|, |que.stream|, pBuf.Some?
      {
        Others(pBuf.value.committed, 1);
        var success;
        success, lost := SendBuffer(pBuf.value);
        if !success {
          lost := GiveUp(lost);
          return false, lost;
        }
        pBuf := TakeBuffer();
      }
      return true, [];
    }

    /** The error exit of a flush: what is still queued is lost. */
    method Drop()
      requires Idle(0)
      modifies que
      ensures Idle(0) && que.stream == []
    {
      var pBuf := que.PopNextComBufToSend();
      while pBuf.Some?
        invariant Idle(if pBuf.Some? then 1 else 0)
        invariant pBuf.None? ==> que.stream == []
        decreases |que.stream|, pBuf.Some?
      {
        que.Release();
        pBuf := que.PopNextComBufToSend();
      }
    }

    method GiveUp(ghost left: seq<byte>) returns (ghost lost: seq<byte>)
      requires Valid(left, 0)
      modifies que
      ensures Broken(lost)
    {
      lost := left + que.stream;
      Drop();
    }

    /** All the requests, with flushes at any time, unless the socket refuses. */
    method SendAll() returns (ok: bool, ghost lost: seq<byte>)
      requires Valid([], 0) && Taken()
      modifies `outcomes, que, wire
      ensures Sealed(Balanced, Now(wire.sent + lost))
      ensures ok ==> |outcomes| == |calls| && lost == []
      ensures ok <==> Taken()
    {
      ok, lost := true, [];
      while |outcomes| < |calls| && ok
        invariant (if ok then Valid([], 0) else Broken(lost)) && (ok <==> Taken())
        decreases |calls| - |outcomes|, ok
      {
        if * {
          ok, lost := Flush();
        }
        if ok && |outcomes| < |calls| {
          QueueNext([], 0);
        }
      }
      if ok {
        ok, lost := Flush();
        assert ok ==> [] + que.stream == [];
      }
    }
  }

  lemma MiddleMoved(sent: seq<byte>, first: seq<byte>, rest: seq<byte>, sent': seq<byte>, left: seq<byte>)
    requires sent' + left == sent + first
    ensures sent' + (left + rest) == sent + (first + rest)
  {
    assert sent' + (left + rest) == (sent' + left) + rest;
    assert sent + (first + rest) == (sent + first) + rest;
  }
}
