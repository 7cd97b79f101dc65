/** Both ends of a circuit together. */
module Transfers {
  import opened Sealing
  import opened Wire
  import opened Outgoings
  import opened Requests
  import opened Senders
  import opened Servers
  import opened ComBufs
  import opened Circuits
  import opened TcpSends

  /** A stream without a misaligned message has none in any prefix, and a prefix delivers a
      prefix of its messages. */
  lemma ParsePrefix(a: seq<byte>, b: seq<byte>, limit: nat)
    requires !Parse(a + b, limit).bad
    ensures !Parse(a, limit).bad && Parse(a, limit).msgs <= Parse(a + b, limit).msgs
  {
    BadStaysBad(a, b, limit);
    ParseAppend(a, b, limit);
  }

  /** Nothing behind a misaligned message is decoded. */
  lemma {:induction false} BadStaysBad(a: seq<byte>, b: seq<byte>, limit: nat)
    ensures Parse(a, limit).bad ==> Parse(a + b, limit).bad && Parse(a + b, limit).msgs == Parse(a, limit).msgs
    decreases |a|
  {
    ParseHeaderExtends(a, b);
    if StartsWithMessage(a) {
      var h := ParseHeader(a);
      var k := h.size + h.hdr.postsize;
      ParseStep(a, a[h.size..k], a[k..], limit);
      ParseFirst(a, b, limit);
      BadStaysBad(a[k..], b, limit);
    }
  }

  lemma PartDue(bytes: seq<byte>, n: nat, limit: nat)
    requires n <= |bytes|
    ensures Parse(bytes[..n], limit).msgs <= Parse(bytes, limit).msgs
    ensures Parse(bytes[..n], limit).bad ==> Parse(bytes[..n], limit).msgs == Parse(bytes, limit).msgs
  {
    assert bytes[..n] + bytes[n..] == bytes;
    BadStaysBad(bytes[..n], bytes[n..], limit);
    if !Parse(bytes[..n], limit).bad {
      ParseAppend(bytes[..n], bytes[n..], limit);
    }
  }

  // ---------------------------------------------------------------- what the other side understands

  /** A request whose message can have a body above the limit. */
  predicate Large(c: Call, limit: nat) {
    match c
    case Write(v, _, _, _) => v.dataType <= 38 && v.nElem * DBR_VALUE_SIZE[v.dataType] + 7 > limit
    case WriteNotify(v, _, _, _) => v.dataType <= 38 && v.nElem * DBR_VALUE_SIZE[v.dataType] + 7 > limit
    case HostName(name) => |name| + 8 > limit
    case UserName(name) => |name| + 8 > limit
    case CreateChannel(name, _, _) => |name| + 8 > limit
    case _ => false
  }

  /** Messages that say what was meant by requests, one for each of them and in order; only those
      whose body is above the limit are missing. */
  predicate ReadBack(cs: seq<Call>, link: Link, ms: seq<Message>, limit: nat) {
    if cs == [] then ms == []
    else
      || (ms != [] && Says(Reading(ms[0], link.minor >= 4), cs[0], link) && ReadBack(cs[1..], link, ms[1..], limit))
      || (Large(cs[0], limit) && ReadBack(cs[1..], link, ms, limit))
  }

  lemma LargeBody(c: Call, link: Link, m: Outgoing, limit: nat)
    requires Became(c, link, m) && 0x4000 <= limit
    ensures Framable(m) && (HeaderFor(m).postsize > limit ==> Large(c, limit))
  {
    PreparedAgrees(c, link);
    if m.Payload? && HeaderFor(m).postsize > limit {
      VerdictLimits(m.r);
      LargeWrite(m.r, limit);
    }
  }

  lemma LargeWrite(r: Request, limit: nat)
    requires WithinLimits(r) && Copyable(r.dataType) && r.nElem > 0 && HeaderOf(r).postsize > limit >= 0x4000
    ensures r.dataType <= 38 && r.nElem * DBR_VALUE_SIZE[r.dataType] + 7 > limit
  {
    SizeBounds(r.dataType);
    Unrolled(r.nElem, DBR_VALUE_SIZE[r.dataType]);
  }

  /** All the messages of a list, as far as they are delivered, are understood. */
  lemma {:induction false} AllUnderstood(cs: seq<Call>, link: Link, ms: seq<Outgoing>, limit: nat)
    requires |cs| == |ms| && 0x4000 <= limit && forall k :: 0 <= k < |ms| ==> Became(cs[k], link, ms[k])
    requires AllTransmittable(ms)
    ensures ReadBack(cs, link, MessagesOf(ms, limit), limit)
  {
    if ms != [] {
      assert Became(cs[0], link, ms[0]);
      Understood(cs[0], link);
      LargeBody(cs[0], link, ms[0], limit);
      AllUnderstood(cs[1..], link, ms[1..], limit);
      FirstUnderstood(cs, link, ms, limit);
    }
  }

  lemma FirstUnderstood(cs: seq<Call>, link: Link, ms: seq<Outgoing>, limit: nat)
    requires cs != [] && ms != [] && AllTransmittable(ms)
    requires Says(Reading(MessageFor(ms[0]), link.minor >= 4), cs[0], link)
    requires HeaderFor(ms[0]).postsize > limit ==> Large(cs[0], limit)
    requires ReadBack(cs[1..], link, MessagesOf(ms[1..], limit), limit)
    ensures ReadBack(cs, link, MessagesOf(ms, limit), limit)
  {
    var first, rest := MessageFor(ms[0]), MessagesOf(ms[1..], limit);
    if HeaderFor(ms[0]).postsize > limit {
      assert MessagesOf(ms, limit) == [] + rest == rest;
    } else {
      assert MessagesOf(ms, limit) == [first] + rest;
      assert ([first] + rest)[1..] == rest;
    }
  }

  /** The first messages are those of the first requests. */
  lemma {:induction false} PartUnderstood(cs: seq<Call>, link: Link, all: seq<Message>, due: seq<Message>, limit: nat)
    returns (n: nat)
    requires ReadBack(cs, link, all, limit) && due <= all
    ensures n <= |cs| && ReadBack(cs[..n], link, due, limit) && (due == all ==> n == |cs|)
  {
    if due == all {
      n := |cs|;
      assert cs[..n] == cs;
    } else if FirstSaid(cs, link, all, limit) && due != [] {
      n := PartUnderstood(cs[1..], link, all[1..], due[1..], limit);
      n := n + 1;
      assert cs[..n][1..] == cs[1..][..n - 1];
    } else if due == [] {
      n := 0;
    } else {
      n := PartUnderstood(cs[1..], link, all, due, limit);
      n := n + 1;
      assert cs[..n][1..] == cs[1..][..n - 1];
    }
  }

  predicate FirstSaid(cs: seq<Call>, link: Link, ms: seq<Message>, limit: nat) {
    && cs != [] && ms != [] && Says(Reading(ms[0], link.minor >= 4), cs[0], link)
    && ReadBack(cs[1..], link, ms[1..], limit)
  }

  // ---------------------------------------------------------------- both sides

  /** No message needs the large cache. */
  predicate AllSmall(ms: seq<Message>) {
    forall i :: 0 <= i < |ms| ==> ms[i].hdr.postsize <= MAX_TCP
  }

  lemma SmallDelivered(all: seq<Message>, due: seq<Message>, got: seq<Message>)
    requires AllSmall(all) && due <= all && Served(due, got)
    ensures got == due
  {
    ServedSmall(due, got);
  }

  /** Feed bytes to a receiver, cut into buffers anywhere, until it gives up. What is due is what the
      bytes decode to, or the part of it before a message that the client finds bad. */
  method ReceiveAll(bytes: seq<byte>, largeBufferSize: nat, memory: nat -> bool, accepts: nat -> bool)
    returns (delivered: seq<Message>, refused: bool, ghost due: seq<Message>, ghost starved: bool)
    ensures due <= Parse(bytes, Limit(largeBufferSize)).msgs
    ensures !refused ==> due == Parse(bytes, Limit(largeBufferSize)).msgs
    ensures refused <==> exists k: nat :: k < |delivered| && !accepts(k)
    ensures Served(due, delivered) && (!starved ==> delivered == due)
    ensures (forall k: nat :: memory(k)) ==> !starved
    ensures AllSmall(Parse(bytes, Limit(largeBufferSize)).msgs) ==>
              delivered <= Parse(bytes, Limit(largeBufferSize)).msgs &&
              (!refused ==> delivered == Parse(bytes, Limit(largeBufferSize)).msgs)
  {
    var recv := new TcpRecv(largeBufferSize, memory, accepts);
    var n := 0;
    var ok := true;
    refused := false;
    while n < |bytes| && ok
      invariant n <= |bytes| && fresh(recv) && fresh(recv.recvQue) && recv.largeBufferSize == largeBufferSize
      invariant recv.memory == memory && recv.starved == !AllTrue(memory, recv.attempts)
      invariant recv.accepts == accepts && (refused <==> !AllTrue(accepts, |recv.delivered|))
      invariant Served(recv.due, recv.delivered) && (!recv.starved ==> recv.delivered == recv.due)
      invariant ok ==> !refused && recv.Valid() && recv.Received() == bytes[..n]
      invariant !ok ==> recv.due <= Parse(bytes, Limit(largeBufferSize)).msgs
      invariant !ok && !refused ==> recv.due == Parse(bytes, Limit(largeBufferSize)).msgs
    {
      var k :| n < k <= |bytes| && k - n <= COM_BUF_SIZE;
      recv.Receive(bytes[n..k]);
      assert bytes[..k] == bytes[..n] + bytes[n..k];
      n := k;
      if * {
        ok, refused := recv.ProcessIncoming();
        PartDue(bytes, n, Limit(largeBufferSize));
      }
    }
    if ok {
      assert bytes[..n] == bytes;
      ok, refused := recv.ProcessIncoming();
    }
    delivered, due, starved := recv.delivered, recv.due, recv.starved;
    AllTrueMeans(memory, recv.attempts);
    AllTrueMeans(accepts, |delivered|);
    if AllSmall(Parse(bytes, Limit(largeBufferSize)).msgs) {
      SmallDelivered(Parse(bytes, Limit(largeBufferSize)).msgs, due, delivered);
    }
  }

  /** The whole way: whatever the pattern of requests, flushes, partial sends and received pieces,
      what is due at the other end is exactly the messages of the requests that were accepted, in
      order, or, when the socket gave up or the other end did, the first of them; requests that
      were refused leave no trace. Each message is understood as its request was meant. What is due
      is delivered, with the exception of large bodies for which there was no memory; and the
      sending side runs out of memory only where there is too much to hold. */
  method Transfer(calls: seq<Call>, link: Link, buffers: nat, takes: nat -> nat, largeBufferSize: nat,
      memory: nat -> bool, accepts: nat -> bool)
    returns (ok: bool, outcomes: seq<Outcome>, delivered: seq<Message>, refused: bool,
             ghost due: seq<Message>, ghost starved: bool, ghost n: nat)
    requires AllSound(calls)
    ensures |outcomes| <= |calls| && (ok ==> |outcomes| == |calls|) && AllJudged(calls, link, outcomes)
    ensures (forall k: nat :: takes(k) > 0) ==> ok
    ensures refused <==> exists k: nat :: k < |delivered| && !accepts(k)
    ensures AllTooMuch(calls, link, buffers, outcomes)
    ensures AllTransmittable(Accepted(calls, link, outcomes, |outcomes|))
    ensures due <= MessagesOf(Accepted(calls, link, outcomes, |outcomes|), Limit(largeBufferSize))
    ensures ok && !refused ==> due == MessagesOf(Accepted(calls, link, outcomes, |outcomes|), Limit(largeBufferSize))
    ensures var accepted := AcceptedCalls(calls, outcomes, |outcomes|);
            && n <= |accepted| && (ok && !refused ==> n == |accepted|)
            && ReadBack(accepted[..n], link, due, Limit(largeBufferSize))
    ensures Served(due, delivered) && (!starved ==> delivered == due)
    ensures (forall k: nat :: memory(k)) ==> !starved
    ensures var all := MessagesOf(Accepted(calls, link, outcomes, |outcomes|), Limit(largeBufferSize));
            AllSmall(all) ==> delivered <= all && (ok && !refused ==> delivered == all)
  {
    var send := new TcpSend(link, calls, buffers, takes);
    ghost var lost;
    ok, lost := send.SendAll();
    AllTakenMeans(takes, send.wire.sends);
    ghost var l := send.Now(send.wire.sent + lost);
    Unseal(Balanced, l);
    outcomes := send.outcomes;
    TransferMeaning(Messages(l), send.wire.sent, lost, Limit(largeBufferSize));
    delivered, refused, due, starved := ReceiveAll(send.wire.sent, largeBufferSize, memory, accepts);
    n := MessagesUnderstood(l, due, Limit(largeBufferSize));
    ghost var all := MessagesOf(Messages(l), Limit(largeBufferSize));
    if AllSmall(all) {
      SmallDelivered(all, due, delivered);
    }
  }

  /** The messages of a balanced ledger, or the first of them, say what its accepted requests
      meant. */
  lemma MessagesUnderstood(l: Ledger, due: seq<Message>, limit: nat) returns (n: nat)
    requires Balanced(l) && 0x4000 <= limit && due <= MessagesOf(Messages(l), limit)
    ensures var accepted := AcceptedCalls(l.calls, l.outcomes, |l.outcomes|);
            && n <= |accepted| && (due == MessagesOf(Messages(l), limit) ==> n == |accepted|)
            && ReadBack(accepted[..n], l.link, due, limit)
  {
    var accepted := AcceptedCalls(l.calls, l.outcomes, |l.outcomes|);
    AcceptedBecame(l.calls, l.link, l.outcomes, |l.outcomes|);
    AllUnderstood(accepted, l.link, Messages(l), limit);
    n := PartUnderstood(accepted, l.link, MessagesOf(Messages(l), limit), due, limit);
  }

  /** Any part of the frames of a list of messages is read back as a part of the messages, and the
      whole as all of them. */
  lemma TransferMeaning(ms: seq<Outgoing>, sent: seq<byte>, lost: seq<byte>, limit: nat)
    requires AllTransmittable(ms) && sent + lost == FramesOf(ms)
    ensures Parse(sent, limit).msgs <= MessagesOf(ms, limit)
    ensures lost == [] ==> Parse(sent, limit).msgs == MessagesOf(ms, limit)
  {
    var frames, all := FramesOf(ms), MessagesOf(ms, limit);
    assert Parse(frames, limit) == Parsed(all, [], false) by {
      FramingRoundTrip(ms, [], limit);
      assert frames + [] == frames && Parse([], limit) == Parsed([], [], false);
      assert all + [] == all;
    }
    ParsePrefix(sent, lost, limit);
    assert lost == [] ==> sent == frames;
  }
}
