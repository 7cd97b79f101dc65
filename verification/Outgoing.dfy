/** The messages a circuit queues: the writes, whose payload is an array of some type, and the
    other commands, which are a header and a short body pushed piece by piece. */
module Outgoings {
  import opened Wire
  import opened Requests

  const EVENT_ADD_SIZE: nat := 16

  datatype Outgoing =
    | Payload(r: Request)
    | Bare(h: Header, v49Ok: bool)
    | Named(h: Header, name: seq<byte>, v49Ok: bool)
    | EventAdd(h: Header, mask: uint16, v49Ok: bool)

  /** The fields behind the header of a subscription: three zero numbers, the mask and two
      bytes of nothing. */
  function EventAddBody(mask: uint16): (bs: seq<byte>)
    ensures |bs| == EVENT_ADD_SIZE
  {
    Zeros(4) + Zeros(4) + Zeros(4) + Be16(mask) + Be16(0)
  }

  function Padded(name: seq<byte>): (bs: seq<byte>)
    ensures |bs| == Align(|name|)
  {
    name + Zeros(Align(|name|) - |name|)
  }

  /** What the sender of a message sees to: a payload as long as its count, and a size in the
      header that is the one of the body. */
  predicate Present(m: Outgoing) {
    match m
    case Payload(r) => PayloadPresent(r)
    case Bare(h, _) => h.postsize == 0
    case Named(h, name, _) => h.postsize == Align(|name|)
    case EventAdd(h, _, _) => h.postsize == EVENT_ADD_SIZE
  }

  /** Whether a header needs its extended form on a circuit that does not have it. */
  predicate Refused(h: Header, v49Ok: bool) {
    !FitsShort(h) && !v49Ok
  }

  /** Whether a message is accepted, memory permitting. */
  function Judgement(m: Outgoing): Status {
    match m
    case Payload(r) => Verdict(r)
    case Bare(h, v49Ok) => if Refused(h, v49Ok) then OutOfBounds else Normal
    case Named(h, _, v49Ok) => if Refused(h, v49Ok) then OutOfBounds else Normal
    case EventAdd(h, _, v49Ok) => if Refused(h, v49Ok) then OutOfBounds else Normal
  }

  predicate Framable(m: Outgoing) {
    m.Payload? ==> WithinLimits(m.r)
  }

  function HeaderFor(m: Outgoing): Header
    requires Framable(m)
  {
    if m.Payload? then HeaderOf(m.r) else m.h
  }

  function BodyFor(m: Outgoing): seq<byte>
    requires Framable(m)
  {
    match m
    case Payload(r) => BodyOf(r)
    case Bare(_, _) => []
    case Named(_, name, _) => Padded(name)
    case EventAdd(_, mask, _) => EventAddBody(mask)
  }

  function FrameFor(m: Outgoing): seq<byte>
    requires Framable(m)
  {
    HeaderBytes(HeaderFor(m)) + BodyFor(m)
  }

  predicate Transmittable(m: Outgoing) {
    Present(m) && Judgement(m) == Normal && Framable(m) && (m.Payload? ==> m.r.nElem != 0)
  }

  /** The body of a message is aligned and as long as its header says, but for a write of
      nothing. */
  lemma BodyAgrees(m: Outgoing)
    requires Present(m) && Judgement(m) == Normal
    ensures Framable(m) && HeaderFor(m).postsize % 8 == 0
    ensures |BodyFor(m)| == HeaderFor(m).postsize <==> Transmittable(m)
  {
    if m.Payload? {
      VerdictLimits(m.r);
      BodyLength(m.r);
    }
  }

  function FramesOf(ms: seq<Outgoing>): seq<byte>
    requires forall i :: 0 <= i < |ms| ==> Framable(ms[i])
  {
    if ms == [] then [] else FrameFor(ms[0]) + FramesOf(ms[1..])
  }

  /** What a receiver with the given body limit makes of a list of messages. */
  function MessagesOf(ms: seq<Outgoing>, limit: nat): seq<Message>
    requires forall i :: 0 <= i < |ms| ==> Framable(ms[i])
  {
    if ms == [] then []
    else Deliver(Message(HeaderFor(ms[0]), BodyFor(ms[0])), limit) + MessagesOf(ms[1..], limit)
  }

  predicate AllTransmittable(ms: seq<Outgoing>) {
    forall i :: 0 <= i < |ms| ==> Transmittable(ms[i])
  }

  /** Framing round trip: the frames of any list of accepted messages, followed by any bytes,
      parse back to exactly their headers and bodies, in order. */
  lemma {:induction false} FramingRoundTrip(ms: seq<Outgoing>, post: seq<byte>, limit: nat)
    requires AllTransmittable(ms)
    ensures Parse(FramesOf(ms) + post, limit) == Then(MessagesOf(ms, limit), Parse(post, limit))
  {
    if ms == [] {
      assert FramesOf(ms) + post == post;
      assert [] + Parse(post, limit).msgs == Parse(post, limit).msgs;
    } else {
      var h, body := HeaderFor(ms[0]), BodyFor(ms[0]);
      var tail := FramesOf(ms[1..]) + post;
      BodyAgrees(ms[0]);
      assert FramesOf(ms) + post == HeaderBytes(h) + body + tail;
      ParseMessage(h, body, tail, limit);
      FramingRoundTrip(ms[1..], post, limit);
      ThenThen(Deliver(Message(h, body), limit), MessagesOf(ms[1..], limit), Parse(post, limit));
    }
  }

  lemma {:induction false} FramesAppend(ms: seq<Outgoing>, m: Outgoing)
    requires AllTransmittable(ms) && Transmittable(m)
    ensures FramesOf(ms + [m]) == FramesOf(ms) + FrameFor(m)
  {
    if ms == [] {
      assert [] + [m] == [m] && FramesOf([m]) == FrameFor(m) + FramesOf([]);
    } else {
      assert (ms + [m])[1..] == ms[1..] + [m];
      FramesAppend(ms[1..], m);
    }
  }
}
