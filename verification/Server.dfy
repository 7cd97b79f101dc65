/** What a server makes of a message: its command, its channel and its values, as the jump table of
    the server and the routines behind it take them out of header and body.  Everything a client
    asks for is understood as it was meant. */
module Servers {
  import opened Arithmetic
  import opened Wire
  import opened Requests
  import opened Outgoings
  import opened Senders

  /** What a server is told.  A channel is named by the number the server gave it, a client and its
      requests by the numbers the client chose. */
  datatype Order =
    | SetVersion(priority: nat, minor: nat)
    | AddEvent(dataType: nat, count: nat, channel: nat, request: nat, mask: nat)
    | CancelEvent(dataType: nat, count: nat, channel: nat, request: nat)
    | Get(dataType: nat, count: nat, channel: nat, request: nat)
    | Put(dataType: nat, count: nat, channel: nat, client: nat, data: seq<byte>)
    | HoldEvents
    | ReleaseEvents
    | SyncReads
    | ReleaseChannel(channel: nat, client: nat)
    | GetNotify(dataType: nat, count: nat, channel: nat, request: nat)
    | ClaimName(name: seq<byte>, client: nat, minor: nat)
    | ClaimNumber(channel: nat, minor: nat)
    | PutNotify(dataType: nat, count: nat, channel: nat, request: nat, data: seq<byte>)
    | SetUser(name: seq<byte>)
    | SetHost(name: seq<byte>)
    | EchoBack
    | Bad

  /** The text at the front of some bytes, up to the first zero. */
  function Text(bs: seq<byte>): (s: seq<byte>)
    ensures 0 !in s && s <= bs && (|s| < |bs| ==> bs[|s|] == 0)
  {
    if bs == [] || bs[0] == 0 then [] else [bs[0]] + Text(bs[1..])
  }

  /** A server that knows channels by name, from version 4.4 on, reads the name in a claim. */
  function Reading(m: Message, byName: bool): Order {
    var h := m.hdr;
    match h.cmmd
    case 0 => SetVersion(h.dataType, h.count)
    case 1 =>
      if |m.body| == 16 then AddEvent(h.dataType, h.count, h.cid, h.available, U16At(m.body, 12)) else Bad
    case 2 => CancelEvent(h.dataType, h.count, h.cid, h.available)
    case 3 => Get(h.dataType, h.count, h.cid, h.available)
    case 4 => Put(h.dataType, h.count, h.cid, h.available, m.body)
    case 8 => HoldEvents
    case 9 => ReleaseEvents
    case 10 => SyncReads
    case 12 => ReleaseChannel(h.cid, h.available)
    case 15 => GetNotify(h.dataType, h.count, h.cid, h.available)
    case 18 => if byName then ClaimName(Text(m.body), h.cid, h.available) else ClaimNumber(h.cid, h.available)
    case 19 => PutNotify(h.dataType, h.count, h.cid, h.available, m.body)
    case 20 => SetUser(Text(m.body))
    case 21 => SetHost(Text(m.body))
    case 23 => EchoBack
    case _ => Bad
  }

  /** Bytes that hold an element: a number is read with its first byte first. */
  predicate Holds(bs: seq<byte>, e: Elem) {
    match e
    case Short(s) => |bs| == 2 && U16At(bs, 0) == s % 0x1_0000
    case Long(l) => |bs| == 4 && U32At(bs, 0) == l % 0x1_0000_0000
    case Image(bytes) => bs == bytes
  }

  /** The bytes of the i-th of elements of a size. */
  function Slot(data: seq<byte>, size: nat, i: nat): seq<byte> {
    if i * size + size <= |data| then data[i * size..i * size + size] else []
  }

  /** Data that hold a value: one string as text, anything else element by element. */
  predicate Carries(data: seq<byte>, v: Value) {
    if v.dataType == 0 && v.nElem == 1 then Text(data) == v.cstr
    else
      && v.dataType <= 38 && |v.elems| == v.nElem
      && forall i :: 0 <= i < v.nElem ==> Holds(Slot(data, DBR_VALUE_SIZE[v.dataType], i), v.elems[i])
  }

  /** An order that says what a client meant. */
  predicate Says(o: Order, c: Call, link: Link) {
    match c
    case Version(priority) => o == SetVersion(priority, 11)
    case HostName(name) => o == SetHost(name)
    case UserName(name) => o == SetUser(name)
    case EnableFlowControl => o == HoldEvents
    case DisableFlowControl => o == ReleaseEvents
    case Echo => o == if link.minor >= 3 then EchoBack else SyncReads
    case Write(v, _, sid, cid) =>
      && o.Put? && o.dataType == v.dataType && o.count == v.nElem && o.channel == sid && o.client == cid
      && Carries(o.data, v)
    case WriteNotify(v, _, sid, id) =>
      && o.PutNotify? && o.dataType == v.dataType && o.count == v.nElem && o.channel == sid && o.request == id
      && Carries(o.data, v)
    case ReadNotify(t, n, sid, id) => o == GetNotify(t, n, sid, id)
    case UpdateSubscription(t, n, sid, id) => o == GetNotify(t, n, sid, id)
    case CreateChannel(name, sid, cid) =>
      o == if link.minor >= 4 then ClaimName(name, cid, 11) else ClaimNumber(sid, 11)
    case ClearChannel(sid, cid) => o == ReleaseChannel(sid, cid)
    case Subscribe(t, n, mask, sid, id) => o == AddEvent(t, n, sid, id, mask)
    case CancelSubscription(t, n, sid, id) => o == CancelEvent(t, n % 0x1_0000, sid, id)
  }

  // ---------------------------------------------------------------- reading values back

  lemma {:induction false} TextBefore(s: seq<byte>, rest: seq<byte>)
    requires 0 !in s
    ensures Text(s + [0] + rest) == s
  {
    if s == [] {
      assert s + [0] + rest == [0] + rest;
    } else {
      assert (s + [0] + rest)[1..] == s[1..] + [0] + rest;
      TextBefore(s[1..], rest);
    }
  }

  lemma HoldsBytes(e: Elem)
    ensures Holds(ElemBytes(e), e)
  {
    match e
    case Short(s) => U16RoundTrip([], s % 0x1_0000, []);
    case Long(l) =>
      U32RoundTrip([], l % 0x1_0000_0000, []);
      assert [] + Be32(l % 0x1_0000_0000) + [] == Be32(l % 0x1_0000_0000);
    case Image(_) =>
  }

  /** Each element stands in its place. */
  lemma {:induction false} SlotHolds(es: seq<Elem>, rest: seq<byte>, size: nat, i: nat)
    requires ElemsOfSize(es, size) && i < |es|
    ensures Slot(ElemsBytes(es) + rest, size, i) == ElemBytes(es[i])
  {
    var data := ElemsBytes(es) + rest;
    var tail := ElemsBytes(es[1..]) + rest;
    assert data == ElemBytes(es[0]) + tail && |ElemBytes(es[0])| == size;
    if i == 0 {
      assert data[..size] == ElemBytes(es[0]);
    } else {
      SlotHolds(es[1..], rest, size, i - 1);
      SlotAfter(ElemBytes(es[0]), tail, size, i);
      ElemsBytesLength(es[1..], size);
      SlotFits(|es| - 1, size, i - 1);
    }
  }

  lemma SlotFits(n: nat, size: nat, i: nat)
    requires i < n
    ensures i * size + size <= n * size
  {
    ProductGrows(i + 1, n, size);
    assert (i + 1) * size == i * size + size;
  }

  lemma SlotAfter(first: seq<byte>, tail: seq<byte>, size: nat, i: nat)
    requires |first| == size && 0 < i
    ensures Slot(first + tail, size, i) == Slot(tail, size, i - 1)
  {
    assert i * size == (i - 1) * size + size;
    var k := (i - 1) * size;
    if k + size <= |tail| {
      assert (first + tail)[k + size..k + size + size] == tail[k..k + size];
    }
  }

  lemma WriteCarries(cmmd: uint16, v: Value, sid: uint32, dependent: uint32, v49Ok: bool)
    requires var r := WriteOf(cmmd, v, sid, dependent, v49Ok); PayloadPresent(r) && Verdict(r) == Normal
    ensures var r := WriteOf(cmmd, v, sid, dependent, v49Ok); WithinLimits(r) && Carries(BodyOf(r), v)
  {
    var r := WriteOf(cmmd, v, sid, dependent, v49Ok);
    VerdictLimits(r);
    var pad := Zeros(Align(PayloadSize(r)) - PayloadSize(r));
    if IsScalarString(r) {
      TextBefore(v.cstr, pad);
    } else {
      SizeBounds(v.dataType);
      forall i | 0 <= i < v.nElem
        ensures Holds(Slot(BodyOf(r), DBR_VALUE_SIZE[v.dataType], i), v.elems[i])
      {
        SlotHolds(v.elems, pad, DBR_SIZE[v.dataType], i);
        HoldsBytes(v.elems[i]);
      }
    }
  }

  lemma NameReads(name: seq<byte>)
    requires 0 !in name
    ensures Text(Padded(name + [0])) == name
  {
    TextBefore(name, Zeros(Align(|name + [0]|) - |name + [0]|));
  }

  lemma MaskReads(mask: uint16)
    ensures U16At(EventAddBody(mask), 12) == mask
  {
    var pre := Zeros(4) + Zeros(4) + Zeros(4);
    assert EventAddBody(mask) == pre + Be16(mask) + Be16(0);
    U16RoundTrip(pre, mask, Be16(0));
  }

  // ---------------------------------------------------------------- reading messages back

  /** The message a request becomes. */
  function MessageFor(m: Outgoing): Message
    requires Framable(m)
  {
    Message(HeaderFor(m), BodyFor(m))
  }

  lemma WriteUnderstood(c: Call, link: Link)
    requires Sound(c) && IsWrite(c) && Prepare(c, link).Ready? && Judgement(Prepare(c, link).m) == Normal
    requires Framable(Prepare(c, link).m)
    ensures Says(Reading(MessageFor(Prepare(c, link).m), link.minor >= 4), c, link)
  {
    var v, m := c.value, MessageFor(Prepare(c, link).m);
    assert Carries(m.body, v) by {
      WriteCarries(if c.Write? then WRITE else WRITE_NOTIFY, v, c.sid, if c.Write? then c.cid else c.id, link.V49());
    }
    ReadsWrite(m, c, link);
  }

  lemma ReadsWrite(m: Message, c: Call, link: Link)
    requires IsWrite(c) && m.hdr.cmmd == (if c.Write? then 4 else 19)
    requires m.hdr.dataType == c.value.dataType && m.hdr.count == c.value.nElem && m.hdr.cid == c.sid
    requires m.hdr.available == (if c.Write? then c.cid else c.id) && Carries(m.body, c.value)
    ensures Says(Reading(m, link.minor >= 4), c, link)
  {
  }

  predicate IsNaming(c: Call) {
    c.HostName? || c.UserName?
  }

  lemma NameUnderstood(c: Call, link: Link)
    requires Sound(c) && IsNaming(c) && Prepare(c, link).Ready? && Framable(Prepare(c, link).m)
    ensures Says(Reading(MessageFor(Prepare(c, link).m), link.minor >= 4), c, link)
  {
    NameReads(c.name);
  }

  lemma ClaimUnderstood(c: Call, link: Link)
    requires Sound(c) && c.CreateChannel? && Prepare(c, link).Ready? && Framable(Prepare(c, link).m)
    ensures Says(Reading(MessageFor(Prepare(c, link).m), link.minor >= 4), c, link)
  {
    NameReads(c.name);
  }

  lemma SubscriptionUnderstood(c: Call, link: Link)
    requires Sound(c) && c.Subscribe? && Prepare(c, link).Ready? && Framable(Prepare(c, link).m)
    ensures Says(Reading(MessageFor(Prepare(c, link).m), link.minor >= 4), c, link)
  {
    MaskReads(c.mask);
  }

  lemma CommandUnderstood(c: Call, link: Link)
    requires Sound(c) && !IsWrite(c) && !IsNaming(c) && !c.CreateChannel? && !c.Subscribe?
    requires Prepare(c, link).Ready? && Framable(Prepare(c, link).m)
    ensures Says(Reading(MessageFor(Prepare(c, link).m), link.minor >= 4), c, link)
  {
  }

  /** Whatever a client asks for and the queue accepts, the server reads out of the message what the
      client meant: the right command for the right channel, with the right identifier, type, count,
      mask, name and values. */
  lemma Understood(c: Call, link: Link)
    requires Sound(c) && Prepare(c, link).Ready? && Judgement(Prepare(c, link).m) == Normal
    ensures var m := Prepare(c, link).m;
            Framable(m) && Says(Reading(MessageFor(m), link.minor >= 4), c, link)
  {
    PreparedAgrees(c, link);
    if IsWrite(c) {
      WriteUnderstood(c, link);
    } else if IsNaming(c) {
      NameUnderstood(c, link);
    } else if c.CreateChannel? {
      ClaimUnderstood(c, link);
    } else if c.Subscribe? {
      SubscriptionUnderstood(c, link);
    } else {
      CommandUnderstood(c, link);
    }
  }
}
