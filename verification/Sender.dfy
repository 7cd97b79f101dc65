/** What a circuit is asked to send, and the message each request becomes: the checks that come
    before the queue, the version the server speaks and the state of the circuit. */
module Senders {
  import opened Arithmetic
  import opened Wire
  import opened Requests
  import opened Outgoings

  const MINOR_PROTOCOL_REVISION := 11

  // The commands.
  const VERSION := 0
  const EVENT_ADD := 1
  const EVENT_CANCEL := 2
  const WRITE := 4
  const EVENTS_OFF := 8
  const EVENTS_ON := 9
  const READ_SYNC := 10
  const CLEAR_CHANNEL := 12
  const READ_NOTIFY := 15
  const CREATE_CHAN := 18
  const WRITE_NOTIFY := 19
  const CLIENT_NAME := 20
  const HOST_NAME := 21
  const ECHO := 23

  /** The size of the largest body a client is prepared to receive. */
  type LargeBufferSize = n: uint32 | MAX_TCP <= n witness MAX_TCP

  datatype LinkState = Connecting | Connected | Closing

  /** A circuit: the minor version of its server, and its state. */
  datatype Link = Link(minor: nat, state: LinkState, largeBufferSize: LargeBufferSize) {
    predicate V41() { minor >= 1 }
    predicate V43() { minor >= 3 }
    predicate V44() { minor >= 4 }
    predicate V49() { minor >= 9 }
  }

  /** A value to be written: a scalar string comes as text without its terminating zero. */
  datatype Value = Value(dataType: nat, nElem: nat, cstr: seq<byte>, elems: seq<Elem>)

  /** What a client asks of a circuit; names are text, without the zero at their end. */
  datatype Call =
    | HostName(name: seq<byte>)
    | UserName(name: seq<byte>)
    | EnableFlowControl
    | DisableFlowControl
    | Version(priority: uint16)
    | Echo
    | Write(value: Value, chanCount: nat, sid: uint32, cid: uint32)
    | WriteNotify(value: Value, chanCount: nat, sid: uint32, id: uint32)
    | ReadNotify(dataType: nat, nElem: nat, sid: uint32, id: uint32)
    | CreateChannel(name: seq<byte>, sid: uint32, cid: uint32)
    | ClearChannel(sid: uint32, cid: uint32)
    | Subscribe(dataType: nat, nElem: nat, mask: nat, sid: uint32, id: uint32)
    | UpdateSubscription(dataType: nat, nElem: nat, sid: uint32, id: uint32)
    | CancelSubscription(dataType: nat, nElem: nat, sid: uint32, id: uint32)

  datatype Refusal = BadCount | BadString | BadDataType | BadEventSelection | Unsupported | BodyCacheTooSmall

  datatype Prepared = Silent | Rejected(why: Refusal) | Ready(m: Outgoing)

  /** What the callers of a circuit see to: the payload is as long as its count says, names are
      short, and a subscription has one of the types. */
  predicate Sound(c: Call) {
    match c
    case HostName(name) => 0 !in name && Align(|name| + 1) < 0xffff
    case UserName(name) => 0 !in name && Align(|name| + 1) < 0xffff
    case CreateChannel(name, _, _) => 0 !in name
    case Write(v, n, sid, cid) => CountOk(v, n) ==> PayloadPresent(WriteOf(WRITE, v, sid, cid, true))
    case WriteNotify(v, n, sid, id) => CountOk(v, n) ==> PayloadPresent(WriteOf(WRITE_NOTIFY, v, sid, id, true))
    case Subscribe(t, _, _, _, _) => t <= LAST_BUFFER_TYPE
    case UpdateSubscription(t, _, _, _) => t <= LAST_BUFFER_TYPE
    case CancelSubscription(t, _, _, _) => t <= LAST_BUFFER_TYPE
    case _ => true
  }

  // ---------------------------------------------------------------- writes

  predicate CountOk(v: Value, chanCount: nat) {
    0 < v.nElem <= chanCount
  }

  /** Every string ends within its forty bytes. */
  predicate StringsOk(v: Value) {
    v.dataType == DBR_STRING ==>
      if v.nElem == 1 then |v.cstr| < MAX_STRING_SIZE
      else forall i :: 0 <= i < |v.elems| ==> 0 in ElemBytes(v.elems[i])
  }

  function WriteOf(cmmd: uint16, v: Value, sid: uint32, dependent: uint32, v49Ok: bool): Request {
    Request(cmmd, v.dataType, v.nElem, sid, dependent, v.cstr, v.elems, v49Ok)
  }

  function PreparedWrite(cmmd: uint16, v: Value, chanCount: nat, sid: uint32, dependent: uint32,
      v49Ok: bool): Prepared
  {
    if !CountOk(v, chanCount) then Rejected(BadCount)
    else if !StringsOk(v) then Rejected(BadString)
    else Ready(Payload(WriteOf(cmmd, v, sid, dependent, v49Ok)))
  }

  // ---------------------------------------------------------------- the other commands

  /** How many elements of a type a reply has room for. */
  function MaxReplyElem(t: nat, link: Link): nat
    requires t <= LAST_BUFFER_TYPE
  {
    SizeBounds(t);
    Over((if link.V49() then link.largeBufferSize else MAX_TCP) - DBR_SIZE[t], DBR_VALUE_SIZE[t])
  }

  lemma ReplyElemBound(t: nat, link: Link)
    requires t <= LAST_BUFFER_TYPE
    ensures MaxReplyElem(t, link) < 0x1_0000_0000
    ensures !link.V49() ==> MaxReplyElem(t, link) <= MAX_TCP
  {
    SizeBounds(t);
    var bytes := (if link.V49() then link.largeBufferSize else MAX_TCP) - DBR_SIZE[t];
    QuotientAtMost(bytes, DBR_VALUE_SIZE[t]);
  }

  /** A message with a name or a channel in it, or nothing but its header. */
  function Command(cmmd: uint16, dataType: uint16, count: uint32, cid: uint32, available: uint32,
      link: Link): Prepared
  {
    Ready(Bare(Header(cmmd, 0, dataType, count, cid, available), link.V49()))
  }

  function Naming(cmmd: uint16, name: seq<byte>, cid: uint32, available: uint32, link: Link): Prepared
    requires Align(|name|) < 0xffff
  {
    Ready(Named(Header(cmmd, Align(|name|), 0, 0, cid, available), name, link.V49()))
  }

  function PreparedRead(t: nat, nElem: nat, sid: uint32, id: uint32, link: Link): Prepared
    requires t <= LAST_BUFFER_TYPE
  {
    ReplyElemBound(t, link);
    if nElem > MaxReplyElem(t, link) then Rejected(BodyCacheTooSmall)
    else Command(READ_NOTIFY, t, nElem, sid, id, link)
  }

  function PreparedSubscribe(t: nat, nElem: nat, mask: nat, sid: uint32, id: uint32, link: Link): Prepared
    requires t <= LAST_BUFFER_TYPE
  {
    ReplyElemBound(t, link);
    if link.state == Closing then Silent
    else if mask > 0xffff then Rejected(BadEventSelection)
    else if nElem > MaxReplyElem(t, link) then Rejected(BodyCacheTooSmall)
    else Ready(EventAdd(Header(EVENT_ADD, EVENT_ADD_SIZE, t, nElem, sid, id), mask, link.V49()))
  }

  /** Before version 4.4 a channel is claimed by the number its server gave it. */
  function PreparedCreate(name: seq<byte>, sid: uint32, cid: uint32, link: Link): Prepared {
    if link.state == Closing then Silent
    else if !link.V44() then Naming(CREATE_CHAN, [], sid, MINOR_PROTOCOL_REVISION, link)
    else if Align(|name| + 1) >= 0xffff then Rejected(Unsupported)
    else Naming(CREATE_CHAN, name + [0], cid, MINOR_PROTOCOL_REVISION, link)
  }

  /** What a request becomes on a circuit. */
  function Prepare(c: Call, link: Link): Prepared
    requires Sound(c)
  {
    match c
    case HostName(name) => if link.V41() then Naming(HOST_NAME, name + [0], 0, 0, link) else Silent
    case UserName(name) => if link.V41() then Naming(CLIENT_NAME, name + [0], 0, 0, link) else Silent
    case EnableFlowControl => Command(EVENTS_OFF, 0, 0, 0, 0, link)
    case DisableFlowControl => Command(EVENTS_ON, 0, 0, 0, 0, link)
    case Version(priority) => Command(VERSION, priority, MINOR_PROTOCOL_REVISION, 0, 0, link)
    case Echo => Command(if link.V43() then ECHO else READ_SYNC, 0, 0, 0, 0, link)
    case Write(v, n, sid, cid) => PreparedWrite(WRITE, v, n, sid, cid, link.V49())
    case WriteNotify(v, n, sid, id) =>
      if !CountOk(v, n) || !StringsOk(v) || link.V41() then PreparedWrite(WRITE_NOTIFY, v, n, sid, id, link.V49())
      else Rejected(Unsupported)
    case ReadNotify(t, n, sid, id) =>
      if t > LAST_BUFFER_TYPE then Rejected(BadDataType) else PreparedRead(t, n, sid, id, link)
    case CreateChannel(name, sid, cid) => PreparedCreate(name, sid, cid, link)
    case ClearChannel(sid, cid) =>
      if link.state == Connected then Command(CLEAR_CHANNEL, 0, 0, sid, cid, link) else Silent
    case Subscribe(t, n, mask, sid, id) => PreparedSubscribe(t, n, mask, sid, id, link)
    case UpdateSubscription(t, n, sid, id) =>
      if link.state == Connected then PreparedRead(t, n, sid, id, link) else Silent
    case CancelSubscription(t, n, sid, id) =>
      if link.state == Connected then Command(EVENT_CANCEL, t, n % 0x1_0000, sid, id, link) else Silent
  }

  // ---------------------------------------------------------------- what the checks are good for

  predicate IsWrite(c: Call) {
    c.Write? || c.WriteNotify?
  }

  /** Nothing is sent exactly to a server that is too old for the names, on a circuit that is going
      down, and, for the requests of channels that a server knows, on one that is not up. */
  lemma WhenSilent(c: Call, link: Link)
    requires Sound(c)
    ensures Prepare(c, link).Silent? <==>
      || ((c.HostName? || c.UserName?) && link.minor < 1)
      || ((c.CreateChannel? || c.Subscribe?) && link.state == Closing)
      || ((c.ClearChannel? || c.UpdateSubscription? || c.CancelSubscription?) && link.state != Connected)
  {
  }

  /** A request whose values are wrong is rejected with the reason, before anything else is
      looked at. */
  lemma WhenWrong(c: Call, link: Link)
    requires Sound(c)
    ensures Prepare(c, link) == Rejected(BadCount) <==>
      IsWrite(c) && (c.value.nElem == 0 || c.value.nElem > c.chanCount)
    ensures Prepare(c, link) == Rejected(BadString) <==>
      && IsWrite(c) && 0 < c.value.nElem <= c.chanCount && c.value.dataType == 0
      && if c.value.nElem == 1 then |c.value.cstr| >= 40
         else exists i :: 0 <= i < |c.value.elems| && 0 !in ElemBytes(c.value.elems[i])
    ensures Prepare(c, link) == Rejected(BadDataType) <==> c.ReadNotify? && c.dataType > 38
    ensures Prepare(c, link) == Rejected(BadEventSelection) <==>
      c.Subscribe? && link.state != Closing && c.mask > 0xffff
  {
  }

  /** The count of a reply is too large exactly if so many elements and the fields of the type need
      more than the client can take in. */
  lemma ReplyTooLarge(t: nat, n: nat, link: Link)
    requires t <= LAST_BUFFER_TYPE
    ensures n > MaxReplyElem(t, link) <==> ReplyOver(t, n, link)
  {
    SizeBounds(t);
    var bytes := (if link.V49() then link.largeBufferSize else MAX_TCP) - DBR_SIZE[t];
    if n > MaxReplyElem(t, link) {
      Quotient(bytes, DBR_VALUE_SIZE[t]);
      ProductGrows(bytes / DBR_VALUE_SIZE[t] + 1, n, DBR_VALUE_SIZE[t]);
    } else {
      Quotient(bytes, DBR_VALUE_SIZE[t]);
      ProductGrows(n, bytes / DBR_VALUE_SIZE[t], DBR_VALUE_SIZE[t]);
    }
  }

  /** Whether the reply to so many elements is too large for the client. */
  predicate ReplyOver(t: nat, n: nat, link: Link)
    requires t <= LAST_BUFFER_TYPE
  {
    DBR_SIZE[t] + n * DBR_VALUE_SIZE[t] > if link.minor >= 9 then link.largeBufferSize else 0x4000
  }

  /** A request that is right is still rejected exactly if its reply would be too large for the
      client. */
  lemma WhenTooLarge(c: Call, link: Link)
    requires Sound(c)
    ensures Prepare(c, link) == Rejected(BodyCacheTooSmall) <==>
      && (|| (c.ReadNotify? && c.dataType <= 38)
          || (c.Subscribe? && link.state != Closing && c.mask <= 0xffff)
          || (c.UpdateSubscription? && link.state == Connected))
      && ReplyOver(c.dataType, c.nElem, link)
  {
    match c
    case ReadNotify(t, n, _, _) =>
      if t <= LAST_BUFFER_TYPE {
        ReplyTooLarge(t, n, link);
      }
    case Subscribe(t, n, _, _, _) => ReplyTooLarge(t, n, link);
    case UpdateSubscription(t, n, _, _) => ReplyTooLarge(t, n, link);
    case _ =>
  }

  /** Or if the server is too old for a confirmed write, or if the name with the zero at its end, filled
      up, does not fit into a short header. */
  lemma WhenUnsupported(c: Call, link: Link)
    requires Sound(c)
    ensures Prepare(c, link) == Rejected(Unsupported) <==>
      || (c.WriteNotify? && link.minor < 1 && CountOk(c.value, c.chanCount) && StringsOk(c.value))
      || (c.CreateChannel? && link.state != Closing && link.minor >= 4 && |c.name| + 1 > 0xfff8)
  {
  }

  /** Every request that gets past its checks is a message whose body is as long as its header
      says: in particular a write of nothing never gets as far as the queue. */
  lemma PreparedAgrees(c: Call, link: Link)
    requires Sound(c) && Prepare(c, link).Ready?
    ensures var m := Prepare(c, link).m;
            Present(m) && (Judgement(m) == Normal ==> Transmittable(m))
  {
    var m := Prepare(c, link).m;
    if m.Payload? && Judgement(m) == Normal {
      VerdictLimits(m.r);
    }
  }

  /** The short header is always enough for a server without version 4.9, with one exception:
      a cancelled subscription sends its count modulo 2 to the 16, and if that is 0xffff the
      queue refuses the header. */
  lemma RefusedOnlyCancel(c: Call, link: Link)
    requires Sound(c) && Prepare(c, link).Ready? && !Prepare(c, link).m.Payload?
    ensures Judgement(Prepare(c, link).m) != Normal <==>
      c.CancelSubscription? && c.nElem % 0x1_0000 == 0xffff && !link.V49()
  {
    match c
    case ReadNotify(t, n, sid, id) => ReplyElemBound(t, link);
    case Subscribe(t, n, mask, sid, id) => ReplyElemBound(t, link);
    case UpdateSubscription(t, n, sid, id) => ReplyElemBound(t, link);
    case _ =>
  }

  /** A subscription that could be asked for can be cancelled. */
  lemma CancelAfterSubscribe(c: Call, link: Link)
    requires Sound(c) && c.Subscribe? && Prepare(c, link).Ready?
    ensures var d := CancelSubscription(c.dataType, c.nElem, c.sid, c.id);
            Prepare(d, link).Ready? ==> Judgement(Prepare(d, link).m) == Normal
  {
    ReplyElemBound(c.dataType, link);
  }
}
