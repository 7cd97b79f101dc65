/** The receiving side of a circuit: received buffers become messages as their bytes arrive. */
module Circuits {
  import opened Options
  import opened Sealing
  import opened Wire
  import opened ComBufs
  import opened ComQueRecvs

  /** The largest body that is delivered. */
  function Limit(largeBufferSize: nat): (limit: nat)
    ensures largeBufferSize <= limit && 0x4000 <= limit && (limit == largeBufferSize || limit == 0x4000)
  {
    if largeBufferSize > MAX_TCP then largeBufferSize else MAX_TCP
  }

  // ---------------------------------------------------------------- what comes of a stream

  /** How a message comes out.  A body that needs the large cache can get lost when there is no
      memory for it; if the memory is there when more of the body arrives, what was thrown away
      before is missing and other bytes stand in its place. */
  predicate Matches(m: Message, got: Message) {
    got == m || (m.hdr.postsize > MAX_TCP && got.hdr == m.hdr && |got.body| == |m.body|)
  }

  /** Messages in order; only those that need the large cache can be missing or damaged. */
  predicate Served(due: seq<Message>, got: seq<Message>) {
    if due == [] then got == []
    else
      var m, rest := due[|due| - 1], due[..|due| - 1];
      || (got != [] && Matches(m, got[|got| - 1]) && Served(rest, got[..|got| - 1]))
      || (m.hdr.postsize > MAX_TCP && Served(rest, got))
  }

  lemma ServedSnoc(due: seq<Message>, got: seq<Message>, m: Message, g: Message)
    requires Served(due, got)
    ensures Matches(m, g) ==> Served(due + [m], got + [g])
    ensures m.hdr.postsize > MAX_TCP ==> Served(due + [m], got)
  {
    assert (due + [m])[..|due|] == due && (got + [g])[..|got|] == got;
  }

  /** Without such messages nothing is missing. */
  lemma {:induction false} ServedSmall(due: seq<Message>, got: seq<Message>)
    requires Served(due, got) && forall i :: 0 <= i < |due| ==> due[i].hdr.postsize <= MAX_TCP
    ensures got == due
  {
    if due != [] {
      assert due[|due| - 1].hdr.postsize <= MAX_TCP;
      ServedSmall(due[..|due| - 1], got[..|got| - 1]);
    }
  }

  /** The bytes of the complete messages, what they decode to, and what was delivered; `starved` says
      whether there was ever no memory for the large cache. */
  datatype Tally = Tally(handled: seq<byte>, due: seq<Message>, delivered: seq<Message>, starved: bool, limit: nat)

  predicate Settled(t: Tally) {
    && Parse(t.handled, t.limit) == Parsed(t.due, [], false)
    && Served(t.due, t.delivered) && (!t.starved ==> t.delivered == t.due)
  }

  /** A whole message joins, delivered or not. */
  function Joined(t: Tally, m: seq<byte>, hdr: Header, body: seq<byte>, kept: Option<seq<byte>>): Tally {
    t.(handled := t.handled + m, due := t.due + Deliver(Message(hdr, body), t.limit),
       delivered := if kept.Some? then t.delivered + [Message(hdr, kept.value)] else t.delivered)
  }

  lemma TallyMore(t: Tally, m: seq<byte>, hdr: Header, kept: Option<seq<byte>>)
    requires Sealed(Settled, t) && MAX_TCP <= t.limit
    requires StartsWithMessage(m) && |m| == ParseHeader(m).size + ParseHeader(m).hdr.postsize
    requires hdr == ParseHeader(m).hdr
    requires var body := m[ParseHeader(m).size..];
      && (kept.Some? ==> |kept.value| == |body| && hdr.postsize <= t.limit)
      && (kept.Some? && (hdr.postsize <= MAX_TCP || !t.starved) ==> kept.value == body)
      && (kept.None? ==> hdr.postsize > MAX_TCP && (t.starved || hdr.postsize > t.limit))
    ensures Sealed(Settled, Joined(t, m, hdr, m[ParseHeader(m).size..], kept))
  {
    var body := m[ParseHeader(m).size..];
    Unseal(Settled, t);
    Unseal(Settled, Joined(t, m, hdr, body, kept));
    WholeMessage(t.handled, t.due, m, hdr, t.limit);
    ServedSnoc(t.due, t.delivered, Message(hdr, body), Message(hdr, if kept.Some? then kept.value else []));
    assert t.due + [] == t.due;
  }

  lemma TallyStarves(t: Tally)
    requires Sealed(Settled, t)
    ensures Sealed(Settled, t.(starved := true))
  {
    Unseal(Settled, t);
    Unseal(Settled, t.(starved := true));
  }

  lemma TallyTail(t: Tally, tail: seq<byte>)
    requires Sealed(Settled, t) && Parse(tail, t.limit).msgs == []
    ensures Parse(t.handled + tail, t.limit).msgs == t.due
    ensures Parse(t.handled + tail, t.limit).bad == Parse(tail, t.limit).bad
    ensures Served(t.due, t.delivered) && (!t.starved ==> t.delivered == t.due)
  {
    Unseal(Settled, t);
    Undecided(t.handled, t.due, tail, t.limit);
  }

  lemma TallyStops(t: Tally, tail: seq<byte>)
    requires Sealed(Settled, t)
    ensures t.due <= Parse(t.handled + tail, t.limit).msgs
    ensures Served(t.due, t.delivered) && (!t.starved ==> t.delivered == t.due)
  {
    Unseal(Settled, t);
    ParseAfter(t.handled, t.due, tail, t.limit);
  }

  /** It has gone well each of the first times. */
  predicate AllTrue(f: nat -> bool, n: nat) {
    n == 0 || (f(n - 1) && AllTrue(f, n - 1))
  }

  lemma {:induction false} AllTrueMeans(f: nat -> bool, n: nat)
    ensures AllTrue(f, n) <==> forall k: nat :: k < n ==> f(k)
  {
    if n > 0 {
      AllTrueMeans(f, n - 1);
    }
  }

  // ---------------------------------------------------------------- the message in progress

  /** The fields of the decoder, with the bytes it has taken for the message in progress; `max` is the
      size of the body cache and `limit` its large size. */
  datatype Decoder = Decoder(
    consumed: seq<byte>, curMsg: Header, oldMsg: bool, msg: bool, n: nat, data: seq<byte>,
    max: nat, limit: nat, starved: bool)

  /** How the fields follow from the bytes. */
  predicate Decoded(d: Decoder) {
    if d.msg then
      var h := ParseHeader(d.consumed);
      && h.Complete? && h.hdr == d.curMsg && d.oldMsg
      && |d.consumed| == h.size + d.n && d.n <= d.curMsg.postsize
      && (d.curMsg.postsize <= d.max ==> |d.data| == d.n)
      && (d.max < d.curMsg.postsize <= d.limit && !d.starved ==> d.n == 0)
      && (d.curMsg.postsize <= d.max && (d.curMsg.postsize <= MAX_TCP || !d.starved) ==> d.data == d.consumed[h.size..])
    else if d.oldMsg then
      && |d.consumed| == OLD_HEADER_SIZE && d.curMsg == OldHeaderAt(d.consumed) && d.curMsg.postsize == 0xffff
      && d.n == 0 && d.data == []
    else
      d.consumed == [] && d.n == 0 && d.data == []
  }

  lemma NothingTaken(d: Decoder)
    requires Sealed(Decoded, d) && !d.oldMsg && !d.msg
    ensures d.consumed == [] && d.n == 0 && d.data == []
  {
    Unseal(Decoded, d);
  }

  lemma HeaderMissing(taken: seq<byte>, c: seq<byte>)
    ensures taken == [] && |c| < OLD_HEADER_SIZE ==> ParseHeader(taken + c).NeedMore?
  {
  }

  function TakeOld(d: Decoder, c: seq<byte>): Decoder
    requires OLD_HEADER_SIZE <= |c|
  {
    d.(consumed := c[..OLD_HEADER_SIZE], curMsg := OldHeaderAt(c), oldMsg := true,
       msg := OldHeaderAt(c).postsize != 0xffff)
  }

  lemma OldTaken(d: Decoder, c: seq<byte>)
    requires Sealed(Decoded, d) && !d.oldMsg && !d.msg && OLD_HEADER_SIZE <= |c|
    ensures Sealed(Decoded, TakeOld(d, c)) && c[..OLD_HEADER_SIZE] + c[OLD_HEADER_SIZE..] == c
  {
    NothingTaken(d);
    Unseal(Decoded, TakeOld(d, c));
    TakeOldHeader(c);
  }

  function TakeRest(d: Decoder, c: seq<byte>): Decoder
    requires ANNEX_SIZE <= |c|
  {
    d.(consumed := d.consumed + c[..ANNEX_SIZE], msg := true,
       curMsg := d.curMsg.(postsize := U32At(c, 0), count := U32At(c, 4)))
  }

  lemma AnnexTaken(d: Decoder, c: seq<byte>)
    requires Sealed(Decoded, d) && d.oldMsg && !d.msg && ANNEX_SIZE <= |c|
    ensures Sealed(Decoded, TakeRest(d, c)) && d.consumed + c[..ANNEX_SIZE] + c[ANNEX_SIZE..] == d.consumed + c
    ensures c[4..][4..] == c[8..] && U32At(c[4..], 0) == U32At(c, 4)
  {
    Unseal(Decoded, d);
    Unseal(Decoded, TakeRest(d, c));
    TakeAnnex(d.consumed, c);
  }

  lemma AnnexMissing(d: Decoder, c: seq<byte>)
    requires Sealed(Decoded, d) && d.oldMsg && !d.msg && |c| < ANNEX_SIZE
    ensures ParseHeader(d.consumed + c).NeedMore?
  {
    Unseal(Decoded, d);
    TakeAnnex(d.consumed, c);
  }

  /** A message whose header is there. */
  lemma InProgress(d: Decoder)
    requires Sealed(Decoded, d) && d.msg
    ensures var h := ParseHeader(d.consumed);
            h.Complete? && h.hdr == d.curMsg && |d.consumed| == h.size + d.n && d.n <= d.curMsg.postsize
    ensures d.curMsg.postsize <= d.max ==> |d.data| == d.n
    ensures d.curMsg.postsize <= d.max && (d.curMsg.postsize <= MAX_TCP || !d.starved) ==>
              d.data == d.consumed[ParseHeader(d.consumed).size..]
  {
    Unseal(Decoded, d);
  }

  lemma Kept(d: Decoder, bytes: seq<byte>)
    requires Sealed(Decoded, d) && d.msg && d.curMsg.postsize <= d.max && d.n + |bytes| <= d.curMsg.postsize
    ensures Sealed(Decoded, d.(consumed := d.consumed + bytes, n := d.n + |bytes|, data := d.data + bytes))
  {
    Unseal(Decoded, d);
    Unseal(Decoded, d.(consumed := d.consumed + bytes, n := d.n + |bytes|, data := d.data + bytes));
    BodyExtends(d.consumed, bytes, []);
  }

  lemma Skipped(d: Decoder, bytes: seq<byte>)
    requires Sealed(Decoded, d) && d.msg && d.curMsg.postsize > d.max && d.n + |bytes| <= d.curMsg.postsize
    requires d.curMsg.postsize > d.limit || d.starved
    ensures Sealed(Decoded, d.(consumed := d.consumed + bytes, n := d.n + |bytes|))
  {
    Unseal(Decoded, d);
    Unseal(Decoded, d.(consumed := d.consumed + bytes, n := d.n + |bytes|));
    BodyExtends(d.consumed, bytes, []);
  }

  lemma Enlarged(d: Decoder, content: seq<byte>)
    requires Sealed(Decoded, d) && d.msg && MAX_TCP <= d.max < d.curMsg.postsize <= d.limit && |content| == d.n
    ensures Sealed(Decoded, d.(max := d.limit, data := content))
  {
    Unseal(Decoded, d);
    Unseal(Decoded, d.(max := d.limit, data := content));
  }

  lemma NotEnlarged(d: Decoder)
    requires Sealed(Decoded, d)
    ensures Sealed(Decoded, d.(starved := true))
  {
    Unseal(Decoded, d);
    Unseal(Decoded, d.(starved := true));
  }

  /** How a body gets damaged: there is no memory when its first `k` bytes arrive, and there is when
      the rest does. What is delivered is right exactly if the new memory happens to hold what was
      thrown away. */
  lemma LateMemory(d: Decoder, body: seq<byte>, k: nat, content: seq<byte>) returns (r: Decoder)
    requires Sealed(Decoded, d) && d.msg && d.n == 0 && MAX_TCP <= d.max < d.curMsg.postsize <= d.limit
    requires |body| == d.curMsg.postsize && k <= |body| && |content| == k
    ensures Sealed(Decoded, r) && r.msg && r.n == r.curMsg.postsize == d.curMsg.postsize
    ensures r.consumed == d.consumed + body
    ensures r.data == content + body[k..] && (r.data == body <==> content == body[..k])
  {
    var s := d.(starved := true);
    NotEnlarged(d);
    Skipped(s, body[..k]);
    s := s.(consumed := s.consumed + body[..k], n := k);
    Enlarged(s, content);
    s := s.(max := s.limit, data := content);
    Kept(s, body[k..]);
    r := s.(consumed := s.consumed + body[k..], n := |body|, data := s.data + body[k..]);
    assert d.consumed + body[..k] + body[k..] == d.consumed + body;
    assert r.data[..k] == content && r.data[k..] == body[k..] && body == body[..k] + body[k..];
  }

  lemma StartedOver(d: Decoder)
    ensures Sealed(Decoded, d.(consumed := [], oldMsg := false, msg := false, n := 0, data := []))
  {
    Unseal(Decoded, d.(consumed := [], oldMsg := false, msg := false, n := 0, data := []));
  }

  /** The receiving side.  A message may arrive in any number of pieces; what was decoded of
      it so far is kept between calls. */
  class TcpRecv {
    const recvQue: ComQueRecv
    const largeBufferSize: nat
    const memory: nat -> bool     // whether there is memory for the large cache, each time it is wanted
    var attempts: nat             // how often it was wanted
    const accepts: nat -> bool    // whether the client finds a response good, one after the other
    var curMsg: Header
    var oldMsgHeaderAvailable: bool
    var msgHeaderAvailable: bool
    var curDataBytes: nat
    var curData: seq<byte>
    var curDataMax: nat
    var delivered: seq<Message>   // the responses executed, in order
    ghost var due: seq<Message>   // the messages complete so far
    ghost var handled: seq<byte>  // their bytes
    ghost var consumed: seq<byte> // the bytes taken from the queue for the message in progress
    ghost var starved: bool       // whether there was ever no memory for the large cache

    ghost function Now(): Tally
      reads this
    {
      Tally(handled, due, delivered, starved, Limit(largeBufferSize))
    }

    ghost function State(): Decoder
      reads this
    {
      Decoder(consumed, curMsg, oldMsgHeaderAvailable, msgHeaderAvailable, curDataBytes, curData, curDataMax,
        Limit(largeBufferSize), starved)
    }

    ghost predicate Valid()
      reads this, recvQue
    {
      && recvQue.Valid() && (curDataMax == MAX_TCP || curDataMax == Limit(largeBufferSize))
      && Sealed(Settled, Now()) && Sealed(Decoded, State()) && starved == !AllTrue(memory, attempts)
      && AllTrue(accepts, |delivered|)
    }

    /** Every byte received so far. */
    ghost function Received(): seq<byte>
      reads this, recvQue
    {
      handled + (consumed + recvQue.content)
    }

    constructor (largeBufferSize: nat, memory: nat -> bool, accepts: nat -> bool)
      ensures Valid() && Received() == [] && delivered == due == [] && !starved && fresh(recvQue)
      ensures this.largeBufferSize == largeBufferSize && this.memory == memory && this.accepts == accepts
    {
      recvQue := new ComQueRecv();
      this.largeBufferSize, this.memory, this.accepts, attempts := largeBufferSize, memory, accepts, 0;
      curMsg := Header(0, 0, 0, 0, 0, 0);
      oldMsgHeaderAvailable, msgHeaderAvailable := false, false;
      curDataBytes, curData, curDataMax := 0, [], MAX_TCP;
      delivered, due, handled, consumed, starved := [], [], [], [], false;
      new;
      Unseal(Settled, Now());
      Unseal(Decoded, State());
    }

    /** A buffer filled by the socket joins the queue. */
    method Receive(bytes: seq<byte>)
      requires Valid() && |bytes| <= COM_BUF_SIZE
      modifies recvQue
      ensures Valid() && Received() == old(Received()) + bytes
    {
      var buf := EMPTY_BUF.Push(bytes);
      recvQue.PushLastComBufReceived(buf);
      assert recvQue.content == old(recvQue.content) + bytes;
    }

    /** Fetch a complete header, or find that bytes are missing. */
    method FetchHeader() returns (ok: bool)
      requires Valid()
      modifies this`curMsg, this`oldMsgHeaderAvailable, this`msgHeaderAvailable, this`consumed, recvQue
      ensures Valid() && Received() == old(Received()) && ok == msgHeaderAvailable
      ensures !ok ==> ParseHeader(consumed + recvQue.content).NeedMore?
      ensures old(msgHeaderAvailable) ==> recvQue.content == old(recvQue.content)
      ensures !old(msgHeaderAvailable) && ok ==> |recvQue.content| < |old(recvQue.content)|
    {
      ok := true;
      if !msgHeaderAvailable {
        if !oldMsgHeaderAvailable {
          ok := FetchOldHeader();
          HeaderMissing(consumed, recvQue.content);
        }
        if ok && !msgHeaderAvailable {
          ok := FetchAnnex();
        }
      }
    }

    /** The sixteen byte header; it is the whole header unless it announces the annex. */
    method FetchOldHeader() returns (ok: bool)
      requires Valid() && !oldMsgHeaderAvailable && !msgHeaderAvailable
      modifies this`curMsg, this`oldMsgHeaderAvailable, this`msgHeaderAvailable, this`consumed, recvQue
      ensures Valid() && Received() == old(Received()) && ok == oldMsgHeaderAvailable
      ensures !ok ==> !msgHeaderAvailable && consumed == [] && |recvQue.content| < OLD_HEADER_SIZE
      ensures ok ==> |recvQue.content| < |old(recvQue.content)|
    {
      ghost var c := recvQue.content;
      NothingTaken(State());
      assert [] + c == c;
      var h := recvQue.PopOldMsgHeader();
      ok := h.Some?;
      if ok {
        HaveOldHeader(h.value, c);
        assert consumed + recvQue.content == c;
      }
    }

    method HaveOldHeader(h: Header, ghost c: seq<byte>)
      requires Sealed(Decoded, State()) && !oldMsgHeaderAvailable && !msgHeaderAvailable
      requires OLD_HEADER_SIZE <= |c| && h == OldHeaderAt(c)
      modifies this`curMsg, this`oldMsgHeaderAvailable, this`msgHeaderAvailable, this`consumed
      ensures Sealed(Decoded, State()) && oldMsgHeaderAvailable && consumed == c[..OLD_HEADER_SIZE]
    {
      OldTaken(State(), c);
      curMsg, oldMsgHeaderAvailable := h, true;
      consumed := c[..OLD_HEADER_SIZE];
      msgHeaderAvailable := curMsg.postsize != 0xffff;
    }

    /** The eight byte annex of an extended header. */
    method FetchAnnex() returns (ok: bool)
      requires Valid() && oldMsgHeaderAvailable && !msgHeaderAvailable
      modifies this`curMsg, this`msgHeaderAvailable, this`consumed, recvQue
      ensures Valid() && Received() == old(Received()) && ok == msgHeaderAvailable
      ensures !ok ==> ParseHeader(consumed + recvQue.content).NeedMore? && recvQue.content == old(recvQue.content)
      ensures ok ==> |recvQue.content| < |old(recvQue.content)|
    {
      ghost var c := recvQue.content;
      ok := recvQue.OccupiedBytes() >= ANNEX_SIZE;
      if ok {
        AnnexTaken(State(), c);
        var postsize := recvQue.PopUInt32();
        var count := recvQue.PopUInt32();
        assert recvQue.content == c[ANNEX_SIZE..];
        curMsg := curMsg.(postsize := postsize.value, count := count.value);
        consumed := consumed + c[..ANNEX_SIZE];
        msgHeaderAvailable := true;
      } else {
        AnnexMissing(State(), c);
      }
    }

    /** Make the cache large enough for the body, memory permitting. */
    method Enlarge()
      requires Valid() && msgHeaderAvailable
      modifies this`curDataMax, this`curData, this`starved, this`attempts
      ensures Valid() && (old(starved) ==> starved)
      ensures curMsg.postsize > curDataMax ==> curMsg.postsize > Limit(largeBufferSize) || starved
    {
      if curMsg.postsize > curDataMax && curDataMax == MAX_TCP && largeBufferSize >= curMsg.postsize {
        attempts := attempts + 1;
        if memory(attempts - 1) {
          var content := Allocated(curDataBytes);
          Enlarged(State(), content);
          curDataMax, curData := largeBufferSize, content;
        } else {
          Starve();
        }
      }
    }

    ghost method Starve()
      requires Sealed(Settled, Now()) && Sealed(Decoded, State())
      modifies this`starved
      ensures starved && Sealed(Settled, Now()) && Sealed(Decoded, State())
    {
      TallyStarves(Now());
      NotEnlarged(State());
      starved := true;
    }

    /** The first bytes of new memory: they can be anything. */
    method Allocated(n: nat) returns (content: seq<byte>)
      ensures |content| == n
    {
      content := [];
      while |content| < n
        invariant |content| <= n
      {
        var filler: byte := *;
        content := content + [filler];
      }
    }

    /** Collect the body of the message in progress: a body that fits the cache, which grows
        once to its large size, is kept and delivered; a larger one is skipped. */
    method CollectBody() returns (done: bool, msgOk: bool)
      requires Valid() && msgHeaderAvailable && curMsg.postsize % 8 == 0
      modifies this, recvQue
      ensures old(starved) ==> starved
      ensures msgOk ==> Valid() && Received() == old(Received()) && |recvQue.content| <= |old(recvQue.content)|
      ensures msgOk && done ==> !msgHeaderAvailable
      ensures starved == !AllTrue(memory, attempts)
      ensures !done ==>
        msgOk && Parse(consumed + recvQue.content, Limit(largeBufferSize)) ==
            Parsed([], consumed + recvQue.content, false)
      ensures !msgOk ==> Sealed(Settled, Now()) && handled + recvQue.content == old(Received())
      ensures !msgOk ==> !AllTrue(accepts, |delivered|)
    {
      TakeBody();
      done, msgOk := curDataBytes == curMsg.postsize, true;
      if done {
        Regrouped(handled, consumed, recvQue.content);
        msgOk := FinishMessage();
      } else {
        Incomplete();
      }
    }

    method TakeBody()
      requires Valid() && msgHeaderAvailable
      modifies this`curDataMax, this`curData, this`curDataBytes, this`consumed, this`starved, this`attempts, recvQue
      ensures Valid() && Received() == old(Received()) && |recvQue.content| <= |old(recvQue.content)|
      ensures old(starved) ==> starved
      ensures curDataBytes <= curMsg.postsize && (curDataBytes == curMsg.postsize || recvQue.content == [])
      ensures curMsg.postsize > curDataMax ==> curMsg.postsize > Limit(largeBufferSize) || starved
    {
      Enlarge();
      if curMsg.postsize <= curDataMax {
        if curMsg.postsize > 0 {
          KeepBody();
        } else {
          InProgress(State());
        }
      } else {
        SkipBody();
      }
    }

    lemma Incomplete()
      requires Valid() && msgHeaderAvailable && curMsg.postsize % 8 == 0
      requires curDataBytes < curMsg.postsize && recvQue.content == []
      ensures Parse(consumed + recvQue.content, Limit(largeBufferSize)) == Parsed([], consumed + recvQue.content, false)
    {
      InProgress(State());
      assert consumed + recvQue.content == consumed;
    }

    method KeepBody()
      requires Valid() && msgHeaderAvailable && curMsg.postsize <= curDataMax
      modifies this`curData, this`curDataBytes, this`consumed, recvQue
      ensures Valid() && Received() == old(Received()) && |recvQue.content| <= |old(recvQue.content)|
      ensures curDataBytes <= curMsg.postsize && (curDataBytes == curMsg.postsize || recvQue.content == [])
    {
      ghost var c := recvQue.content;
      InProgress(State());
      var bytes := recvQue.CopyOutBytes(curMsg.postsize - curDataBytes);
      assert c == bytes + recvQue.content;
      Collected(consumed, bytes, recvQue.content, c);
      HaveBytes(bytes);
    }

    method HaveBytes(bytes: seq<byte>)
      requires Sealed(Decoded, State()) && msgHeaderAvailable && curMsg.postsize <= curDataMax
      requires curDataBytes + |bytes| <= curMsg.postsize
      modifies this`curData, this`curDataBytes, this`consumed
      ensures Sealed(Decoded, State()) && consumed == old(consumed) + bytes
      ensures curDataBytes == old(curDataBytes) + |bytes|
    {
      Kept(State(), bytes);
      curData := curData + bytes;
      curDataBytes := curDataBytes + |bytes|;
      consumed := consumed + bytes;
    }

    method SkipBody()
      requires Valid() && msgHeaderAvailable && curMsg.postsize > curDataMax
      requires curMsg.postsize > Limit(largeBufferSize) || starved
      modifies this`curDataBytes, this`consumed, recvQue
      ensures Valid() && Received() == old(Received()) && |recvQue.content| <= |old(recvQue.content)|
      ensures curDataBytes <= curMsg.postsize && (curDataBytes == curMsg.postsize || recvQue.content == [])
    {
      ghost var c := recvQue.content;
      InProgress(State());
      var n := recvQue.RemoveBytes(curMsg.postsize - curDataBytes);
      assert c == c[..n] + recvQue.content;
      Collected(consumed, c[..n], recvQue.content, c);
      LoseBytes(n, c[..n]);
    }

    method LoseBytes(n: nat, ghost bytes: seq<byte>)
      requires Sealed(Decoded, State()) && msgHeaderAvailable && curMsg.postsize > curDataMax
      requires |bytes| == n && curDataBytes + n <= curMsg.postsize
      requires curMsg.postsize > Limit(largeBufferSize) || starved
      modifies this`curDataBytes, this`consumed
      ensures Sealed(Decoded, State()) && consumed == old(consumed) + bytes && curDataBytes == old(curDataBytes) + n
    {
      Skipped(State(), bytes);
      curDataBytes := curDataBytes + n;
      consumed := consumed + bytes;
    }

    /** Execute the response, if its body was kept, and start over; the client can find it bad. */
    method FinishMessage() returns (msgOk: bool)
      requires Valid() && msgHeaderAvailable && curMsg.postsize % 8 == 0 && curDataBytes == curMsg.postsize
      requires curMsg.postsize > curDataMax ==> curMsg.postsize > Limit(largeBufferSize) || starved
      modifies this
      ensures starved == old(starved) && attempts == old(attempts)
              && (msgOk ==> Valid() && !msgHeaderAvailable && consumed == [])
      ensures handled == old(handled) + old(consumed) && Sealed(Settled, Now())
      ensures !msgOk ==> !AllTrue(accepts, |delivered|)
    {
      ghost var joined := WithMessage();
      due, handled := joined.due, joined.handled;
      msgOk := true;
      if curMsg.postsize <= curDataMax {
        msgOk := ExecuteResponse();
      }
      if msgOk {
        StartOver();
      }
    }

    /** What the message in progress, now complete, adds to what was decoded. */
    lemma WithMessage() returns (joined: Tally)
      requires Valid() && msgHeaderAvailable && curMsg.postsize % 8 == 0 && curDataBytes == curMsg.postsize
      requires curMsg.postsize > curDataMax ==> curMsg.postsize > Limit(largeBufferSize) || starved
      ensures Sealed(Settled, joined) && joined.handled == handled + consumed
      ensures joined.starved == starved && joined.limit == Limit(largeBufferSize)
      ensures joined.delivered ==
              if curMsg.postsize <= curDataMax then delivered + [Message(curMsg, curData)] else delivered
    {
      InProgress(State());
      var body := consumed[ParseHeader(consumed).size..];
      var kept := if curMsg.postsize <= curDataMax then Some(curData) else None;
      TallyMore(Now(), consumed, curMsg, kept);
      joined := Joined(Now(), consumed, curMsg, body, kept);
    }

    method StartOver()
      modifies this`consumed, this`oldMsgHeaderAvailable, this`msgHeaderAvailable, this`curDataBytes, this`curData
      ensures Sealed(Decoded, State()) && !msgHeaderAvailable && consumed == []
    {
      StartedOver(State());
      oldMsgHeaderAvailable, msgHeaderAvailable, curDataBytes, curData := false, false, 0, [];
      consumed := [];
    }

    /** What the client makes of a response is given. */
    method ExecuteResponse() returns (msgOk: bool)
      modifies this`delivered
      ensures delivered == old(delivered) + [Message(curMsg, curData)] && msgOk == accepts(|old(delivered)|)
    {
      msgOk := accepts(|delivered|);
      delivered := delivered + [Message(curMsg, curData)];
    }

    /** Decode whatever has arrived.  In every state and after every arrival the messages
        delivered are those of the bytes received so far, however these were cut into buffers and
        calls: all of them, exactly, as long as there was memory for the large cache. */
    method ProcessIncoming() returns (ok: bool, refused: bool)
      requires Valid()
      modifies this, recvQue
      ensures old(starved) ==> starved
      ensures !refused ==> Valid() && Received() == old(Received())
      ensures !refused ==> Parse(Received(), Limit(largeBufferSize)).msgs == due
      ensures Served(due, delivered) && (!starved ==> delivered == due)
      ensures starved == !AllTrue(memory, attempts)
      ensures !refused ==> (ok <==> !Parse(Received(), Limit(largeBufferSize)).bad)
      ensures refused ==> !ok && due <= Parse(old(Received()), Limit(largeBufferSize)).msgs
      ensures refused <==> !AllTrue(accepts, |delivered|)
    {
      refused := false;
      while true
        invariant Valid() && Received() == old(Received()) && (old(starved) ==> starved)
        decreases |recvQue.content|, msgHeaderAvailable
      {
        var have := FetchHeader();
        if !have {
          TallyTail(Now(), consumed + recvQue.content);
          return true, false;
        }
        if curMsg.postsize % 8 != 0 {
          Misaligned();
          return false, false;
        }
        var done, msgOk := CollectBody();
        if !msgOk {
          TallyStops(Now(), recvQue.content);
          return false, true;
        }
        if !done {
          TallyTail(Now(), consumed + recvQue.content);
          return true, false;
        }
      }
    }

    lemma Misaligned()
      requires Valid() && msgHeaderAvailable && curMsg.postsize % 8 != 0
      ensures Parse(Received(), Limit(largeBufferSize)).msgs == due && Parse(Received(), Limit(largeBufferSize)).bad
      ensures Served(due, delivered) && (!starved ==> delivered == due)
    {
      InProgress(State());
      ParseHeaderExtends(consumed, recvQue.content);
      TallyTail(Now(), consumed + recvQue.content);
    }
  }

  lemma TakeOldHeader(c: seq<byte>)
    requires OLD_HEADER_SIZE <= |c|
    ensures var taken := c[..OLD_HEADER_SIZE];
            && taken + c[OLD_HEADER_SIZE..] == c
            && OldHeaderAt(taken) == OldHeaderAt(c)
            && (OldHeaderAt(c).postsize != 0xffff ==>
                  ParseHeader(taken) == Complete(OldHeaderAt(c), OLD_HEADER_SIZE))
  {
  }

  lemma TakeAnnex(taken: seq<byte>, c: seq<byte>)
    requires |taken| == OLD_HEADER_SIZE && OldHeaderAt(taken).postsize == 0xffff
    ensures if |c| < ANNEX_SIZE then ParseHeader(taken + c).NeedMore?
            else && taken + c[..ANNEX_SIZE] + c[ANNEX_SIZE..] == taken + c
                 && c[4..][4..] == c[8..] && U32At(c[4..], 0) == U32At(c, 4)
                 && ParseHeader(taken + c[..ANNEX_SIZE]) ==
                    Complete(OldHeaderAt(taken).(postsize := U32At(c, 0), count := U32At(c, 4)), 24)
  {
    if |c| < ANNEX_SIZE {
      assert OldHeaderAt(taken + c) == OldHeaderAt(taken);
    } else {
      var bs := taken + c[..ANNEX_SIZE];
      assert OldHeaderAt(bs) == OldHeaderAt(taken);
      assert U32At(bs, 16) == U32At(c, 0) && U32At(bs, 20) == U32At(c, 4);
      assert c[..ANNEX_SIZE] + c[ANNEX_SIZE..] == c;
    }
  }

  lemma BodyExtends(taken: seq<byte>, bytes: seq<byte>, rest: seq<byte>)
    ensures (taken + bytes) + rest == taken + (bytes + rest)
    ensures ParseHeader(taken).Complete? ==>
              ParseHeader(taken + bytes) == ParseHeader(taken) &&
              (taken + bytes)[ParseHeader(taken).size..] == taken[ParseHeader(taken).size..] + bytes
  {
    ParseHeaderExtends(taken, bytes);
  }

  lemma Collected(taken: seq<byte>, bytes: seq<byte>, rest: seq<byte>, all: seq<byte>)
    requires all == bytes + rest
    ensures (taken + bytes) + rest == taken + all
  {
  }

  lemma OneMessage(m: seq<byte>, limit: nat)
    requires StartsWithMessage(m) && |m| == ParseHeader(m).size + ParseHeader(m).hdr.postsize
    ensures var h := ParseHeader(m);
            Parse(m, limit) == Parsed(Deliver(Message(h.hdr, m[h.size..]), limit), [], false)
  {
    var h := ParseHeader(m);
    assert m[h.size..|m|] == m[h.size..];
    ParseStep(m, m[h.size..], [], limit);
    assert Parse([], limit) == Parsed([], [], false);
    var d := Deliver(Message(h.hdr, m[h.size..]), limit);
    assert d + [] == d;
  }

  /** A whole message joins the bytes handled before it. */
  lemma WholeMessage(handled: seq<byte>, ms: seq<Message>, m: seq<byte>, hdr: Header, limit: nat)
    requires Parse(handled, limit) == Parsed(ms, [], false)
    requires StartsWithMessage(m) && |m| == ParseHeader(m).size + ParseHeader(m).hdr.postsize
    requires hdr == ParseHeader(m).hdr
    ensures Parse(handled + m, limit) ==
            Parsed(ms + Deliver(Message(hdr, m[ParseHeader(m).size..]), limit), [], false)
  {
    var d := Deliver(Message(hdr, m[ParseHeader(m).size..]), limit);
    OneMessage(m, limit);
    ParseAfter(handled, ms, m, limit);
  }

  lemma Regrouped(a: seq<byte>, b: seq<byte>, c: seq<byte>)
    ensures (a + b) + ([] + c) == a + (b + c)
  {
  }

  /** Behind the messages handled, an undecided tail delivers nothing. */
  lemma Undecided(handled: seq<byte>, ms: seq<Message>, tail: seq<byte>, limit: nat)
    requires Parse(handled, limit) == Parsed(ms, [], false) && Parse(tail, limit).msgs == []
    ensures Parse(handled + tail, limit).msgs == ms && Parse(handled + tail, limit).bad == Parse(tail, limit).bad
  {
    ParseAfter(handled, ms, tail, limit);
    assert ms + [] == ms;
  }
}
