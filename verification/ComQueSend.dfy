/** The send queue of a circuit: a list of communication buffers that grows message by
    message.  A message is committed as a whole or leaves no trace. */
module ComQueSends {
  import opened Arithmetic
  import opened Options
  import opened Wire
  import opened Requests
  import opened ComBufs
  import opened Outgoings
  import opened Sealing

  /** An iterator into the buffer list. */
  datatype Iter = Invalid | At(index: nat)

  predicate AllValid(bs: seq<Buf>) {
    forall i :: 0 <= i < |bs| ==> bs[i].Valid()
  }

  /** The uncommitted bytes of the first `n` buffers. */
  function PendingOf(bs: seq<Buf>, n: nat): seq<byte>
    requires n <= |bs|
  {
    if n == 0 then [] else PendingOf(bs, n - 1) + bs[n - 1].uncommitted
  }

  /** Buffers before `k` hold committed bytes only; those after it hold only the message in
      progress; none is empty. */
  predicate Shape(bs: seq<Buf>, k: nat) {
    && AllValid(bs)
    && (forall i :: 0 <= i < |bs| && i < k ==> bs[i].committed != [] && bs[i].uncommitted == [])
    && (forall i :: 0 <= i < |bs| && k < i ==> bs[i].committed == [])
    && (forall i :: 0 <= i < |bs| && k <= i ==> bs[i].committed != [] || bs[i].uncommitted != [])
  }

  /** What the list was when the message in progress began. */
  function Settled(bs: seq<Buf>, k: nat): seq<Buf>
  {
    if k < |bs| then bs[..k] + (if bs[k].committed == [] then [] else [bs[k].Rollback()]) else bs
  }

  lemma {:induction false} SamePrefix(bs: seq<Buf>, cs: seq<Buf>, n: nat)
    requires n <= |bs| && n <= |cs|
    requires forall i :: 0 <= i < n ==> bs[i] == cs[i]
    ensures StreamOf(bs, n) == StreamOf(cs, n) && PendingOf(bs, n) == PendingOf(cs, n)
  {
    if n > 0 {
      SamePrefix(bs, cs, n - 1);
    }
  }

  /** A message in progress grows by bytes in a new buffer. */
  lemma AddedShape(bs: seq<Buf>, k: nat, b: Buf)
    requires Shape(bs, k) && k <= |bs| && (k == |bs| ==> bs == [])
    requires b.Valid() && b.committed == [] && b.uncommitted != []
    ensures Shape(bs + [b], k)
  {
  }

  lemma AddedSettled(bs: seq<Buf>, k: nat, b: Buf)
    requires k <= |bs| && (k == |bs| ==> bs == []) && b.committed == []
    ensures Settled(bs + [b], k) == Settled(bs, k)
  {
    assert k < |bs| ==> (bs + [b])[..k] == bs[..k];
  }

  lemma BufAdded(bs: seq<Buf>, k: nat, b: Buf)
    requires Shape(bs, k) && k <= |bs| && (k == |bs| ==> bs == [])
    requires b.Valid() && b.committed == [] && b.uncommitted != []
    ensures var cs := bs + [b];
            Shape(cs, k) && StreamOf(cs, |cs|) == StreamOf(bs, |bs|) &&
            PendingOf(cs, |cs|) == PendingOf(bs, |bs|) + b.uncommitted && Settled(cs, k) == Settled(bs, k)
  {
    AddedShape(bs, k, b);
    AddedSettled(bs, k, b);
    SamePrefix(bs, bs + [b], |bs|);
  }

  function Extend(bs: seq<Buf>, data: seq<byte>): (cs: seq<Buf>)
    requires bs != []
  {
    bs[|bs| - 1 := bs[|bs| - 1].Push(data)]
  }

  /** A message in progress grows by bytes in the last buffer. */
  lemma BufExtended(bs: seq<Buf>, k: nat, data: seq<byte>)
    requires bs != [] && Shape(bs, k) && k < |bs| && |data| <= bs[|bs| - 1].Unoccupied()
    ensures var cs := Extend(bs, data);
            Shape(cs, k) && StreamOf(cs, |cs|) == StreamOf(bs, |bs|) &&
            PendingOf(cs, |cs|) == PendingOf(bs, |bs|) + data && Settled(cs, k) == Settled(bs, k)
  {
    var n := |bs| - 1;
    SamePrefix(bs, Extend(bs, data), n);
    Associative(PendingOf(bs, n), bs[n].uncommitted, data);
  }

  lemma Associative(a: seq<byte>, b: seq<byte>, c: seq<byte>)
    ensures a + (b + c) == (a + b) + c
  {
  }

  // ---------------------------------------------------------------- how full the buffers are

  /** What a buffer holds at least when another one is needed. */
  const LEAST: nat := COM_BUF_SIZE - 39

  /** What so many buffers hold at least when another one is needed. */
  function Capacity(n: nat): nat {
    if n == 0 then 0 else Capacity(n - 1) + LEAST
  }

  lemma {:induction false} CapacityIs(n: nat)
    ensures Capacity(n) == n * (COM_BUF_SIZE - 39)
  {
    if n > 0 {
      CapacityIs(n - 1);
      assert n * LEAST == (n - 1) * LEAST + LEAST;
    }
  }

  /** A new buffer is taken only for a value that no longer fits into the last one. */
  predicate Dense(bs: seq<Buf>) {
    && (forall i :: 0 <= i < |bs| ==> bs[i].read == 0)
    && (forall i :: 0 <= i < |bs| - 1 ==> bs[i].Unoccupied() <= 39)
  }

  predicate LastFull(bs: seq<Buf>) {
    bs == [] || bs[|bs| - 1].Unoccupied() <= 39
  }

  lemma {:induction false} DenseBytes(bs: seq<Buf>, n: nat)
    requires Dense(bs) && LastFull(bs) && n <= |bs|
    ensures Capacity(n) <= |StreamOf(bs, n)| + |PendingOf(bs, n)|
  {
    if n > 0 {
      DenseBytes(bs, n - 1);
      assert bs[n - 1].Unoccupied() <= 39;
    }
  }

  lemma DenseMore(bs: seq<Buf>, b: Buf)
    requires Sealed(Dense, bs) && LastFull(bs) && b.read == 0
    ensures Sealed(Dense, bs + [b])
  {
    Unseal(Dense, bs);
    Unseal(Dense, bs + [b]);
  }

  lemma DenseExtended(bs: seq<Buf>, data: seq<byte>)
    requires Sealed(Dense, bs) && bs != []
    ensures Sealed(Dense, Extend(bs, data))
  {
    Unseal(Dense, bs);
    Unseal(Dense, Extend(bs, data));
  }

  lemma SettledDense(bs: seq<Buf>, k: nat)
    requires Sealed(Dense, bs) && k <= |bs|
    ensures Sealed(Dense, Settled(bs, k))
  {
    Unseal(Dense, bs);
    Unseal(Dense, Settled(bs, k));
  }

  lemma CommittedDense(bs: seq<Buf>, cs: seq<Buf>, k: nat)
    requires Sealed(Dense, bs) && CommittedUpTo(bs, cs, k, |bs|)
    ensures Sealed(Dense, cs)
  {
    Unseal(Dense, bs);
    Unseal(Dense, cs);
  }

  lemma DenseRest(bs: seq<Buf>)
    requires Sealed(Dense, bs) && bs != []
    ensures Sealed(Dense, bs[1..])
  {
    Unseal(Dense, bs);
    Unseal(Dense, bs[1..]);
  }

  class ComQueSend {
    var bufs: seq<Buf>
    var spare: nat                // the buffers that can still be had
    var pFirstUncommited: Iter
    var nBytesPending: nat
    ghost var stream: seq<byte>   // bytes of whole messages, waiting to be sent
    ghost var pending: seq<byte>  // bytes of the message in progress
    ghost var before: seq<Buf>    // the list as it was before the message in progress

    ghost function FirstUncommitted(): nat
      reads this
    {
      if pFirstUncommited.At? then pFirstUncommited.index else |bufs|
    }

    ghost predicate Valid()
      reads this
    {
      && (pFirstUncommited.At? ==> pFirstUncommited.index < |bufs|)
      && Shape(bufs, FirstUncommitted())
      && stream == StreamOf(bufs, |bufs|)
      && pending == PendingOf(bufs, |bufs|)
      && before == Settled(bufs, FirstUncommitted())
      && nBytesPending == |stream|
      && Sealed(Dense, bufs)
    }

    /** The buffers in use and those that can still be had. */
    ghost function Held(): nat
      reads this
    {
      spare + |bufs|
    }

    /** Every buffer is in use and as good as full, and bytes are left over. */
    ghost predicate Exhausted(total: nat)
      reads this
    {
      spare == 0 && Capacity(Held()) <= |stream| + |pending| < total
    }

    /** The buffers would not hold what is queued and so many bytes more, even if each of them was
        filled up but for 39 bytes. */
    ghost predicate Tight(n: nat)
      reads this
    {
      Capacity(Held()) < |stream| + n
    }

    ghost predicate InMessage()
      reads this
    {
      pFirstUncommited.Invalid? ==> bufs == []
    }

    constructor (memory: nat)
      ensures Valid() && pFirstUncommited.Invalid? && stream == [] && Held() == memory
    {
      bufs, pFirstUncommited, nBytesPending, spare := [], Invalid, 0, memory;
      stream, pending, before := [], [], [];
      new;
      Unseal(Dense, bufs);
    }

    // ------------------------------------------------------------ pushing

    /** A new buffer joins the list, with the first bytes in it. */
    method PushComBuf(cb: Buf)
      requires Valid() && InMessage() && cb.Valid() && cb.committed == [] && cb.uncommitted != [] && cb.read == 0
      requires spare > 0 && LastFull(bufs)
      modifies this
      ensures Valid() && InMessage() && bufs == old(bufs) + [cb] && before == old(before)
      ensures stream == old(stream) && pending == old(pending) + cb.uncommitted && Held() == old(Held())
    {
      ghost var k, more := FirstUncommitted(), bufs + [cb];
      BufAdded(bufs, k, cb);
      DenseMore(bufs, cb);
      spare := spare - 1;
      bufs, pending := bufs + [cb], pending + cb.uncommitted;
      if pFirstUncommited.Invalid? {
        pFirstUncommited := At(|bufs| - 1);
      }
      assert bufs == more && FirstUncommitted() == k;
    }

    /** Push to the last buffer what is known to fit there. */
    method PushToLast(bs: seq<byte>)
      requires Valid() && InMessage() && 0 < |bufs| && |bs| <= bufs[|bufs| - 1].Unoccupied()
      modifies this
      ensures Valid() && InMessage() && bufs == Extend(old(bufs), bs) && before == old(before)
      ensures stream == old(stream) && pending == old(pending) + bs && Held() == old(Held())
    {
      BufExtended(bufs, FirstUncommitted(), bs);
      DenseExtended(bufs, bs);
      bufs, pending := Extend(bufs, bs), pending + bs;
    }

    /** No buffer can be had where one is needed. */
    lemma NoneLeft(total: nat)
      requires Valid() && spare == 0 && LastFull(bufs) && |stream| + |pending| < total
      ensures Exhausted(total)
    {
      Unseal(Dense, bufs);
      DenseBytes(bufs, |bufs|);
    }

    /** Push one value: all its bytes go to one buffer. */
    method PushScalar(bs: seq<byte>) returns (status: Status)
      requires Valid() && InMessage() && 0 < |bs| <= 40
      modifies this
      ensures Valid() && InMessage() && before == old(before) && stream == old(stream) && Held() == old(Held())
      ensures status == Normal || status == NoMemory
      ensures status == Normal ==> pending == old(pending) + bs
      ensures status == NoMemory ==> Exhausted(|stream| + old(|pending|) + |bs|)
    {
      if 0 < |bufs| && |bs| <= bufs[|bufs| - 1].Unoccupied() {
        PushToLast(bs);
        return Normal;
      }
      if spare == 0 {
        NoneLeft(|stream| + |pending| + |bs|);
        return NoMemory;  // no buffer could be allocated
      }
      PushComBuf(EMPTY_BUF.Push(bs));
      status := Normal;
    }

    /** Push an array: the last buffer is filled with whole elements, and then as many new
        buffers as it takes. */
    method PushVector(es: seq<Elem>, size: nat) returns (status: Status)
      requires Valid() && InMessage() && 1 <= size <= 40 && ElemsOfSize(es, size)
      requires |es| * size < 0x1_0000_0000
      modifies this
      ensures Valid() && InMessage() && before == old(before) && stream == old(stream) && Held() == old(Held())
      ensures status == Normal || status == NoMemory
      ensures status == Normal ==> pending == old(pending) + ElemsBytes(es)
      ensures status == NoMemory ==> Exhausted(|stream| + old(|pending|) + |ElemsBytes(es)|)
    {
      var rest := es;
      if 0 < |bufs| {
        var n := PushVectorToLast(rest, size);
        TailAppend(old(pending), rest, n, size);
        rest := rest[n..];
      }
      assert |old(pending) + ElemsBytes(es)| == |pending + ElemsBytes(rest)|;
      status := PushVectorOn(rest, size);
    }

    /** The elements that have no room in the last buffer. */
    method PushVectorOn(es: seq<Elem>, size: nat) returns (status: Status)
      requires Valid() && InMessage() && 1 <= size <= 40 && ElemsOfSize(es, size) && (es != [] ==> LastFull(bufs))
      modifies this
      ensures Valid() && InMessage() && before == old(before) && stream == old(stream) && Held() == old(Held())
      ensures status == Normal || status == NoMemory
      ensures status == Normal ==> pending == old(pending) + ElemsBytes(es)
      ensures status == NoMemory ==> Exhausted(|stream| + old(|pending|) + |ElemsBytes(es)|)
    {
      ghost var goal := pending + ElemsBytes(es);
      var rest := es;
      while rest != []
        invariant Valid() && InMessage() && ElemsOfSize(rest, size)
        invariant before == old(before) && stream == old(stream) && Held() == old(Held())
        invariant pending + ElemsBytes(rest) == goal && (rest != [] ==> LastFull(bufs))
        decreases |rest|
      {
        var n;
        ghost var pre := pending;
        assert |pre| + |ElemsBytes(rest)| == |goal|;
        n, status := PushVectorToNew(rest, size);
        if status == NoMemory {
          return;
        }
        TailAppend(pre, rest, n, size);
        rest := rest[n..];
      }
      status := Normal;
    }

    method PushVectorToLast(es: seq<Elem>, size: nat) returns (n: nat)
      requires Valid() && InMessage() && 1 <= size <= 40 && ElemsOfSize(es, size) && bufs != []
      modifies this
      ensures Valid() && InMessage() && before == old(before) && stream == old(stream) && Held() == old(Held())
      ensures n <= |es| && pending == old(pending) + ElemsBytes(es[..n]) && (n < |es| ==> LastFull(bufs))
    {
      var room := bufs[|bufs| - 1].Unoccupied();
      n := Fit(|es|, size, room);
      FitBytes(es, size, room);
      PushToLast(ElemsBytes(es[..n]));
    }

    method PushVectorToNew(es: seq<Elem>, size: nat) returns (n: nat, status: Status)
      requires Valid() && InMessage() && 1 <= size <= 40 && ElemsOfSize(es, size) && es != []
      requires LastFull(bufs)
      modifies this
      ensures Valid() && InMessage() && before == old(before) && stream == old(stream) && Held() == old(Held())
      ensures status == Normal || (status == NoMemory && n == 0)
      ensures n <= |es| && (status == Normal ==> 0 < n && pending == old(pending) + ElemsBytes(es[..n]))
      ensures status == Normal && n < |es| ==> LastFull(bufs)
      ensures status == NoMemory ==> Exhausted(|stream| + old(|pending|) + |ElemsBytes(es)|)
    {
      if spare == 0 {
        assert ElemsBytes(es) != [];
        NoneLeft(|stream| + |pending| + |ElemsBytes(es)|);
        return 0, NoMemory;
      }
      n, status := Fit(|es|, size, COM_BUF_SIZE), Normal;
      FitBytes(es, size, COM_BUF_SIZE);
      PushComBuf(EMPTY_BUF.Push(ElemsBytes(es[..n])));
    }

    /** Push a string of bytes, over as many buffers as it takes. */
    method PushString(bs: seq<byte>) returns (status: Status)
      requires Valid() && InMessage()
      modifies this
      ensures Valid() && InMessage() && before == old(before) && stream == old(stream) && Held() == old(Held())
      ensures status == Normal || status == NoMemory
      ensures status == Normal ==> pending == old(pending) + bs
      ensures status == NoMemory ==> Exhausted(|stream| + old(|pending|) + |bs|)
    {
      var rest := bs;
      if 0 < |bufs| {
        var n := Min(|rest|, bufs[|bufs| - 1].Unoccupied());
        SentSplit(pending, rest, n);
        PushToLast(rest[..n]);
        rest := rest[n..];
      }
      assert |old(pending) + bs| == |pending + rest|;
      status := PushStringOn(rest);
    }

    /** The bytes that have no room in the last buffer. */
    method PushStringOn(bs: seq<byte>) returns (status: Status)
      requires Valid() && InMessage() && (bs != [] ==> LastFull(bufs))
      modifies this
      ensures Valid() && InMessage() && before == old(before) && stream == old(stream) && Held() == old(Held())
      ensures status == Normal || status == NoMemory
      ensures status == Normal ==> pending == old(pending) + bs
      ensures status == NoMemory ==> Exhausted(|stream| + old(|pending|) + |bs|)
    {
      ghost var goal := pending + bs;
      var rest := bs;
      while rest != []
        invariant Valid() && InMessage()
        invariant before == old(before) && stream == old(stream) && Held() == old(Held())
        invariant pending + rest == goal && (rest != [] ==> LastFull(bufs))
        decreases |rest|
      {
        var n;
        ghost var pre := pending;
        assert |pre| + |rest| == |goal|;
        n, status := PushBytesToNew(rest);
        if status == NoMemory {
          return;
        }
        rest := rest[n..];
      }
      status := Normal;
    }

    method PushBytesToNew(bs: seq<byte>) returns (n: nat, status: Status)
      requires Valid() && InMessage() && bs != [] && LastFull(bufs)
      modifies this
      ensures Valid() && InMessage() && before == old(before) && stream == old(stream) && Held() == old(Held())
      ensures status == Normal || (status == NoMemory && n == 0)
      ensures n <= |bs| && (status == Normal ==> 0 < n && pending + bs[n..] == old(pending) + bs)
      ensures status == Normal && n < |bs| ==> LastFull(bufs)
      ensures status == NoMemory ==> Exhausted(|stream| + old(|pending|) + |bs|)
    {
      if spare == 0 {
        NoneLeft(|stream| + |pending| + |bs|);
        return 0, NoMemory;
      }
      n, status := Min(|bs|, COM_BUF_SIZE), Normal;
      SentSplit(pending, bs, n);
      PushComBuf(EMPTY_BUF.Push(bs[..n]));
    }

    // ------------------------------------------------------------ requests

    /** Insert a header, all of it into one buffer. */
    method InsertRequestHeader(h: Header, v49Ok: bool) returns (status: Status)
      requires Valid() && InMessage()
      modifies this
      ensures Valid() && InMessage() && before == old(before) && stream == old(stream) && Held() == old(Held())
      ensures status == OutOfBounds <==> !FitsShort(h) && !v49Ok
      ensures status != BadType
      ensures status == NoMemory ==> Exhausted(|stream| + old(|pending|) + |HeaderBytes(h)|)
      ensures status == Normal ==> pending == old(pending) + HeaderBytes(h)
      ensures status == Normal ==> bufs != [] && EndsWith(bufs[|bufs| - 1].uncommitted, HeaderBytes(h))
    {
      if FitsShort(h) || v49Ok {
        var fields := FieldsOf(h);
        status := PushInOneBuffer(fields);
      } else {
        status := OutOfBounds;
      }
    }

    /** The fields of a header in the order they are pushed. */
    method FieldsOf(h: Header) returns (fields: seq<byte>)
      ensures fields == HeaderBytes(h) && 0 < |fields| <= 24
    {
      if FitsShort(h) {
        fields := OldHeaderBytes(h.cmmd, h.postsize, h.dataType, h.count, h.cid, h.available);
      } else {
        fields :=
          OldHeaderBytes(h.cmmd, 0xffff, h.dataType, 0, h.cid, h.available) + (Be32(h.postsize) + Be32(h.count));
      }
    }

    /** Push the fields of a header to the last buffer, or to a new one when the last has not
        room for all of them. */
    method PushInOneBuffer(fields: seq<byte>) returns (status: Status)
      requires Valid() && InMessage() && 0 < |fields| <= 40
      modifies this
      ensures Valid() && InMessage() && before == old(before) && stream == old(stream) && Held() == old(Held())
      ensures status == Normal || status == NoMemory
      ensures status == Normal ==> pending == old(pending) + fields
      ensures status == NoMemory ==> Exhausted(|stream| + old(|pending|) + |fields|)
      ensures status == Normal ==> bufs != [] && EndsWith(bufs[|bufs| - 1].uncommitted, fields)
    {
      if bufs != [] && |fields| <= bufs[|bufs| - 1].Unoccupied() {
        PushToLast(fields);
      } else {
        if spare == 0 {
          NoneLeft(|stream| + |pending| + |fields|);
          return NoMemory;
        }
        PushComBuf(EMPTY_BUF.Push(fields));
      }
      status := Normal;
    }


    /** Insert a request: header, payload and zero padding. */
    method InsertRequestWithPayLoad(r: Request) returns (status: Status)
      requires Valid() && InMessage() && PayloadPresent(r)
      modifies this
      ensures Valid() && InMessage() && before == old(before) && stream == old(stream) && Held() == old(Held())
      ensures status == Verdict(r) || (status == NoMemory && WithinLimits(r))
      ensures status == Normal ==> WithinLimits(r) && pending == old(pending) + FrameOf(r)
      ensures status == NoMemory ==> WithinLimits(r) && Exhausted(|stream| + old(|pending|) + |FrameOf(r)|)
    {
      if r.dataType > LAST_BUFFER_TYPE {
        return BadType;
      }
      if r.nElem == 1 {
        if r.dataType == DBR_STRING && |r.cstr| + 1 > MAX_STRING_SIZE {
          return OutOfBounds;
        }
      } else if r.nElem >= MaxElem(r.dataType, r.v49Ok) {
        return OutOfBounds;
      }
      status := InsertFrame(r);
    }

    /** The header, the data and the padding of a request within the limits. */
    method InsertFrame(r: Request) returns (status: Status)
      requires Valid() && InMessage() && PayloadPresent(r) && WithinLimits(r)
      modifies this
      ensures Valid() && InMessage() && before == old(before) && stream == old(stream) && Held() == old(Held())
      ensures status == Verdict(r) || status == NoMemory
      ensures status == Normal ==> pending == old(pending) + FrameOf(r)
      ensures status == NoMemory ==> Exhausted(|stream| + old(|pending|) + |FrameOf(r)|)
    {
      SizesFit(r);
      status := InsertRequestHeader(HeaderOf(r), r.v49Ok);
      if status == Normal {
        status := PushPayload(r);
      }
      if status == Normal {
        FrameInPieces(old(pending), r);
        status := PushString(Zeros(Align(PayloadSize(r)) - PayloadSize(r)));
      }
    }

    /** The copy dispatch: a scalar string up to its terminating zero, one element as a
        scalar, more as an array; the types without a copy routine throw. */
    method PushPayload(r: Request) returns (status: Status)
      requires Valid() && InMessage() && PayloadPresent(r) && WithinLimits(r)
      modifies this
      ensures Valid() && InMessage() && before == old(before) && stream == old(stream) && Held() == old(Held())
      ensures status == Verdict(r) || status == NoMemory
      ensures status == Normal ==> pending == old(pending) + DataOf(r)
      ensures status == NoMemory ==> Exhausted(|stream| + old(|pending|) + |DataOf(r)|)
    {
      if IsScalarString(r) {
        status := PushString(r.cstr + [0]);
      } else if !Copyable(r.dataType) {
        status := BadType;
      } else if r.nElem == 1 {
        SizeBounds(r.dataType);
        SingleElem(r.elems[0]);
        assert r.elems == [r.elems[0]];
        status := PushScalar(ElemBytes(r.elems[0]));
      } else {
        SizesFit(r);
        SizeBounds(r.dataType);
        status := PushVector(r.elems, DBR_SIZE[r.dataType]);
      }
    }

    // ------------------------------------------------------------ messages

    method BeginMsg()
      requires Valid() && pFirstUncommited.Invalid?
      modifies this
      ensures Valid() && InMessage() && bufs == old(bufs) && stream == old(stream)
      ensures before == old(bufs) && pending == [] && Held() == old(Held())
    {
      NothingPending(bufs, |bufs|);
      pending, before := [], bufs;
      if bufs != [] {
        LastSettled(bufs);
        pFirstUncommited := At(|bufs| - 1);
      }
    }

    /** Commit the message in progress: its bytes join the stream. */
    method CommitMsg()
      requires Valid() && InMessage()
      modifies this
      ensures Valid() && pFirstUncommited.Invalid?
      ensures stream == old(stream) + old(pending) && pending == [] && Held() == old(Held())
    {
      ghost var bs, k := bufs, FirstUncommitted();
      CommitStart(bs, k);
      CommitBuffers();
      CommittedStream(bs, bufs, k, |bs|);
      CommittedShape(bs, bufs, k);
      CommittedDense(bs, bufs, k);
      NothingPending(bufs, |bufs|);
      stream, pending, before := stream + pending, [], bufs;
    }

    /** The loop of a commit. */
    method CommitBuffers()
      requires FirstUncommitted() <= |bufs| && (pFirstUncommited.At? ==> pFirstUncommited.index < |bufs|)
      requires PendingOf(bufs, FirstUncommitted()) == []
      modifies this`bufs, this`pFirstUncommited, this`nBytesPending
      ensures CommittedUpTo(old(bufs), bufs, old(FirstUncommitted()), |bufs|)
      ensures pFirstUncommited.Invalid? && nBytesPending == old(nBytesPending) + |PendingOf(old(bufs), |bufs|)|
    {
      ghost var bs, first := bufs, FirstUncommitted();
      ghost var i := first;
      while pFirstUncommited.At?
        invariant CommittedUpTo(bs, bufs, first, i)
        invariant pFirstUncommited == if i < |bs| then At(i) else Invalid
        invariant nBytesPending == old(nBytesPending) + |PendingOf(bs, i)|
        decreases |bs| - i
      {
        CommitBuffer(bs, first);
        i := i + 1;
      }
    }

    method CommitBuffer(ghost bs: seq<Buf>, ghost first: nat)
      requires pFirstUncommited.At? && CommittedUpTo(bs, bufs, first, pFirstUncommited.index)
      requires pFirstUncommited.index < |bs|
      modifies this`bufs, this`pFirstUncommited, this`nBytesPending
      ensures CommittedUpTo(bs, bufs, first, old(pFirstUncommited.index) + 1)
      ensures var k := old(pFirstUncommited.index); pFirstUncommited == if k + 1 < |bs| then At(k + 1) else Invalid
      ensures nBytesPending == old(nBytesPending) + |bs[old(pFirstUncommited.index)].uncommitted|
    {
      var k := pFirstUncommited.index;
      nBytesPending := nBytesPending + |bufs[k].uncommitted|;
      bufs := bufs[k := bufs[k].Commit()];
      pFirstUncommited := if k + 1 < |bufs| then At(k + 1) else Invalid;
    }

    /** Forget the message in progress: the list is what it was when the message began. */
    method ClearUncommitedMsg()
      requires Valid() && InMessage()
      modifies this
      ensures Valid() && pFirstUncommited.Invalid?
      ensures bufs == old(before) && stream == old(stream) && pending == [] && Held() == old(Held())
    {
      ghost var bs, k := bufs, FirstUncommitted();
      SettledDense(bs, k);
      RollBackBuffers();
      SettledStream(bs, k);
      NothingPending(bufs, |bufs|);
      pending, before := [], bufs;
    }

    /** The loop of a rollback; it drops the buffers that the message had added. */
    method RollBackBuffers()
      requires Valid() && InMessage()
      modifies this`bufs, this`pFirstUncommited, this`spare
      ensures bufs == Settled(old(bufs), old(FirstUncommitted())) && pFirstUncommited.Invalid?
      ensures Held() == old(Held())
    {
      ghost var bs, k := bufs, FirstUncommitted();
      ghost var i := k;
      RollStart(bs, k);
      while pFirstUncommited.At?
        invariant k <= i <= |bs| && RolledTo(bs, k, i, bufs, pFirstUncommited) && Held() == old(Held())
        decreases |bs| - i
      {
        RollStep(bs, k, i, bufs, pFirstUncommited.index);
        RollBackBuffer();
        i := i + 1;
      }
      RollEnd(bs, k, i, bufs);
    }

    /** Rolls back one buffer, and drops it if nothing is left in it. */
    method RollBackBuffer()
      requires pFirstUncommited.At? && pFirstUncommited.index < |bufs|
      modifies this`bufs, this`pFirstUncommited, this`spare
      ensures (bufs, pFirstUncommited) == Roll(old(bufs), old(pFirstUncommited.index)) && Held() == old(Held())
    {
      var index := pFirstUncommited.index;
      var b := bufs[index].Rollback();
      if b.committed == [] {
        bufs := bufs[..index] + bufs[index + 1..];
        spare := spare + 1;
        pFirstUncommited := if index < |bufs| then At(index) else Invalid;
      } else {
        bufs := bufs[index := b];
        pFirstUncommited := if index + 1 < |bufs| then At(index + 1) else Invalid;
      }
    }

    /** The end of a message: commit it or, when a step of it failed, roll it back. */
    method EndMsg(status: Status)
      requires Valid() && InMessage()
      modifies this
      ensures Valid() && pFirstUncommited.Invalid? && Held() == old(Held())
      ensures status == Normal ==> stream == old(stream) + old(pending)
      ensures status != Normal ==> bufs == old(before) && stream == old(stream)
    {
      if status == Normal {
        CommitMsg();
      } else {
        ClearUncommitedMsg();
      }
    }

    /** A write. */
    method QueueRequest(r: Request) returns (status: Status)
      requires Valid() && pFirstUncommited.Invalid? && PayloadPresent(r)
      modifies this
      ensures Valid() && pFirstUncommited.Invalid? && Held() == old(Held())
      ensures status == Verdict(r) || (status == NoMemory && WithinLimits(r))
      ensures status == NoMemory ==> WithinLimits(r) && Tight(|FrameOf(r)|)
      ensures status == Normal ==> WithinLimits(r) && stream == old(stream) + FrameOf(r)
      ensures status != Normal ==> bufs == old(bufs) && stream == old(stream)
    {
      BeginMsg();
      status := InsertRequestWithPayLoad(r);
      assert status == Normal ==> pending == FrameOf(r);
      EndMsg(status);
    }

    /** The start of every other command. */
    method StartMsg(h: Header, v49Ok: bool) returns (status: Status)
      requires Valid() && pFirstUncommited.Invalid?
      modifies this
      ensures Valid() && InMessage() && before == old(bufs) && stream == old(stream) && Held() == old(Held())
      ensures status == (if Refused(h, v49Ok) then OutOfBounds else Normal) || status == NoMemory
      ensures status == Normal ==> pending == HeaderBytes(h)
      ensures status == NoMemory ==> Exhausted(|stream| + |HeaderBytes(h)|)
    {
      BeginMsg();
      status := InsertRequestHeader(h, v49Ok);
      assert [] + HeaderBytes(h) == HeaderBytes(h);
    }

    /** A command without a body. */
    method QueueBare(h: Header, v49Ok: bool) returns (status: Status)
      requires Valid() && pFirstUncommited.Invalid?
      modifies this
      ensures Valid() && pFirstUncommited.Invalid? && Held() == old(Held())
      ensures status == (if Refused(h, v49Ok) then OutOfBounds else Normal) || status == NoMemory
      ensures status == NoMemory ==> Tight(|HeaderBytes(h)|)
      ensures status == Normal ==> stream == old(stream) + HeaderBytes(h)
      ensures status != Normal ==> bufs == old(bufs) && stream == old(stream)
    {
      status := StartMsg(h, v49Ok);
      EndMsg(status);
    }

    /** A command with a name, filled up with zeros. */
    method QueueNamed(h: Header, name: seq<byte>, v49Ok: bool) returns (status: Status)
      requires Valid() && pFirstUncommited.Invalid?
      modifies this
      ensures Valid() && pFirstUncommited.Invalid? && Held() == old(Held())
      ensures status == (if Refused(h, v49Ok) then OutOfBounds else Normal) || status == NoMemory
      ensures status == NoMemory ==> Tight(|HeaderBytes(h) + Padded(name)|)
      ensures status == Normal ==> stream == old(stream) + (HeaderBytes(h) + Padded(name))
      ensures status != Normal ==> bufs == old(bufs) && stream == old(stream)
    {
      status := StartMsg(h, v49Ok);
      if status == Normal {
        status := PushPadded(name);
      }
      EndMsg(status);
    }

    method PushPadded(name: seq<byte>) returns (status: Status)
      requires Valid() && InMessage()
      modifies this
      ensures Valid() && InMessage() && before == old(before) && stream == old(stream) && Held() == old(Held())
      ensures status == Normal || status == NoMemory
      ensures status == Normal ==> pending == old(pending) + Padded(name)
      ensures status == NoMemory ==> Exhausted(|stream| + old(|pending|) + |Padded(name)|)
    {
      status := PushString(name);
      if status == Normal {
        Associative(old(pending), name, Zeros(Align(|name|) - |name|));
        status := PushString(Zeros(Align(|name|) - |name|));
      }
    }

    /** The command for a subscription: its fields are pushed one by one. */
    method QueueEventAdd(h: Header, mask: uint16, v49Ok: bool) returns (status: Status)
      requires Valid() && pFirstUncommited.Invalid?
      modifies this
      ensures Valid() && pFirstUncommited.Invalid? && Held() == old(Held())
      ensures status == (if Refused(h, v49Ok) then OutOfBounds else Normal) || status == NoMemory
      ensures status == NoMemory ==> Tight(|HeaderBytes(h) + EventAddBody(mask)|)
      ensures status == Normal ==> stream == old(stream) + (HeaderBytes(h) + EventAddBody(mask))
      ensures status != Normal ==> bufs == old(bufs) && stream == old(stream)
    {
      status := StartMsg(h, v49Ok);
      if status == Normal {
        status := PushEventFields(mask);
      }
      EndMsg(status);
    }

    method PushEventFields(mask: uint16) returns (status: Status)
      requires Valid() && InMessage()
      modifies this
      ensures Valid() && InMessage() && before == old(before) && stream == old(stream) && Held() == old(Held())
      ensures status == Normal || status == NoMemory
      ensures status == Normal ==> pending == old(pending) + EventAddBody(mask)
      ensures status == NoMemory ==> Exhausted(|stream| + old(|pending|) + |EventAddBody(mask)|)
    {
      status := PushScalar(Zeros(4));  // the low limit
      if status == Normal {
        status := PushScalar(Zeros(4));  // the high limit
      }
      if status == Normal {
        status := PushScalar(Zeros(4));  // the time-out
      }
      if status == Normal {
        status := PushScalar(Be16(mask));
      }
      if status == Normal {
        status := PushScalar(Be16(0));
      }
      FivePieces(old(pending), Zeros(4), Be16(mask), Be16(0));
    }

    /** Queue one message: begin, insert, then commit or, on any failure, roll back.  A failed
        message leaves no trace. */
    method QueueMessage(m: Outgoing) returns (status: Status)
      requires Valid() && pFirstUncommited.Invalid? && Present(m)
      modifies this
      ensures Valid() && pFirstUncommited.Invalid? && Held() == old(Held())
      ensures status == Judgement(m) || status == NoMemory
      ensures status == NoMemory ==> Framable(m) && Tight(|FrameFor(m)|)
      ensures status == Normal ==> Framable(m) && stream == old(stream) + FrameFor(m)
      ensures status != Normal ==>
                bufs == old(bufs) && stream == old(stream) && nBytesPending == old(nBytesPending)
    {
      match m
      case Payload(r) => status := QueueRequest(r);
      case Bare(h, v49Ok) => status := QueueBare(h, v49Ok);
      case Named(h, name, v49Ok) => status := QueueNamed(h, name, v49Ok);
      case EventAdd(h, mask, v49Ok) => status := QueueEventAdd(h, mask, v49Ok);
    }

    // ------------------------------------------------------------ sending

    /** Take the first buffer off the list.  Between messages it is never empty, so nothing
        is returned only when nothing is pending. */
    method PopNextComBufToSend() returns (pBuf: Option<Buf>)
      requires Valid() && pFirstUncommited.Invalid?
      modifies this
      ensures Valid() && pFirstUncommited.Invalid?
      ensures pBuf.None? <==> old(stream) == []
      ensures pBuf.None? ==> bufs == old(bufs) && stream == old(stream)
      ensures Held() == old(Held()) - if pBuf.Some? then 1 else 0
      ensures pBuf.Some? ==> bufs == old(bufs)[1..] && old(stream) == pBuf.value.committed + stream
      ensures pBuf.Some? ==> pBuf.value.Valid() && pBuf.value.committed != []
    {
      pBuf := None;
      if bufs != [] {
        StreamCons(bufs, |bufs|);
        DenseRest(bufs);
        var first := bufs[0];
        bufs := bufs[1..];
        var nBytesThisBuf := |first.committed|;
        if nBytesThisBuf > 0 {
          assert nBytesPending >= nBytesThisBuf;
          nBytesPending := nBytesPending - nBytesThisBuf;
          pBuf := Some(first);
        } else {
          assert false;  // the source would put the buffer back
        }
        NothingPending(bufs, |bufs|);
        stream, pending, before := StreamOf(bufs, |bufs|), [], bufs;
      } else {
        assert nBytesPending == 0;
      }
    }

    /** A buffer that was taken off the list is given back. */
    method Release()
      requires Valid()
      modifies this`spare
      ensures Valid() && Held() == old(Held()) + 1
    {
      spare := spare + 1;
    }

    /** Drop everything; the count of pending bytes comes out at zero. */
    method Clear()
      requires Valid()
      modifies this
      ensures Valid() && bufs == [] && stream == [] && pFirstUncommited.Invalid? && Held() == old(Held())
    {
      while bufs != []
        invariant nBytesPending == |StreamOf(bufs, |bufs|)| && Held() == old(Held())
        decreases |bufs|
      {
        StreamCons(bufs, |bufs|);
        nBytesPending := nBytesPending - |bufs[0].committed|;
        bufs := bufs[1..];
        spare := spare + 1;
      }
      pFirstUncommited := Invalid;
      stream, pending, before := [], [], [];
      Unseal(Dense, bufs);
      assert nBytesPending == 0;
    }
  }

  /** A vector push stays inside the room it is given, and a new buffer takes at least one
      element. */
  lemma FitBytes(es: seq<Elem>, size: nat, room: nat)
    requires 1 <= size && ElemsOfSize(es, size)
    ensures var n := Fit(|es|, size, room); |ElemsBytes(es[..n])| <= room
    ensures size <= room && es != [] ==>
              0 < Fit(|es|, size, room) && ElemsBytes(es[..Fit(|es|, size, room)]) != []
    ensures var n := Fit(|es|, size, room); n < |es| ==> room - |ElemsBytes(es[..n])| < size
  {
    FitRoom(|es|, size, room);
    FirstBytes(es, size, Fit(|es|, size, room));
  }

  lemma FirstBytes(es: seq<Elem>, size: nat, n: nat)
    requires ElemsOfSize(es, size) && n <= |es|
    ensures |ElemsBytes(es[..n])| == n * size
  {
    ElemsBytesLength(es[..n], size);
  }

  lemma TailAppend(pre: seq<byte>, es: seq<Elem>, n: nat, size: nat)
    requires n <= |es| && ElemsOfSize(es, size)
    ensures pre + ElemsBytes(es) == pre + ElemsBytes(es[..n]) + ElemsBytes(es[n..])
    ensures ElemsOfSize(es[n..], size)
  {
    assert es == es[..n] + es[n..];
    ElemsBytesAppend(es[..n], es[n..]);
  }

  predicate EndsWith(bs: seq<byte>, tail: seq<byte>) {
    |tail| <= |bs| && bs[|bs| - |tail|..] == tail
  }

  /** Header, data and padding, pushed one after the other, are the frame. */
  lemma FrameInPieces(pre: seq<byte>, r: Request)
    requires WithinLimits(r)
    ensures pre + HeaderBytes(HeaderOf(r)) + DataOf(r) + Zeros(Align(PayloadSize(r)) - PayloadSize(r)) ==
            pre + FrameOf(r)
  {
    Associative(pre, HeaderBytes(HeaderOf(r)), BodyOf(r));
    Associative(pre + HeaderBytes(HeaderOf(r)), DataOf(r), Zeros(Align(PayloadSize(r)) - PayloadSize(r)));
  }

  lemma FivePieces(pre: seq<byte>, zeros: seq<byte>, a: seq<byte>, b: seq<byte>)
    ensures pre + zeros + zeros + zeros + a + b == pre + (zeros + zeros + zeros + a + b)
  {
  }

  lemma {:induction false} NothingPending(bs: seq<Buf>, n: nat)
    requires n <= |bs| && Shape(bs, |bs|)
    ensures PendingOf(bs, n) == []
  {
    if n > 0 {
      NothingPending(bs, n - 1);
    }
  }

  lemma LastSettled(bs: seq<Buf>)
    requires bs != [] && Shape(bs, |bs|)
    ensures Shape(bs, |bs| - 1) && Settled(bs, |bs| - 1) == bs
  {
    var n := |bs| - 1;
    assert bs[n].Rollback() == bs[n];
    assert bs[..n] + [bs[n]] == bs;
  }

  /** The first `i` buffers of `cs` are those of `bs`, committed from `k` on. */
  predicate CommittedUpTo(bs: seq<Buf>, cs: seq<Buf>, k: nat, i: nat) {
    && |bs| == |cs| && k <= i <= |bs|
    && (forall j :: 0 <= j < |bs| ==> cs[j] == if k <= j < i then bs[j].Commit() else bs[j])
  }

  lemma CommitStart(bs: seq<Buf>, k: nat)
    requires Shape(bs, k) && k <= |bs|
    ensures PendingOf(bs, k) == []
  {
    NothingPending(bs[..k], k);
    SamePrefix(bs, bs[..k], k);
  }

  lemma {:induction false} CommittedStream(bs: seq<Buf>, cs: seq<Buf>, k: nat, i: nat)
    requires Shape(bs, k) && k <= i <= |bs| && |bs| == |cs|
    requires forall j :: 0 <= j < i ==> cs[j] == if k <= j then bs[j].Commit() else bs[j]
    ensures StreamOf(cs, i) == StreamOf(bs, i) + PendingOf(bs, i)
  {
    if i == k {
      SamePrefix(bs, cs, i);
      NothingPending(bs[..i], i);
      SamePrefix(bs, bs[..i], i);
    } else {
      CommittedStream(bs, cs, k, i - 1);
      var s, p, b := StreamOf(bs, i - 1), PendingOf(bs, i - 1), bs[i - 1];
      if i - 1 == k {
        NothingPending(bs[..k], k);
        SamePrefix(bs, bs[..k], k);
      }
      assert s + p + (b.committed + b.uncommitted) == (s + b.committed) + (p + b.uncommitted);
    }
  }

  lemma CommittedShape(bs: seq<Buf>, cs: seq<Buf>, k: nat)
    requires Shape(bs, k) && CommittedUpTo(bs, cs, k, |bs|)
    ensures Shape(cs, |cs|)
  {
  }

  /** One step of a rollback: the list and the next buffer to look at. */
  function Roll(cs: seq<Buf>, m: nat): (seq<Buf>, Iter)
    requires m < |cs|
  {
    if cs[m].committed == [] then (cs[..m] + cs[m + 1..], if m + 1 < |cs| then At(m) else Invalid)
    else (cs[m := cs[m].Rollback()], if m + 1 < |cs| then At(m + 1) else Invalid)
  }

  /** What is left of the buffers before the i-th. */
  function LeftOf(bs: seq<Buf>, k: nat, i: nat): seq<Buf>
    requires k <= i <= |bs|
  {
    if i == k then bs[..k] else Settled(bs, k)
  }

  ghost predicate RolledTo(bs: seq<Buf>, k: nat, i: nat, cs: seq<Buf>, it: Iter)
    requires k <= i <= |bs|
  {
    cs == LeftOf(bs, k, i) + bs[i..] && it == if i < |bs| then At(|LeftOf(bs, k, i)|) else Invalid
  }

  lemma RollStart(bs: seq<Buf>, k: nat)
    requires k <= |bs|
    ensures RolledTo(bs, k, k, bs, if k < |bs| then At(k) else Invalid)
  {
  }

  lemma RollEnd(bs: seq<Buf>, k: nat, i: nat, cs: seq<Buf>)
    requires k <= i <= |bs| && RolledTo(bs, k, i, cs, Invalid)
    ensures cs == Settled(bs, k)
  {
  }

  lemma RollStep(bs: seq<Buf>, k: nat, i: nat, cs: seq<Buf>, m: nat)
    requires Shape(bs, k) && k <= i < |bs| && RolledTo(bs, k, i, cs, At(m))
    ensures m < |cs| && RolledTo(bs, k, i + 1, Roll(cs, m).0, Roll(cs, m).1)
  {
    var left := LeftOf(bs, k, i);
    assert cs[m] == bs[i] && cs[..m] == left && cs[m + 1..] == bs[i + 1..];
    assert cs[m := bs[i].Rollback()] == (left + [bs[i].Rollback()]) + bs[i + 1..];
    if i > k {
      assert bs[i].committed == [];
    }
  }

  /** Rolling back keeps the committed bytes and leaves no empty buffer. */
  lemma SettledStream(bs: seq<Buf>, k: nat)
    requires Shape(bs, k) && k <= |bs|
    ensures var cs := Settled(bs, k);
            Shape(cs, |cs|) && StreamOf(cs, |cs|) == StreamOf(bs, |bs|)
  {
    var cs := Settled(bs, k);
    SamePrefix(bs, cs, k);
    if k < |bs| {
      NothingCommitted(bs, k + 1, |bs|);
    }
  }

  lemma {:induction false} NothingCommitted(bs: seq<Buf>, from: nat, n: nat)
    requires from <= n <= |bs| && forall i :: from <= i < n ==> bs[i].committed == []
    ensures StreamOf(bs, n) == StreamOf(bs, from)
  {
    if from < n {
      NothingCommitted(bs, from, n - 1);
    }
  }
}
