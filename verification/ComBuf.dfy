/** One fixed-size communication buffer: a byte array with a read, a commit and a write
    index.  `Buf` is the value such a buffer holds; the class works in place on its array
    and is proved against it. */
module ComBufs {
  import opened Arithmetic
  import opened Wire
  import opened Requests

  /** Large enough for the longest field, a string of 40 bytes. */
  type BufferSize = n: nat | 40 <= n witness 0x4000

  const COM_BUF_SIZE: BufferSize

  /** The content of a buffer: how many of its bytes were read already, the bytes that may
      be sent or popped, and the bytes that are written and not yet committed. */
  datatype Buf = Buf(read: nat, committed: seq<byte>, uncommitted: seq<byte>) {

    predicate Valid() {
      read + |committed| + |uncommitted| <= COM_BUF_SIZE
    }

    function Unoccupied(): int {
      COM_BUF_SIZE - read - |committed| - |uncommitted|
    }

    function Push(bs: seq<byte>): Buf {
      Buf(read, committed, uncommitted + bs)
    }

    function Commit(): Buf {
      Buf(read, committed + uncommitted, [])
    }

    function Rollback(): Buf {
      Buf(read, committed, [])
    }

    function Drop(n: nat): Buf
      requires n <= |committed|
    {
      Buf(read + n, committed[n..], uncommitted)
    }
  }

  const EMPTY_BUF: Buf := Buf(0, [], [])

  function Min(a: nat, b: nat): (m: nat) {
    if a > b then b else a
  }

  /** The socket has taken something each of the first times it was offered bytes. */
  predicate AllTaken(takes: nat -> nat, n: nat) {
    n == 0 || (takes(n - 1) > 0 && AllTaken(takes, n - 1))
  }

  lemma {:induction false} AllTakenMeans(takes: nat -> nat, n: nat)
    ensures AllTaken(takes, n) <==> forall k: nat :: k < n ==> takes(k) > 0
  {
    if n > 0 {
      AllTakenMeans(takes, n - 1);
    }
  }

  /** The socket below a send queue.  It accepts any number of the offered bytes; accepting
      none means that the circuit is gone. */
  class WireSendAdapter {
    const takes: nat -> nat       // how many bytes it can accept, each time it is offered some
    var sends: nat                // how often it was
    var sent: seq<byte>

    constructor (takes: nat -> nat)
      ensures this.takes == takes && sends == 0 && sent == []
    {
      this.takes, sends, sent := takes, 0, [];
    }

    method SendBytes(bytes: seq<byte>) returns (n: nat)
      modifies this
      ensures sends == old(sends) + 1 && n == Min(takes(old(sends)), |bytes|) && sent == old(sent) + bytes[..n]
    {
      n := Min(takes(sends), |bytes|);
      sends, sent := sends + 1, sent + bytes[..n];
    }
  }

  class ComBuf {
    const buf: array<byte>
    var commitIndex: nat
    var nextWriteIndex: nat
    var nextReadIndex: nat

    ghost predicate Valid()
      reads this
    {
      && buf.Length == COM_BUF_SIZE
      && nextReadIndex <= commitIndex <= nextWriteIndex <= COM_BUF_SIZE
    }

    ghost function State(): (b: Buf)
      requires Valid()
      reads this, buf
      ensures b.Valid() && b.Unoccupied() == COM_BUF_SIZE - nextWriteIndex
    {
      Buf(nextReadIndex, buf[nextReadIndex..commitIndex], buf[commitIndex..nextWriteIndex])
    }

    constructor ()
      ensures Valid() && fresh(buf) && State() == EMPTY_BUF
    {
      buf := new byte[COM_BUF_SIZE](_ => 0);
      commitIndex, nextWriteIndex, nextReadIndex := 0, 0, 0;
    }

    /** A buffer object that holds a given value. */
    constructor Holding(b: Buf)
      requires b.Valid()
      ensures Valid() && fresh(buf) && State() == b
    {
      var data := b.committed + b.uncommitted;
      buf := new byte[COM_BUF_SIZE](i requires i >= 0 =>
        if b.read <= i < b.read + |data| then data[i - b.read] else 0);
      nextReadIndex := b.read;
      commitIndex := b.read + |b.committed|;
      nextWriteIndex := b.read + |data|;
      new;
      assert buf[nextReadIndex..commitIndex] == b.committed;
      assert buf[commitIndex..nextWriteIndex] == b.uncommitted;
    }

    /** Write `bs` at `index`, as a memory copy or byte by byte. */
    method Store(index: nat, bs: seq<byte>)
      requires index + |bs| <= buf.Length
      modifies buf
      ensures buf[..index + |bs|] == old(buf[..index]) + bs
    {
      for i := 0 to |bs|
        invariant buf[..index + i] == old(buf[..index]) + bs[..i]
      {
        buf[index + i] := bs[i];
        assert bs[..i + 1] == bs[..i] + [bs[i]];
        assert buf[..index + i + 1] == buf[..index + i] + [bs[i]];
      }
    }

    /** The scalar pushes: all the bytes of a value, or none. */
    method PushScalar(bs: seq<byte>) returns (ok: bool)
      requires Valid()
      modifies this`nextWriteIndex, buf
      ensures Valid() && ok == (|bs| <= old(State()).Unoccupied())
      ensures State() == if ok then old(State()).Push(bs) else old(State())
    {
      ok := nextWriteIndex + |bs| <= COM_BUF_SIZE;
      if ok {
        CopyInAll(bs);
      }
    }

    method CopyInAll(bs: seq<byte>)
      requires Valid() && |bs| <= State().Unoccupied()
      modifies this`nextWriteIndex, buf
      ensures Valid() && State() == old(State()).Push(bs)
    {
      ghost var pre := buf[..nextWriteIndex];
      Store(nextWriteIndex, bs);
      Extended(buf[..], pre, bs, nextReadIndex, commitIndex);
      nextWriteIndex := nextWriteIndex + |bs|;
      assert State().committed == old(State()).committed;
      assert State().uncommitted == old(State()).uncommitted + bs;
    }

    /** The vector pushes: as many whole elements as fit, written one after the other.  The
        source computes size times count in 32 bits; a wrapped product would overrun the
        buffer, so callers keep it in range. */
    method PushVector(es: seq<Elem>, size: nat) returns (n: nat)
      requires Valid() && 1 <= size && ElemsOfSize(es, size)
      requires |es| * size < 0x1_0000_0000
      modifies this`nextWriteIndex, buf
      ensures Valid() && n == Fit(|es|, size, old(State()).Unoccupied())
      ensures State() == old(State()).Push(ElemsBytes(es[..n]))
    {
      var available := COM_BUF_SIZE - nextWriteIndex;
      n := |es|;
      if |es| * size > available {
        QuotientBelow(available, size, |es|);
        n := available / size;
      }
      FitFits(|es|, size, available);
      ElemsBytesLength(es[..n], size);
      StoreVector(es[..n], size);
    }

    method StoreVector(es: seq<Elem>, size: nat)
      requires Valid() && ElemsOfSize(es, size) && |ElemsBytes(es)| <= State().Unoccupied()
      modifies this`nextWriteIndex, buf
      ensures Valid() && State() == old(State()).Push(ElemsBytes(es))
    {
      ghost var pre := buf[..nextWriteIndex];
      var index := StoreElements(nextWriteIndex, es, size);
      Extended(buf[..], pre, ElemsBytes(es), nextReadIndex, commitIndex);
      nextWriteIndex := index;
      assert State().committed == old(State()).committed;
      assert State().uncommitted == old(State()).uncommitted + ElemsBytes(es);
    }

    /** The copy loop of the vector pushes. */
    method StoreElements(start: nat, es: seq<Elem>, size: nat) returns (index: nat)
      requires ElemsOfSize(es, size) && start + |ElemsBytes(es)| <= buf.Length
      modifies buf
      ensures index == start + |ElemsBytes(es)| && buf[..index] == old(buf[..start]) + ElemsBytes(es)
    {
      index := start;
      for i := 0 to |es|
        invariant index == start + |ElemsBytes(es[..i])| <= buf.Length
        invariant buf[..index] == old(buf[..start]) + ElemsBytes(es[..i])
      {
        ElemsBytesSnoc(old(buf[..start]), es, i);
        Store(index, ElemBytes(es[i]));
        index := index + size;
      }
      assert es[..|es|] == es;
    }

    /** Copy in as many of the bytes as fit. */
    method CopyInBytes(bs: seq<byte>) returns (n: nat)
      requires Valid()
      modifies this`nextWriteIndex, buf
      ensures Valid() && n == Min(|bs|, old(State()).Unoccupied())
      ensures State() == old(State()).Push(bs[..n])
    {
      n := |bs|;
      if n > COM_BUF_SIZE - nextWriteIndex {
        n := COM_BUF_SIZE - nextWriteIndex;
      }
      CopyInAll(bs[..n]);
    }

    method CommitIncoming()
      requires Valid()
      modifies this`commitIndex
      ensures Valid() && State() == old(State()).Commit()
    {
      commitIndex := nextWriteIndex;
    }

    method ClearUncommittedIncoming()
      requires Valid()
      modifies this`nextWriteIndex
      ensures Valid() && State() == old(State()).Rollback()
    {
      nextWriteIndex := commitIndex;
    }

    /** Copy out up to `nBytes` readable bytes. */
    method CopyOutBytes(nBytes: nat) returns (bytes: seq<byte>)
      requires Valid()
      modifies this`nextReadIndex
      ensures bytes == old(State()).committed[..Min(nBytes, |old(State()).committed|)]
      ensures Valid() && State() == old(State()).Drop(|bytes|)
    {
      var n := nBytes;
      if n > commitIndex - nextReadIndex {
        n := commitIndex - nextReadIndex;
      }
      bytes := buf[nextReadIndex..nextReadIndex + n];
      assert bytes == buf[nextReadIndex..commitIndex][..n];
      nextReadIndex := nextReadIndex + n;
    }

    /** The scalar pops: `size` bytes, or nothing when they are not all here. */
    method Pop(size: nat) returns (success: bool, nowEmpty: bool, bytes: seq<byte>)
      requires Valid()
      modifies this`nextReadIndex
      ensures Valid() && success == (size <= |old(State()).committed|)
      ensures success ==> bytes == old(State()).committed[..size] && State() == old(State()).Drop(size)
      ensures !success ==> State() == old(State())
      ensures nowEmpty == (success && State().committed == [])
    {
      var popIndex := nextReadIndex + size;
      success, nowEmpty, bytes := true, false, [];
      if popIndex >= commitIndex {
        if popIndex == commitIndex {
          nowEmpty := true;
        } else {
          success := false;
          return;
        }
      }
      bytes := buf[nextReadIndex..popIndex];
      assert bytes == buf[nextReadIndex..commitIndex][..size];
      nextReadIndex := popIndex;
    }

    /** Send until everything is gone or the circuit refuses.  However the socket splits the
        bytes, what was sent followed by what is left is what was there. */
    method FlushToWire(wire: WireSendAdapter) returns (ok: bool)
      requires Valid()
      modifies this`nextReadIndex, wire
      ensures Valid() && old(wire.sent) <= wire.sent
      ensures wire.sent + State().committed == old(wire.sent) + old(State()).committed
      ensures ok <==> State().committed == []
      ensures old(AllTaken(wire.takes, wire.sends)) ==> (ok <==> AllTaken(wire.takes, wire.sends))
    {
      var index := nextReadIndex;
      var finalIndex := commitIndex;
      ghost var all := wire.sent + buf[index..finalIndex];
      while index < finalIndex
        invariant Valid() && nextReadIndex <= index <= finalIndex == commitIndex
        invariant old(wire.sent) <= wire.sent && wire.sent + buf[index..finalIndex] == all
        invariant old(AllTaken(wire.takes, wire.sends)) ==> AllTaken(wire.takes, wire.sends)
      {
        var n := SendFrom(index, finalIndex, wire);
        if n == 0 {
          nextReadIndex := index;
          return false;
        }
        index := index + n;
      }
      nextReadIndex := index;
      ok := true;
    }

    /** Offers the wire the rest of a buffer. */
    method SendFrom(index: nat, finalIndex: nat, wire: WireSendAdapter) returns (n: nat)
      requires index < finalIndex <= buf.Length
      modifies wire
      ensures n <= finalIndex - index && old(wire.sent) <= wire.sent
      ensures wire.sent + buf[index + n..finalIndex] == old(wire.sent) + buf[index..finalIndex]
      ensures old(AllTaken(wire.takes, wire.sends)) ==> (n > 0 <==> AllTaken(wire.takes, wire.sends))
    {
      ghost var sent, left := wire.sent, buf[index..finalIndex];
      n := wire.SendBytes(buf[index..finalIndex]);
      assert buf[index + n..finalIndex] == left[n..];
      SentSplit(sent, left, n);
    }
  }

  /** What a write behind the write index does to the two parts of a buffer. */
  lemma Extended(after: seq<byte>, pre: seq<byte>, bs: seq<byte>, read: nat, commit: nat)
    requires read <= commit <= |pre| && |pre| + |bs| <= |after|
    requires after[..|pre| + |bs|] == pre + bs
    ensures after[read..commit] == pre[read..commit]
    ensures after[commit..|pre| + |bs|] == pre[commit..] + bs
  {
    var all := after[..|pre| + |bs|];
    assert after[read..commit] == all[read..commit];
    assert after[commit..|pre| + |bs|] == all[commit..];
  }

  lemma SentSplit(sent: seq<byte>, left: seq<byte>, n: nat)
    requires n <= |left|
    ensures sent + left[..n] + left[n..] == sent + left
  {
    assert left[..n] + left[n..] == left;
  }

  lemma {:induction false} ElemsBytesAppend(a: seq<Elem>, b: seq<Elem>)
    ensures ElemsBytes(a + b) == ElemsBytes(a) + ElemsBytes(b)
  {
    if a == [] {
      assert a + b == b;
    } else {
      assert (a + b)[1..] == a[1..] + b;
      ElemsBytesAppend(a[1..], b);
    }
  }

  lemma ElemsBytesSnoc(pre: seq<byte>, es: seq<Elem>, i: nat)
    requires i < |es|
    ensures pre + ElemsBytes(es[..i + 1]) == pre + ElemsBytes(es[..i]) + ElemBytes(es[i])
    ensures |ElemsBytes(es[..i + 1])| == |ElemsBytes(es[..i])| + |ElemBytes(es[i])| <= |ElemsBytes(es)|
  {
    var front, e, back := es[..i], es[i], es[i + 1..];
    assert es[..i + 1] == front + [e] && es == (front + [e]) + back;
    ElemsBytesAppend(front, [e]);
    SingleElem(e);
    ElemsBytesAppend(front + [e], back);
  }

  lemma SingleElem(e: Elem)
    ensures ElemsBytes([e]) == ElemBytes(e)
  {
    assert ElemsBytes([e]) == ElemBytes(e) + [];
  }

  // ---------------------------------------------------------------- lists of buffers

  /** The committed bytes of the first `n` buffers. */
  function StreamOf(bs: seq<Buf>, n: nat): seq<byte>
    requires n <= |bs|
  {
    if n == 0 then [] else StreamOf(bs, n - 1) + bs[n - 1].committed
  }

  lemma {:induction false} StreamCons(bs: seq<Buf>, n: nat)
    requires 0 < n <= |bs|
    ensures StreamOf(bs, n) == bs[0].committed + StreamOf(bs[1..], n - 1)
  {
    if n > 1 {
      StreamCons(bs, n - 1);
    }
  }

  lemma {:induction false} SameStream(bs: seq<Buf>, cs: seq<Buf>, n: nat)
    requires n <= |bs| && n <= |cs|
    requires forall i :: 0 <= i < n ==> bs[i].committed == cs[i].committed
    ensures StreamOf(bs, n) == StreamOf(cs, n)
  {
    if n > 0 {
      SameStream(bs, cs, n - 1);
    }
  }
}
