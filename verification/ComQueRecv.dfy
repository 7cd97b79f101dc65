/** The receive queue of a circuit.  Whatever the boundaries between its buffers, it behaves
    as one sequence of bytes. */
module ComQueRecvs {
  import opened Options
  import opened Wire
  import opened ComBufs

  predicate Full(b: Buf) {
    b.Valid() && b.committed != [] && b.uncommitted == []
  }

  lemma StreamFront(b: Buf, rest: seq<Buf>)
    ensures StreamOf([b] + rest, |rest| + 1) == b.committed + StreamOf(rest, |rest|)
  {
    StreamCons([b] + rest, |rest| + 1);
    assert ([b] + rest)[1..] == rest;
  }

  lemma Regroup(a: seq<byte>, b: seq<byte>, c: seq<byte>)
    ensures (a + b) + c == a + (b + c) && (b == [] ==> a + (b + c) == a + c)
  {
  }

  /** The list with bytes taken from its first buffer. */
  function Taken(bs: seq<Buf>, n: nat): seq<Buf>
    requires bs != [] && n <= |bs[0].committed|
  {
    var b := bs[0].Drop(n);
    if b.committed == [] then bs[1..] else [b] + bs[1..]
  }

  lemma Consumed(bs: seq<Buf>, n: nat)
    requires bs != [] && n <= |bs[0].committed|
    ensures StreamOf(bs, |bs|) == bs[0].committed[..n] + StreamOf(Taken(bs, n), |Taken(bs, n)|)
  {
    var b, rest := bs[0].Drop(n), bs[1..];
    var stream, front := StreamOf(rest, |rest|), bs[0].committed[..n];
    assert bs == [bs[0]] + rest;
    StreamFront(bs[0], rest);
    assert bs[0].committed == front + b.committed;
    Regroup(front, b.committed, stream);
    if b.committed != [] {
      StreamFront(b, rest);
    }
  }

  class ComQueRecv {
    var bufs: seq<Buf>
    var nBytesPending: nat
    ghost var content: seq<byte>  // the bytes received and not yet consumed

    /** No buffer is empty, and together they hold the content. */
    ghost predicate Holds()
      reads this
    {
      && (forall i :: 0 <= i < |bufs| ==> Full(bufs[i]))
      && content == StreamOf(bufs, |bufs|)
    }

    ghost predicate Valid()
      reads this
    {
      Holds() && nBytesPending == |content|
    }

    constructor ()
      ensures Valid() && content == []
    {
      bufs, nBytesPending, content := [], 0, [];
    }

    function OccupiedBytes(): nat
      reads this
    {
      nBytesPending
    }

    method Clear()
      modifies this
      ensures Valid() && content == []
    {
      bufs, nBytesPending, content := [], 0, [];
    }

    /** Take `n` bytes from the first buffer, and the buffer off the list once it is empty. */
    method ConsumeFirst(n: nat) returns (bytes: seq<byte>)
      requires Holds() && bufs != [] && n <= |bufs[0].committed|
      modifies this`bufs, this`content
      ensures bytes == old(bufs[0].committed[..n]) && old(content) == bytes + content
      ensures Holds() && |bufs| <= |old(bufs)|
      ensures n == |old(bufs[0].committed)| ==> |bufs| < |old(bufs)|
    {
      Consumed(bufs, n);
      var first := bufs[0];
      bytes := first.committed[..n];
      var b := first.Drop(n);
      bufs := if b.committed == [] then bufs[1..] else [b] + bufs[1..];
      content := StreamOf(bufs, |bufs|);
    }

    /** Copy out up to `nBytes` bytes. */
    method CopyOutBytes(nBytes: nat) returns (bytes: seq<byte>)
      requires Valid()
      modifies this
      ensures Valid() && |bytes| == Min(nBytes, |old(content)|) && old(content) == bytes + content
    {
      bytes := [];
      var more := true;
      while more
        invariant Holds() && nBytesPending == old(nBytesPending)
        invariant |bytes| <= nBytes && old(content) == bytes + content
        invariant !more ==> |bytes| == nBytes
        decreases more, |bufs|, nBytes - |bytes|
      {
        if bufs == [] {
          nBytesPending := nBytesPending - |bytes|;
          return;
        }
        var b := ConsumeFirst(Min(nBytes - |bytes|, |bufs[0].committed|));
        bytes := bytes + b;
        more := |bytes| < nBytes;
      }
      nBytesPending := nBytesPending - |bytes|;
    }

    /** Drop up to `nBytes` bytes. */
    method RemoveBytes(nBytes: nat) returns (totalBytes: nat)
      requires Valid()
      modifies this
      ensures Valid() && totalBytes == Min(nBytes, |old(content)|) && content == old(content)[totalBytes..]
    {
      totalBytes := 0;
      while totalBytes < nBytes
        invariant Holds() && nBytesPending == old(nBytesPending)
        invariant totalBytes <= nBytes && totalBytes <= |old(content)| && content == old(content)[totalBytes..]
      {
        if bufs == [] {
          nBytesPending := nBytesPending - totalBytes;
          return;
        }
        var b := ConsumeFirst(Min(nBytes - totalBytes, |bufs[0].committed|));
        totalBytes := totalBytes + |b|;
      }
      nBytesPending := nBytesPending - totalBytes;
    }

    /** Append a received buffer: what fits is merged into the last buffer of the list. */
    method PushLastComBufReceived(bufIn: Buf)
      requires Valid() && bufIn.Valid()
      modifies this
      ensures Valid() && content == old(content) + (bufIn.committed + bufIn.uncommitted)
    {
      var b := bufIn.Commit();
      if bufs != [] {
        var last := bufs[|bufs| - 1];
        if last.Unoccupied() > 0 {
          var n := Min(|b.committed|, last.Unoccupied());
          SplitAssociative(content, b.committed, n);
          GrowLast(b.committed[..n]);
          b := b.Drop(n);
        }
      }
      if b.committed != [] {
        nBytesPending := nBytesPending + |b.committed|;
        SameStream(bufs, bufs + [b], |bufs|);
        bufs, content := bufs + [b], content + b.committed;
      }
    }

    method GrowLast(bs: seq<byte>)
      requires Valid() && bufs != [] && |bs| <= bufs[|bufs| - 1].Unoccupied()
      modifies this
      ensures Valid() && content == old(content) + bs
    {
      var n := |bufs| - 1;
      nBytesPending := nBytesPending + |bs|;
      ghost var before := bufs;
      bufs := bufs[n := bufs[n].Push(bs).Commit()];
      SameStream(before, bufs, n);
      content := content + bs;
      assert StreamOf(before, n) + (before[n].committed + bs) == StreamOf(before, n) + before[n].committed + bs;
    }

    // ------------------------------------------------------------ pops, all or nothing

    /** The one-buffer part of a pop: no value when the first buffer has not all its bytes. */
    method PopFirst(size: nat) returns (bytes: Option<seq<byte>>)
      requires Valid() && bufs != [] && 0 < size
      modifies this
      ensures Valid()
      ensures bytes.Some? ==> |bytes.value| == size && old(content) == bytes.value + content
      ensures bytes.None? ==> bufs == old(bufs) && content == old(content) && |bufs[0].committed| < size
    {
      if |bufs[0].committed| < size {
        return None;
      }
      var b := ConsumeFirst(size);
      nBytesPending := nBytesPending - size;
      bytes := Some(b);
    }

    method PopUInt8() returns (r: Option<byte>)
      requires Valid()
      modifies this
      ensures Valid() && (r.None? <==> old(content) == [])
      ensures r.None? ==> content == old(content)
      ensures r.Some? ==> old(content) == [r.value] + content
    {
      r := None;
      if bufs != [] {
        var bytes := PopFirst(1);
        r := Some(bytes.value[0]);
      }
    }

    method PopUInt16() returns (r: Option<uint16>)
      requires Valid()
      modifies this
      ensures Valid() && (r.None? <==> |old(content)| < 2)
      ensures r.None? ==> content == old(content)
      ensures r.Some? ==> r.value == U16At(old(content), 0) && content == old(content)[2..]
    {
      if bufs == [] {
        return None;
      }
      var bytes := PopFirst(2);
      if bytes.Some? {
        return Some(U16At(bytes.value, 0));
      }
      r := MultiBufferPopUInt16();
    }

    method MultiBufferPopUInt16() returns (r: Option<uint16>)
      requires Valid()
      modifies this
      ensures Valid() && (r.None? <==> |old(content)| < 2)
      ensures r.None? ==> content == old(content)
      ensures r.Some? ==> r.value == U16At(old(content), 0) && content == old(content)[2..]
    {
      r := None;
      if OccupiedBytes() >= 2 {
        var byte1 := PopUInt8();
        var byte2 := PopUInt8();
        var hi: int, lo: int := byte1.value, byte2.value;
        r := Some(hi * 0x100 + lo);
      }
    }

    method PopUInt32() returns (r: Option<uint32>)
      requires Valid()
      modifies this
      ensures Valid() && (r.None? <==> |old(content)| < 4)
      ensures r.None? ==> content == old(content)
      ensures r.Some? ==> r.value == U32At(old(content), 0) && content == old(content)[4..]
    {
      if bufs == [] {
        return None;
      }
      var bytes := PopFirst(4);
      if bytes.Some? {
        return Some(U32At(bytes.value, 0));
      }
      r := MultiBufferPopUInt32();
    }

    method MultiBufferPopUInt32() returns (r: Option<uint32>)
      requires Valid()
      modifies this
      ensures Valid() && (r.None? <==> |old(content)| < 4)
      ensures r.None? ==> content == old(content)
      ensures r.Some? ==> r.value == U32At(old(content), 0) && content == old(content)[4..]
    {
      r := None;
      if OccupiedBytes() >= 4 {
        var byte1 := PopUInt8();
        var byte2 := PopUInt8();
        var byte3 := PopUInt8();
        var byte4 := PopUInt8();
        var b1: int, b2: int, b3: int, b4: int := byte1.value, byte2.value, byte3.value, byte4.value;
        r := Some(b1 * 0x100_0000 + b2 * 0x1_0000 + b3 * 0x100 + b4);
      }
    }

    /** Pop a sixteen byte header, from one buffer when it is all there. */
    method PopOldMsgHeader() returns (r: Option<Header>)
      requires Valid()
      modifies this
      ensures Valid() && (r.None? <==> |old(content)| < OLD_HEADER_SIZE)
      ensures r.None? ==> content == old(content)
      ensures r.Some? ==> r.value == OldHeaderAt(old(content)) && content == old(content)[OLD_HEADER_SIZE..]
    {
      if bufs == [] {
        return None;
      }
      var bytes := PopFirst(OLD_HEADER_SIZE);
      if bytes.Some? {
        return Some(OldHeaderAt(bytes.value));
      }
      r := MultiBufferPopHeader();
    }

    /** The four short fields at the front of a header. */
    method MultiBufferPopWords() returns (cmmd: Option<uint16>, postsize: Option<uint16>, dataType: Option<uint16>,
        count: Option<uint16>)
      requires Valid() && 8 <= |content|
      modifies this
      ensures Valid() && content == old(content)[8..]
      ensures cmmd == Some(U16At(old(content), 0)) && postsize == Some(U16At(old(content), 2))
      ensures dataType == Some(U16At(old(content), 4)) && count == Some(U16At(old(content), 6))
    {
      ghost var c := content;
      cmmd := PopUInt16();
      postsize := PopUInt16();
      assert content == c[4..];
      dataType := PopUInt16();
      assert content == c[6..];
      count := PopUInt16();
      assert content == c[8..];
    }

    method MultiBufferPopHeader() returns (r: Option<Header>)
      requires Valid()
      modifies this
      ensures Valid() && (r.None? <==> |old(content)| < OLD_HEADER_SIZE)
      ensures r.None? ==> content == old(content)
      ensures r.Some? ==> r.value == OldHeaderAt(old(content)) && content == old(content)[OLD_HEADER_SIZE..]
    {
      r := None;
      if OccupiedBytes() >= OLD_HEADER_SIZE {
        var cmmd, postsize, dataType, count := MultiBufferPopWords();
        var cid := PopUInt32();
        var available := PopUInt32();
        assert content == old(content)[8..][8..] == old(content)[16..];
        r := Some(Header(cmmd.value, postsize.value, dataType.value, count.value, cid.value, available.value));
      }
    }
  }

  lemma SplitAssociative(pre: seq<byte>, bs: seq<byte>, n: nat)
    requires n <= |bs|
    ensures (pre + bs[..n]) + bs[n..] == pre + bs
  {
    assert bs[..n] + bs[n..] == bs;
  }
}
