/** The Channel Access byte stream, as plain values: big-endian fields, the short and the
    extended message header, and the parser that a byte stream determines.  The buffered
    classes are proved against these definitions. */
module Wire {

  type byte = b: int | 0 <= b < 0x100
  type uint16 = v: int | 0 <= v < 0x1_0000
  type uint32 = v: int | 0 <= v < 0x1_0000_0000

  const MAX_TCP: nat := 1024 * 16
  const OLD_HEADER_SIZE: nat := 16
  const ANNEX_SIZE: nat := 8

  // ---------------------------------------------------------------- integers on the wire

  function Be16(v: uint16): (bs: seq<byte>)
    ensures |bs| == 2
  {
    [v / 0x100, v % 0x100]
  }

  function Be32(v: uint32): (bs: seq<byte>)
    ensures |bs| == 4
  {
    [v / 0x100_0000, v / 0x1_0000 % 0x100, v / 0x100 % 0x100, v % 0x100]
  }

  function U16At(bs: seq<byte>, i: nat): (v: uint16)
    requires i + 2 <= |bs|
  {
    var hi: int, lo: int := bs[i], bs[i + 1];
    hi * 0x100 + lo
  }

  function U32At(bs: seq<byte>, i: nat): (v: uint32)
    requires i + 4 <= |bs|
  {
    var b0: int, b1: int, b2: int, b3: int := bs[i], bs[i + 1], bs[i + 2], bs[i + 3];
    b0 * 0x100_0000 + b1 * 0x1_0000 + b2 * 0x100 + b3
  }

  lemma U16RoundTrip(pre: seq<byte>, v: uint16, post: seq<byte>)
    ensures U16At(pre + Be16(v) + post, |pre|) == v
  {
  }

  lemma U32RoundTrip(pre: seq<byte>, v: uint32, post: seq<byte>)
    ensures U32At(pre + Be32(v) + post, |pre|) == v
  {
    var bs := pre + Be32(v) + post;
    assert forall k :: 0 <= k < 4 ==> bs[|pre| + k] == Be32(v)[k];
    assert v / 0x1_0000 == v / 0x100_0000 * 0x100 + v / 0x1_0000 % 0x100;
    assert v / 0x100 == v / 0x1_0000 * 0x100 + v / 0x100 % 0x100;
  }

  // ---------------------------------------------------------------- message headers

  /** The host form of a header, wide enough for the extended one. */
  datatype Header = Header(cmmd: uint16, postsize: uint32, dataType: uint16, count: uint32,
                           cid: uint32, available: uint32)

  datatype Message = Message(hdr: Header, body: seq<byte>)

  predicate FitsShort(h: Header) {
    h.postsize < 0xffff && h.count < 0xffff
  }

  function OldHeaderBytes(cmmd: uint16, postsize: uint16, dataType: uint16, count: uint16,
                          cid: uint32, available: uint32): (bs: seq<byte>)
    ensures |bs| == OLD_HEADER_SIZE
  {
    Be16(cmmd) + Be16(postsize) + Be16(dataType) + Be16(count) + Be32(cid) + Be32(available)
  }

  function HeaderBytes(h: Header): (bs: seq<byte>)
    ensures |bs| == if FitsShort(h) then OLD_HEADER_SIZE else OLD_HEADER_SIZE + ANNEX_SIZE
  {
    if FitsShort(h) then
      OldHeaderBytes(h.cmmd, h.postsize, h.dataType, h.count, h.cid, h.available)
    else
      OldHeaderBytes(h.cmmd, 0xffff, h.dataType, 0, h.cid, h.available) +
      (Be32(h.postsize) + Be32(h.count))
  }

  /** The sixteen byte header at the front of `bs`. */
  function OldHeaderAt(bs: seq<byte>): (h: Header)
    requires OLD_HEADER_SIZE <= |bs|
    ensures h.postsize <= 0xffff && h.count <= 0xffff
  {
    Header(U16At(bs, 0), U16At(bs, 2), U16At(bs, 4), U16At(bs, 6), U32At(bs, 8), U32At(bs, 12))
  }

  datatype HeaderResult = NeedMore | Complete(hdr: Header, size: nat)

  /** The header at the front of `bs`: a postsize of 0xffff announces the eight byte annex. */
  function ParseHeader(bs: seq<byte>): (r: HeaderResult)
    ensures r.Complete? ==> OLD_HEADER_SIZE <= r.size <= |bs|
  {
    if |bs| < OLD_HEADER_SIZE then NeedMore
    else
      var h := OldHeaderAt(bs);
      if h.postsize != 0xffff then Complete(h, OLD_HEADER_SIZE)
      else if |bs| < OLD_HEADER_SIZE + ANNEX_SIZE then NeedMore
      else Complete(h.(postsize := U32At(bs, 16), count := U32At(bs, 20)), OLD_HEADER_SIZE + ANNEX_SIZE)
  }

  lemma OldHeaderRoundTrip(cmmd: uint16, postsize: uint16, dataType: uint16, count: uint16,
                           cid: uint32, available: uint32, post: seq<byte>)
    ensures var bs := OldHeaderBytes(cmmd, postsize, dataType, count, cid, available) + post;
            OldHeaderAt(bs) == Header(cmmd, postsize, dataType, count, cid, available)
  {
    var a, b, c, d, e, f :=
      Be16(cmmd), Be16(postsize), Be16(dataType), Be16(count), Be32(cid), Be32(available);
    var bs := a + b + c + d + e + f + post;
    assert bs == [] + a + (b + c + d + e + f + post);
    assert bs == a + b + (c + d + e + f + post);
    assert bs == (a + b) + c + (d + e + f + post);
    assert bs == (a + b + c) + d + (e + f + post);
    assert bs == (a + b + c + d) + e + (f + post);
    U16RoundTrip([], cmmd, b + c + d + e + f + post);
    U16RoundTrip(a, postsize, c + d + e + f + post);
    U16RoundTrip(a + b, dataType, d + e + f + post);
    U16RoundTrip(a + b + c, count, e + f + post);
    U32RoundTrip(a + b + c + d, cid, f + post);
    U32RoundTrip(a + b + c + d + e, available, post);
  }

  /** Where the fields of a header are: numbers first byte first; in the extended form the size says
      0xffff and the count nothing, and two more words have both. */
  lemma HeaderLayout(h: Header)
    ensures var bs := HeaderBytes(h);
            && U16At(bs, 0) == h.cmmd && U16At(bs, 4) == h.dataType
            && U32At(bs, 8) == h.cid && U32At(bs, 12) == h.available
            && if h.postsize < 0xffff && h.count < 0xffff then
                 |bs| == 16 && U16At(bs, 2) == h.postsize && U16At(bs, 6) == h.count
               else
                 |bs| == 24 && U16At(bs, 2) == 0xffff && U16At(bs, 6) == 0
                 && U32At(bs, 16) == h.postsize && U32At(bs, 20) == h.count
  {
    HeaderRoundTrip(h, []);
    assert HeaderBytes(h) + [] == HeaderBytes(h);
    if FitsShort(h) {
      OldHeaderRoundTrip(h.cmmd, h.postsize, h.dataType, h.count, h.cid, h.available, []);
    } else {
      OldHeaderRoundTrip(h.cmmd, 0xffff, h.dataType, 0, h.cid, h.available, Be32(h.postsize) + Be32(h.count));
    }
  }

  /** A number is as many bytes, the first of which counts most. */
  lemma FirstByteFirst(bs: seq<byte>, i: nat)
    ensures i + 2 <= |bs| ==> U16At(bs, i) == bs[i] as int * 0x100 + bs[i + 1]
    ensures i + 4 <= |bs| ==> U32At(bs, i) == U16At(bs, i) * 0x1_0000 + U16At(bs, i + 2)
  {
  }

  /** Short and extended headers are never confused: every header, followed by anything, parses
      back to itself. The short form is used only below 0xffff, so the escape value in its place
      always means that two more words follow. */
  lemma HeaderRoundTrip(h: Header, post: seq<byte>)
    ensures ParseHeader(HeaderBytes(h) + post) == Complete(h, |HeaderBytes(h)|)
  {
    if FitsShort(h) {
      OldHeaderRoundTrip(h.cmmd, h.postsize, h.dataType, h.count, h.cid, h.available, post);
    } else {
      var old16 := OldHeaderBytes(h.cmmd, 0xffff, h.dataType, 0, h.cid, h.available);
      var p, c := Be32(h.postsize), Be32(h.count);
      var bs := HeaderBytes(h) + post;
      assert bs == old16 + (p + c + post);
      OldHeaderRoundTrip(h.cmmd, 0xffff, h.dataType, 0, h.cid, h.available, p + c + post);
      assert bs == old16 + p + (c + post);
      U32RoundTrip(old16, h.postsize, c + post);
      assert bs == (old16 + p) + c + post;
      U32RoundTrip(old16 + p, h.count, post);
    }
  }

  /** Bytes that arrive later never change a header that was already complete. */
  lemma ParseHeaderExtends(a: seq<byte>, b: seq<byte>)
    ensures ParseHeader(a).Complete? ==> ParseHeader(a + b) == ParseHeader(a)
  {
  }

  // ---------------------------------------------------------------- the stream parser

  /** What a byte stream says: the messages delivered, the undecided tail, and whether the
      tail starts with a header whose payload size is not a multiple of eight. */
  datatype Parsed = Parsed(msgs: seq<Message>, rest: seq<byte>, bad: bool)

  /** Messages whose body exceeds `limit` are consumed and not delivered. */
  function Deliver(m: Message, limit: nat): seq<Message> {
    if m.hdr.postsize <= limit then [m] else []
  }

  function Parse(bs: seq<byte>, limit: nat): (r: Parsed)
    decreases |bs|
  {
    match ParseHeader(bs)
    case NeedMore => Parsed([], bs, false)
    case Complete(h, n) =>
      if h.postsize % 8 != 0 then Parsed([], bs, true)
      else if |bs| < n + h.postsize then Parsed([], bs, false)
      else
        var r := Parse(bs[n + h.postsize..], limit);
        r.(msgs := Deliver(Message(h, bs[n..n + h.postsize]), limit) + r.msgs)
  }

  /** One whole message at the front of a stream is delivered and the rest is parsed. */
  lemma ParseMessage(h: Header, body: seq<byte>, post: seq<byte>, limit: nat)
    requires |body| == h.postsize && h.postsize % 8 == 0
    ensures var r := Parse(post, limit);
            Parse(HeaderBytes(h) + body + post, limit) ==
            r.(msgs := Deliver(Message(h, body), limit) + r.msgs)
  {
    var hb := HeaderBytes(h);
    var bs := hb + body + post;
    assert bs == hb + (body + post);
    HeaderRoundTrip(h, body + post);
    assert bs[|hb|..|hb| + |body|] == body;
    assert bs[|hb| + |body|..] == post;
  }

  /** True when `bs` starts with a whole, aligned message. */
  predicate StartsWithMessage(bs: seq<byte>) {
    var h := ParseHeader(bs);
    h.Complete? && h.hdr.postsize % 8 == 0 && h.size + h.hdr.postsize <= |bs|
  }

  lemma StartExtends(a: seq<byte>, b: seq<byte>)
    requires StartsWithMessage(a)
    ensures StartsWithMessage(a + b) && ParseHeader(a + b) == ParseHeader(a)
  {
    ParseHeaderExtends(a, b);
  }

  lemma SliceExtends(a: seq<byte>, b: seq<byte>, n: nat, k: nat)
    requires n <= k <= |a|
    ensures (a + b)[k..] == a[k..] + b && (a + b)[n..k] == a[n..k]
  {
  }

  function Then(first: seq<Message>, r: Parsed): Parsed {
    Parsed(first + r.msgs, r.rest, r.bad)
  }

  lemma ParseStep(bs: seq<byte>, body: seq<byte>, tail: seq<byte>, limit: nat)
    requires StartsWithMessage(bs)
    requires var h := ParseHeader(bs); var k := h.size + h.hdr.postsize;
             bs[h.size..k] == body && bs[k..] == tail
    ensures Parse(bs, limit) == Then(Deliver(Message(ParseHeader(bs).hdr, body), limit), Parse(tail, limit))
  {
  }

  /** Parsing in pieces: what is undecided after `a` is all that has to be kept, whatever
      the boundary between `a` and `b` cuts. */
  lemma {:induction false} ParseAppend(a: seq<byte>, b: seq<byte>, limit: nat)
    requires !Parse(a, limit).bad
    ensures Parse(a + b, limit) == Then(Parse(a, limit).msgs, Parse(Parse(a, limit).rest + b, limit))
    decreases |a|
  {
    if StartsWithMessage(a) {
      var h := ParseHeader(a);
      var k := h.size + h.hdr.postsize;
      var t, d := a[k..], Deliver(Message(h.hdr, a[h.size..k]), limit);
      var pa, pt := Parse(a, limit), Parse(t, limit);
      assert pa == Then(d, pt) by { ParseStep(a, a[h.size..k], t, limit); }
      ParseAppend(t, b, limit);
      ParseFirst(a, b, limit);
      ThenThen(d, pt.msgs, Parse(pt.rest + b, limit));
    } else {
      assert Parse(a, limit) == Parsed([], a, false);
      assert [] + Parse(a + b, limit).msgs == Parse(a + b, limit).msgs;
    }
  }

  /** Parsing behind a stream that ends with a whole message. */
  lemma ParseAfter(a: seq<byte>, ms: seq<Message>, b: seq<byte>, limit: nat)
    requires Parse(a, limit) == Parsed(ms, [], false)
    ensures Parse(a + b, limit) == Then(ms, Parse(b, limit))
  {
    ParseAppend(a, b, limit);
    assert [] + b == b;
  }

  lemma ParseFirst(a: seq<byte>, b: seq<byte>, limit: nat)
    requires StartsWithMessage(a)
    ensures var h := ParseHeader(a); var k := h.size + h.hdr.postsize;
            Parse(a + b, limit) == Then(Deliver(Message(h.hdr, a[h.size..k]), limit), Parse(a[k..] + b, limit))
  {
    var h := ParseHeader(a);
    var k := h.size + h.hdr.postsize;
    StartExtends(a, b);
    SliceExtends(a, b, h.size, k);
    ParseStep(a + b, a[h.size..k], a[k..] + b, limit);
  }

  lemma ThenThen(x: seq<Message>, y: seq<Message>, r: Parsed)
    ensures Then(x, Then(y, r)) == Then(x + y, r)
  {
    assert x + (y + r.msgs) == (x + y) + r.msgs;
  }
}
