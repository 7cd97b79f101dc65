/** What one request with a payload puts on the wire: the size tables, the limits that
    decide whether it is accepted, and the frame it becomes. */
module Requests {
  import opened Arithmetic
  import opened Wire

  const DBR_STRING: nat := 0
  const LAST_BUFFER_TYPE: nat := 38
  const MAX_STRING_SIZE: nat := 40

  /** Size of one buffer of each type, and of each further element of an array. */
  const DBR_SIZE: seq<nat> := [
    40, 2, 4, 2, 1, 4, 8,           // plain values
    44, 6, 8, 6, 6, 8, 16,          // with status
    52, 16, 16, 16, 16, 16, 24,     // with status and time
    44, 26, 44, 424, 20, 40, 72,    // graphic
    44, 30, 52, 424, 22, 48, 88,    // control
    2, 2, 48, 40]                   // acknowledge, status and acknowledge, class name
  const DBR_VALUE_SIZE: seq<nat> := [
    40, 2, 4, 2, 1, 4, 8,
    40, 2, 4, 2, 1, 4, 8,
    40, 2, 4, 2, 1, 4, 8,
    40, 2, 4, 2, 1, 4, 8,
    40, 2, 4, 2, 1, 4, 8,
    2, 2, 40, 40]

  /** The types whose copy routine does not throw: the plain values and the two alarm
      acknowledgements. */
  predicate Copyable(t: nat) {
    t <= 6 || t == 35 || t == 36
  }

  /** One element as the copy loops see it: integers are written byte by byte, everything
      else already has its wire image. */
  datatype Elem = Short(s: int) | Long(l: int) | Image(bytes: seq<byte>)

  function ElemBytes(e: Elem): (bs: seq<byte>) {
    match e
    case Short(s) => Be16(s % 0x1_0000)
    case Long(l) => Be32(l % 0x1_0000_0000)
    case Image(bytes) => bytes
  }

  function ElemsBytes(es: seq<Elem>): (bs: seq<byte>) {
    if es == [] then [] else ElemBytes(es[0]) + ElemsBytes(es[1..])
  }

  predicate ElemsOfSize(es: seq<Elem>, size: nat) {
    forall i :: 0 <= i < |es| ==> |ElemBytes(es[i])| == size
  }

  /** A request: `cstr` is what a scalar string points at, without its terminating zero;
      `elems` is what any other payload pointer points at. */
  datatype Request = Request(cmmd: uint16, dataType: nat, nElem: nat, cid: uint32, dependent: uint32,
                             cstr: seq<byte>, elems: seq<Elem>, v49Ok: bool)

  /** The caller's payload is as long as the element count it passes. */
  predicate PayloadPresent(r: Request) {
    && 0 !in r.cstr
    && (r.dataType <= LAST_BUFFER_TYPE && Copyable(r.dataType) ==>
          |r.elems| == r.nElem && ElemsOfSize(r.elems, DBR_SIZE[r.dataType]))
  }

  datatype Status = Normal | BadType | OutOfBounds | NoMemory

  predicate IsScalarString(r: Request) {
    r.nElem == 1 && r.dataType == DBR_STRING
  }

  /** The first element count an array request of this type is refused at. */
  function MaxElem(t: nat, v49Ok: bool): nat
    requires t <= LAST_BUFFER_TYPE
  {
    ((if v49Ok then 0xffff_ffff else MAX_TCP - OLD_HEADER_SIZE) - 8 - DBR_SIZE[t]) / DBR_VALUE_SIZE[t]
  }

  /** Whether a request is accepted, memory permitting. */
  function Verdict(r: Request): Status {
    if r.dataType > LAST_BUFFER_TYPE then BadType
    else if IsScalarString(r) then (if |r.cstr| + 1 > MAX_STRING_SIZE then OutOfBounds else Normal)
    else if r.nElem != 1 && r.nElem >= MaxElem(r.dataType, r.v49Ok) then OutOfBounds
    else if Copyable(r.dataType) then Normal
    else BadType
  }

  /** Bytes of payload a request announces before alignment. */
  function PayloadSize(r: Request): nat
    requires r.dataType <= LAST_BUFFER_TYPE
  {
    if IsScalarString(r) then |r.cstr| + 1
    else if r.nElem == 0 then DBR_SIZE[r.dataType]
    else DBR_SIZE[r.dataType] + (r.nElem - 1) * DBR_VALUE_SIZE[r.dataType]
  }

  function Align(size: nat): (a: nat)
    ensures a % 8 == 0 && size <= a < size + 8
  {
    (size + 7) / 8 * 8
  }

  function Zeros(n: nat): (bs: seq<byte>)
    ensures |bs| == n
  {
    seq(n, _ => 0)
  }

  lemma SizeBounds(t: nat)
    requires t <= LAST_BUFFER_TYPE
    ensures 1 <= DBR_VALUE_SIZE[t] <= 40 && DBR_VALUE_SIZE[t] <= DBR_SIZE[t] <= 424
    ensures Copyable(t) ==> DBR_VALUE_SIZE[t] == DBR_SIZE[t]
  {
  }

  lemma ArrayBelow(n: nat, ds: nat, vs: nat, bytes: nat)
    requires 1 <= vs <= ds && n < bytes / vs
    ensures n * vs <= bytes - vs && n <= n * vs
    ensures n > 0 ==> ds + (n - 1) * vs <= bytes + ds - 2 * vs
  {
    BelowQuotient(bytes, vs, n);
    ProductOfMore(n, vs);
    assert (n - 1) * vs == n * vs - vs;
  }

  predicate WithinLimits(r: Request) {
    && r.dataType <= LAST_BUFFER_TYPE
    && (IsScalarString(r) ==> |r.cstr| + 1 <= MAX_STRING_SIZE)
    && (r.nElem != 1 ==> r.nElem < MaxElem(r.dataType, r.v49Ok))
  }

  /** The limits keep every quantity of a request inside 32 bits: the payload, the aligned
      payload and the size times count product of the copy loop; and without V4.9 the header
      always has its short form, so that inserting it cannot throw. */
  lemma SizesFit(r: Request)
    requires WithinLimits(r)
    ensures Align(PayloadSize(r)) < 0x1_0000_0000 && r.nElem < 0x1_0000_0000
    ensures r.nElem * DBR_VALUE_SIZE[r.dataType] < 0x1_0000_0000
    ensures !r.v49Ok ==> Align(PayloadSize(r)) < 0xffff && r.nElem < 0xffff
  {
    var ds, vs := DBR_SIZE[r.dataType], DBR_VALUE_SIZE[r.dataType];
    SizeBounds(r.dataType);
    if r.nElem != 1 {
      var bytes := (if r.v49Ok then 0xffff_ffff else MAX_TCP - OLD_HEADER_SIZE) - 8 - ds;
      ArrayBelow(r.nElem, ds, vs, bytes);
    }
  }

  // ---------------------------------------------------------------- the frame of a request

  function HeaderOf(r: Request): Header
    requires WithinLimits(r)
  {
    SizesFit(r);
    Header(r.cmmd, Align(PayloadSize(r)), r.dataType, r.nElem, r.cid, r.dependent)
  }

  function DataOf(r: Request): seq<byte> {
    if IsScalarString(r) then r.cstr + [0] else ElemsBytes(r.elems)
  }

  /** The payload as it follows the header: data, then zero padding. */
  function BodyOf(r: Request): (bs: seq<byte>)
    requires WithinLimits(r)
  {
    DataOf(r) + Zeros(Align(PayloadSize(r)) - PayloadSize(r))
  }

  function FrameOf(r: Request): seq<byte>
    requires WithinLimits(r)
  {
    HeaderBytes(HeaderOf(r)) + BodyOf(r)
  }

  lemma VerdictLimits(r: Request)
    ensures Verdict(r) == Normal <==> WithinLimits(r) && Copyable(r.dataType)
  {
  }

  /** The bytes a request and its reply may need, less the fields of one element. */
  function Room(t: nat, v49Ok: bool): int
    requires t <= LAST_BUFFER_TYPE
  {
    (if v49Ok then 0xffff_ffff else 0x4000 - 16) - 8 - DBR_SIZE[t]
  }

  /** When a request is accepted: its type is a plain value or an alarm acknowledgement; a single
      string ends within forty bytes; of any other number but one, one more would still fit. */
  lemma WhenAccepted(r: Request)
    ensures Verdict(r) == Normal <==>
      && (r.dataType <= 6 || r.dataType == 35 || r.dataType == 36)
      && (r.nElem == 1 && r.dataType == 0 ==> |r.cstr| < 40)
      && (r.nElem != 1 ==> (r.nElem + 1) * DBR_VALUE_SIZE[r.dataType] <= Room(r.dataType, r.v49Ok))
    ensures Verdict(r) == OutOfBounds <==>
      && r.dataType <= 38
      && if r.nElem == 1 then r.dataType == 0 && |r.cstr| >= 40
         else (r.nElem + 1) * DBR_VALUE_SIZE[r.dataType] > Room(r.dataType, r.v49Ok)
  {
    if r.dataType <= LAST_BUFFER_TYPE {
      BelowMaxElem(r.dataType, r.nElem, r.v49Ok);
    }
  }

  lemma BelowMaxElem(t: nat, n: nat, v49Ok: bool)
    requires t <= LAST_BUFFER_TYPE
    ensures n >= MaxElem(t, v49Ok) <==> (n + 1) * DBR_VALUE_SIZE[t] > Room(t, v49Ok)
  {
    SizeBounds(t);
    OneMoreFits(Room(t, v49Ok), DBR_VALUE_SIZE[t], n);
  }

  lemma OneMoreFits(bytes: nat, size: nat, n: nat)
    requires 1 <= size
    ensures n >= bytes / size <==> (n + 1) * size > bytes
  {
    Quotient(bytes, size);
    if n < bytes / size {
      ProductGrows(n + 1, bytes / size, size);
    } else {
      ProductGrows(bytes / size + 1, n + 1, size);
    }
  }

  lemma {:induction false} ElemsBytesLength(es: seq<Elem>, size: nat)
    requires ElemsOfSize(es, size)
    ensures |ElemsBytes(es)| == |es| * size
  {
    if es != [] {
      assert ElemBytes(es[0]) == ElemBytes(es[..][0]);
      ElemsBytesLength(es[1..], size);
      assert |es| * size == (|es| - 1) * size + size;
    }
  }

  /** How much an array has before alignment. */
  lemma ArrayLength(r: Request)
    requires PayloadPresent(r) && Verdict(r) == Normal && !IsScalarString(r)
    ensures |DataOf(r)| == r.nElem * DBR_SIZE[r.dataType]
    ensures r.nElem > 0 ==> PayloadSize(r) == |DataOf(r)|
  {
    ElemsBytesLength(r.elems, DBR_SIZE[r.dataType]);
    if r.nElem > 0 {
      SizeBounds(r.dataType);
      Unrolled(r.nElem, DBR_SIZE[r.dataType]);
    }
  }

  lemma Unrolled(n: nat, size: nat)
    requires n > 0
    ensures size + (n - 1) * size == n * size
  {
  }

  /** The length of the body agrees with the size its header announces exactly when at least
      one element is sent: with none, the header still announces one element's worth. */
  lemma BodyLength(r: Request)
    requires PayloadPresent(r) && Verdict(r) == Normal
    ensures |BodyOf(r)| == HeaderOf(r).postsize <==> r.nElem != 0
  {
    if !IsScalarString(r) {
      ArrayLength(r);
      if r.nElem == 0 {
        SizeBounds(r.dataType);
      }
    }
  }

  /** Frame shape: sixteen or twenty-four bytes of header, then the data, then fewer than
      eight zero bytes that complete a multiple of eight. */
  lemma FrameShape(r: Request)
    requires PayloadPresent(r) && Verdict(r) == Normal && r.nElem != 0
    ensures |FrameOf(r)| == |HeaderBytes(HeaderOf(r))| + HeaderOf(r).postsize
    ensures HeaderOf(r).postsize % 8 == 0 && 0 <= HeaderOf(r).postsize - |DataOf(r)| < 8
    ensures FrameOf(r) == HeaderBytes(HeaderOf(r)) + DataOf(r) + Zeros(HeaderOf(r).postsize - |DataOf(r)|)
  {
    BodyLength(r);
    var hb := HeaderBytes(HeaderOf(r));
    assert hb + (DataOf(r) + Zeros(HeaderOf(r).postsize - |DataOf(r)|)) ==
        hb + DataOf(r) + Zeros(HeaderOf(r).postsize - |DataOf(r)|);
  }

  /** A request for no elements is accepted, and its frame alone is not a message: whatever
      is sent next is taken for the body that its header announces. */
  lemma EmptyArrayIsNoMessage(r: Request, limit: nat)
    requires PayloadPresent(r) && Verdict(r) == Normal && r.nElem == 0
    ensures Parse(FrameOf(r), limit) == Parsed([], FrameOf(r), false)
  {
    BodyLength(r);
    SizeBounds(r.dataType);
    assert DataOf(r) == [];
    HeaderRoundTrip(HeaderOf(r), BodyOf(r));
  }

  /** The function that frames a request accepts an empty array of any type it can copy; it is
      for its callers to refuse it. */
  lemma EmptyArrayIsAccepted(r: Request)
    requires r.nElem == 0
    ensures Verdict(r) == Normal <==> r.dataType <= LAST_BUFFER_TYPE && Copyable(r.dataType)
  {
    if r.dataType <= LAST_BUFFER_TYPE && MaxElem(r.dataType, r.v49Ok) == 0 {
      SizeBounds(r.dataType);
      Quotient((if r.v49Ok then 0xffff_ffff else MAX_TCP - OLD_HEADER_SIZE) - 8 - DBR_SIZE[r.dataType],
        DBR_VALUE_SIZE[r.dataType]);
    }
  }
}
