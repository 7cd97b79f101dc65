/** Outstanding reads and connections of the old interface: one counter and a sequence number
    stand for everything `ca_pend_io` has to wait for. */
module OutstandingIOs {
  import opened Sealing

  const UINT_RANGE := 0x1_0000_0000
  const CAC_SIGNIFICANT_DELAY := 0.000001

  datatype Status = ECA_NORMAL | ECA_TIMEOUT | ECA_EVDISALLOW | ECA_BADTYPE | Thrown

  /** A channel: the sequence number it was created under, whether it is connected, and whether
      its user gave it a connection callback. */
  datatype Chan = Chan(ioSeqNo: nat, connected: bool, callback: bool)

  /** A read in flight that copies its value to the user. */
  datatype GetCopy = GetCopy(chan: nat, ioSeqNo: nat)

  /** What can happen to a context, also while `ca_pend_io` waits: other threads create and clear
      channels and issue reads, and the server connects, disconnects and answers. */
  datatype Event =
    | Create(chan: nat, callback: bool)
    | Clear(chan: nat)
    | Connect(chan: nat)
    | Disconnect(chan: nat)
    | ChangeCallback(chan: nat, callback: bool)
    | Get(chan: nat, negative: bool, thrown: bool)
    | Completion(io: nat)
    | Exception(io: nat)

  /** Reads of the current sequence that are in flight. */
  ghost function Pending(gets: map<nat, GetCopy>, seqNo: nat): set<nat> {
    set g | g in gets && gets[g].ioSeqNo == seqNo
  }

  /** Channels of the current sequence that have no callback and are not connected. */
  ghost function Waiting(chans: map<nat, Chan>, seqNo: nat): set<nat> {
    set c | c in chans && chans[c].ioSeqNo == seqNo && !chans[c].connected && !chans[c].callback
  }

  function Weight(c: Chan, seqNo: nat): nat {
    if c.ioSeqNo == seqNo && !c.connected && !c.callback then 1 else 0
  }

  lemma Less(a: set<nat>, x: nat)
    ensures |a| == |a - {x}| + if x in a then 1 else 0
  {
    if x !in a {
      assert a - {x} == a;
    }
  }

  /** What a change of one channel does to the number of those waited for. */
  lemma ChanSet(chans: map<nat, Chan>, c: nat, ch: Chan, seqNo: nat)
    ensures |Waiting(chans[c := ch], seqNo)| ==
      |Waiting(chans, seqNo)| - (if c in chans then Weight(chans[c], seqNo) else 0) + Weight(ch, seqNo)
  {
    Less(Waiting(chans, seqNo), c);
    Less(Waiting(chans[c := ch], seqNo), c);
    SameOthers(chans, c, ch, seqNo);
  }

  lemma SameOthers(chans: map<nat, Chan>, c: nat, ch: Chan, seqNo: nat)
    ensures Waiting(chans, seqNo) - {c} == Waiting(chans[c := ch], seqNo) - {c}
    ensures c in Waiting(chans[c := ch], seqNo) <==> Weight(ch, seqNo) == 1
    ensures c in Waiting(chans, seqNo) <==> c in chans && Weight(chans[c], seqNo) == 1
  {
  }

  lemma ChanGone(chans: map<nat, Chan>, c: nat, seqNo: nat)
    requires c in chans
    ensures |Waiting(chans - {c}, seqNo)| == |Waiting(chans, seqNo)| - Weight(chans[c], seqNo)
  {
    var a, b := Waiting(chans, seqNo), Waiting(chans - {c}, seqNo);
    assert b == a - {c};
    assert c in a <==> Weight(chans[c], seqNo) == 1;
  }

  lemma GetAdded(gets: map<nat, GetCopy>, g: nat, gc: GetCopy, seqNo: nat)
    requires g !in gets
    ensures Pending(gets[g := gc], seqNo) == Pending(gets, seqNo) + if gc.ioSeqNo == seqNo then {g} else {}
  {
  }

  lemma GetGone(gets: map<nat, GetCopy>, g: nat, seqNo: nat)
    requires g in gets
    ensures Pending(gets - {g}, seqNo) == Pending(gets, seqNo) - {g}
    ensures g in Pending(gets, seqNo) <==> gets[g].ioSeqNo == seqNo
  {
  }

  /** The reads asked for are those pending, those served and those that failed. */
  ghost predicate Split(asked: set<nat>, pending: set<nat>, served: set<nat>, failed: set<nat>) {
    && asked == pending + served + failed && served !! failed && served !! pending && failed !! pending
  }

  lemma AddedPending(asked: set<nat>, pending: set<nat>, served: set<nat>, failed: set<nat>, g: nat)
    requires Split(asked, pending, served, failed) && g !in asked
    ensures Split(asked + {g}, pending + {g}, served, failed) && |pending + {g}| == |pending| + 1
  {
  }

  lemma AddedFailed(asked: set<nat>, pending: set<nat>, served: set<nat>, failed: set<nat>, g: nat)
    requires Split(asked, pending, served, failed) && g !in asked
    ensures Split(asked + {g}, pending, served, failed + {g}) && |failed + {g}| == |failed| + 1
  {
  }

  lemma EndedServed(asked: set<nat>, pending: set<nat>, served: set<nat>, failed: set<nat>, g: nat)
    requires Split(asked, pending, served, failed) && g in pending
    ensures Split(asked, pending - {g}, served + {g}, failed) && |pending - {g}| == |pending| - 1
  {
  }

  lemma EndedFailed(asked: set<nat>, pending: set<nat>, served: set<nat>, failed: set<nat>, g: nat)
    requires Split(asked, pending, served, failed) && g in pending
    ensures Split(asked, pending - {g}, served, failed + {g})
    ensures |pending - {g}| == |pending| - 1 && |failed + {g}| == |failed| + 1
  {
  }

  lemma NotMine(pending: set<nat>, g: nat)
    requires g !in pending
    ensures pending - {g} == pending
  {
  }

  // ---------------------------------------------------------------- what always holds

  /** The state of the context. Of the reads of the current sequence, `asked` holds all of them,
      `served` those that delivered a value and `failed` those that ended without one. */
  datatype State = State(
    pndRecvCnt: int, ioSeqNo: nat, chans: map<nat, Chan>, gets: map<nat, GetCopy>, next: nat,
    asked: set<nat>, served: set<nat>, failed: set<nat>)

  /** The counter counts what is waited for, and the reads that failed without being taken off. */
  ghost predicate Facts(s: State) {
    && s.ioSeqNo < UINT_RANGE
    && s.pndRecvCnt == |Pending(s.gets, s.ioSeqNo)| + |Waiting(s.chans, s.ioSeqNo)| + |s.failed|
    && Split(s.asked, Pending(s.gets, s.ioSeqNo), s.served, s.failed)
    && (forall g :: g in s.gets ==> g < s.next) && (forall g :: g in s.asked ==> g < s.next)
  }

  ghost predicate Inv(s: State) {
    Sealed(Facts, s)
  }

  // ---------------------------------------------------------------- what happens, on values

  function Put(s: State, c: nat, ch: Chan): State {
    s.(chans := s.chans[c := ch],
       pndRecvCnt := s.pndRecvCnt - (if c in s.chans then Weight(s.chans[c], s.ioSeqNo) else 0) + Weight(ch, s.ioSeqNo))
  }

  /** A read ends, with a value or without; those of earlier sequences are not counted. */
  function End(s: State, g: nat, ok: bool): State
    requires g in s.gets
  {
    var mine := s.gets[g].ioSeqNo == s.ioSeqNo;
    s.(gets := s.gets - {g},
       pndRecvCnt := if mine && ok then s.pndRecvCnt - 1 else s.pndRecvCnt,
       served := if mine && ok then s.served + {g} else s.served,
       failed := if mine && !ok then s.failed + {g} else s.failed)
  }

  /** A read is issued, or refused by its channel while it counts already. */
  function Issue(s: State, c: nat, thrown: bool): State {
    s.(pndRecvCnt := s.pndRecvCnt + 1, next := s.next + 1, asked := s.asked + {s.next},
       gets := if thrown then s.gets else s.gets[s.next := GetCopy(c, s.ioSeqNo)],
       failed := if thrown then s.failed + {s.next} else s.failed)
  }

  function ReadsOf(gets: map<nat, GetCopy>, c: nat): set<nat> {
    set g | g in gets && gets[g].chan == c
  }

  /** Those of the current sequence. */
  function Current(gets: map<nat, GetCopy>, c: nat, seqNo: nat): set<nat> {
    set g | g in gets && gets[g].chan == c && gets[g].ioSeqNo == seqNo
  }

  /** A channel goes: its reads fail, and it is waited for no longer. */
  function Gone(s: State, c: nat): State
    requires c in s.chans
  {
    s.(chans := s.chans - {c}, pndRecvCnt := s.pndRecvCnt - Weight(s.chans[c], s.ioSeqNo),
       gets := s.gets - ReadsOf(s.gets, c),
       failed := s.failed + Current(s.gets, c, s.ioSeqNo))
  }

  /** The context after an event; what cannot happen now does not. */
  function After(s: State, e: Event): State {
    match e
    case Create(c, callback) => if c in s.chans then s else Put(s, c, Chan(s.ioSeqNo, false, callback))
    case Clear(c) => if c in s.chans then Gone(s, c) else s
    case Connect(c) =>
      if c in s.chans && !s.chans[c].connected then Put(s, c, s.chans[c].(connected := true)) else s
    case Disconnect(c) =>
      if c in s.chans && s.chans[c].connected then Put(s, c, s.chans[c].(connected := false)) else s
    case ChangeCallback(c, callback) =>
      if c in s.chans then Put(s, c, s.chans[c].(callback := callback)) else s
    case Get(c, negative, thrown) => if c in s.chans && !negative then Issue(s, c, thrown) else s
    case Completion(g) => if g in s.gets then End(s, g, true) else s
    case Exception(g) => if g in s.gets then End(s, g, false) else s
  }

  /** The context after the first events of a list. */
  function AfterAll(s: State, events: seq<Event>, n: nat): State
    requires n <= |events|
  {
    if n == 0 then s else After(AfterAll(s, events, n - 1), events[n - 1])
  }

  lemma {:induction false} AfterFirst(s: State, a: seq<Event>, b: seq<Event>, n: nat)
    requires n <= |a|
    ensures AfterAll(s, a + b, n) == AfterAll(s, a, n)
  {
    if n > 0 {
      AfterFirst(s, a, b, n - 1);
    }
  }

  lemma {:induction false} AfterTwice(s: State, a: seq<Event>, b: seq<Event>, n: nat)
    requires n <= |b|
    ensures AfterAll(s, a + b, |a| + n) == AfterAll(AfterAll(s, a, |a|), b, n)
  {
    if n == 0 {
      AfterFirst(s, a, b, |a|);
    } else {
      AfterTwice(s, a, b, n - 1);
    }
  }

  // ---------------------------------------------------------------- what every event keeps

  lemma PutKeeps(s: State, c: nat, ch: Chan)
    requires Inv(s)
    ensures Inv(Put(s, c, ch))
  {
    Unseal(Facts, s);
    Unseal(Facts, Put(s, c, ch));
    ChanSet(s.chans, c, ch, s.ioSeqNo);
  }

  lemma IssueKeeps(s: State, c: nat, thrown: bool)
    requires Inv(s)
    ensures Inv(Issue(s, c, thrown))
  {
    Unseal(Facts, s);
    Unseal(Facts, Issue(s, c, thrown));
    if thrown {
      AddedFailed(s.asked, Pending(s.gets, s.ioSeqNo), s.served, s.failed, s.next);
    } else {
      AddedPending(s.asked, Pending(s.gets, s.ioSeqNo), s.served, s.failed, s.next);
      GetAdded(s.gets, s.next, GetCopy(c, s.ioSeqNo), s.ioSeqNo);
    }
  }

  /** A read ends: one of the current sequence is served and taken off the counter, or fails and
      stays on it; one of an earlier sequence is neither. */
  lemma EndKeeps(s: State, g: nat, ok: bool)
    requires Inv(s) && g in s.gets
    ensures Inv(End(s, g, ok))
  {
    Unseal(Facts, s);
    Unseal(Facts, End(s, g, ok));
    GetGone(s.gets, g, s.ioSeqNo);
    if s.gets[g].ioSeqNo == s.ioSeqNo {
      if ok {
        EndedServed(s.asked, Pending(s.gets, s.ioSeqNo), s.served, s.failed, g);
      } else {
        EndedFailed(s.asked, Pending(s.gets, s.ioSeqNo), s.served, s.failed, g);
      }
    } else {
      NotMine(Pending(s.gets, s.ioSeqNo), g);
    }
  }

  /** Reads that fail together stay counted. */
  lemma AllFailed(asked: set<nat>, pending: set<nat>, served: set<nat>, failed: set<nat>, gone: set<nat>)
    requires Split(asked, pending, served, failed) && gone <= pending
    ensures Split(asked, pending - gone, served, failed + gone)
    ensures |pending - gone| + |failed + gone| == |pending| + |failed|
  {
    assert pending == (pending - gone) + gone;
  }

  lemma PendingGone(gets: map<nat, GetCopy>, c: nat, seqNo: nat)
    ensures Current(gets, c, seqNo) <= Pending(gets, seqNo)
    ensures Pending(gets - ReadsOf(gets, c), seqNo) == Pending(gets, seqNo) - Current(gets, c, seqNo)
  {
  }

  lemma GoneKeeps(s: State, c: nat)
    requires Inv(s) && c in s.chans
    ensures Inv(Gone(s, c))
  {
    Unseal(Facts, s);
    Unseal(Facts, Gone(s, c));
    ChanGone(s.chans, c, s.ioSeqNo);
    PendingGone(s.gets, c, s.ioSeqNo);
    AllFailed(s.asked, Pending(s.gets, s.ioSeqNo), s.served, s.failed, Current(s.gets, c, s.ioSeqNo));
  }

  /** Whatever happens, the counter goes on counting what is waited for and the reads that
      failed. */
  lemma AfterKeeps(s: State, e: Event)
    requires Inv(s)
    ensures Inv(After(s, e)) && After(s, e).ioSeqNo == s.ioSeqNo && s.asked <= After(s, e).asked
  {
    match e
    case Create(c, callback) => PutKeeps(s, c, Chan(s.ioSeqNo, false, callback));
    case Clear(c) =>
      if c in s.chans {
        GoneKeeps(s, c);
      }
    case Connect(c) =>
      if c in s.chans {
        PutKeeps(s, c, s.chans[c].(connected := true));
      }
    case Disconnect(c) =>
      if c in s.chans {
        PutKeeps(s, c, s.chans[c].(connected := false));
      }
    case ChangeCallback(c, callback) =>
      if c in s.chans {
        PutKeeps(s, c, s.chans[c].(callback := callback));
      }
    case Get(c, _, thrown) => IssueKeeps(s, c, thrown);
    case Completion(g) =>
      if g in s.gets {
        EndKeeps(s, g, true);
      }
    case Exception(g) =>
      if g in s.gets {
        EndKeeps(s, g, false);
      }
  }

  /** A channel that is waited for, or a read in flight, is counted: taking it off cannot go below
      zero. */
  lemma NoUnderflow(s: State)
    requires Inv(s)
    ensures s.pndRecvCnt >= 0
    ensures forall c :: c in s.chans && Weight(s.chans[c], s.ioSeqNo) == 1 ==> s.pndRecvCnt > 0
    ensures forall g :: g in s.gets && s.gets[g].ioSeqNo == s.ioSeqNo ==> s.pndRecvCnt > 0
    ensures s.next !in s.gets
  {
    Unseal(Facts, s);
    forall c | c in s.chans && Weight(s.chans[c], s.ioSeqNo) == 1 ensures s.pndRecvCnt > 0 {
      assert c in Waiting(s.chans, s.ioSeqNo);
    }
    forall g | g in s.gets && s.gets[g].ioSeqNo == s.ioSeqNo ensures s.pndRecvCnt > 0 {
      assert g in Pending(s.gets, s.ioSeqNo);
    }
  }

  // ---------------------------------------------------------------- the end of a sequence

  function NextSeqNo(seqNo: nat): nat {
    (seqNo + 1) % UINT_RANGE
  }

  /** The next sequence. */
  function EndSequence(s: State): State {
    s.(ioSeqNo := NextSeqNo(s.ioSeqNo), pndRecvCnt := 0, asked := {}, served := {}, failed := {})
  }

  /** Nothing that is alive was created under a sequence number. */
  ghost predicate Unused(s: State, seqNo: nat) {
    && (forall g :: g in s.gets ==> s.gets[g].ioSeqNo != seqNo)
    && (forall c :: c in s.chans ==> Weight(s.chans[c], seqNo) == 0)
  }

  /** A new sequence starts with nothing counted. That is right exactly when nothing alive still
      carries the new number from the last time the numbers went round. */
  lemma SequenceEnds(s: State, t: State)
    requires Inv(s)
    requires t == EndSequence(s)
    ensures Inv(t) <==> Unused(s, NextSeqNo(s.ioSeqNo))
  {
    Unseal(Facts, s);
    Unseal(Facts, t);
    var p, w := Pending(t.gets, t.ioSeqNo), Waiting(t.chans, t.ioSeqNo);
    if Unused(s, t.ioSeqNo) {
      assert p == {} && w == {};
    } else if g :| g in s.gets && s.gets[g].ioSeqNo == t.ioSeqNo {
      assert g in p;
    } else {
      var c :| c in s.chans && Weight(s.chans[c], t.ioSeqNo) != 0;
      assert c in w;
    }
  }

  /** Nothing counted means nothing to wait for: every read asked for has been served, and every
      channel without a callback is connected. */
  lemma NothingCounted(s: State)
    requires Inv(s) && s.pndRecvCnt == 0
    ensures s.asked == s.served && s.failed == {}
    ensures forall g :: g in s.gets ==> s.gets[g].ioSeqNo != s.ioSeqNo
    ensures forall c :: c in s.chans && s.chans[c].ioSeqNo == s.ioSeqNo ==> s.chans[c].connected || s.chans[c].callback
  {
    Unseal(Facts, s);
    forall g | g in s.gets ensures s.gets[g].ioSeqNo != s.ioSeqNo {
      assert g !in Pending(s.gets, s.ioSeqNo);
    }
    forall c | c in s.chans && s.chans[c].ioSeqNo == s.ioSeqNo ensures s.chans[c].connected || s.chans[c].callback {
      assert c !in Waiting(s.chans, s.ioSeqNo);
    }
  }

  /** A channel is created in a new context and never connects, and `ca_pend_io` times out again
      and again. */
  function Timeouts(n: nat): State {
    if n == 0 then After(State(0, 0, map[], map[], 0, {}, {}, {}), Create(0, false))
    else EndSequence(Timeouts(n - 1))
  }

  lemma {:induction false} AfterTimeouts(n: nat)
    requires n < UINT_RANGE
    ensures Timeouts(n) == State(if n == 0 then 1 else 0, n, map[0 := Chan(0, false, false)], map[], 0, {}, {}, {})
  {
    if n > 0 {
      AfterTimeouts(n - 1);
    }
  }

  /** The numbers do go round: after 2 to the 32 time-outs the channel carries the new number and is
      not counted, and when it connects at last the counter goes below zero. */
  lemma NumbersGoRound()
    ensures Inv(Timeouts(UINT_RANGE - 1)) && !Unused(Timeouts(UINT_RANGE - 1), 0)
    ensures !Inv(Timeouts(UINT_RANGE)) && After(Timeouts(UINT_RANGE), Connect(0)).pndRecvCnt == -1
  {
    var s := Timeouts(UINT_RANGE - 1);
    AfterTimeouts(UINT_RANGE - 1);
    assert Pending(s.gets, s.ioSeqNo) == {} && Waiting(s.chans, s.ioSeqNo) == {};
    Unseal(Facts, s);
    assert 0 in s.chans && Weight(s.chans[0], 0) == 1;
    SequenceEnds(s, EndSequence(s));
  }

  class ClientContext {
    var pndRecvCnt: nat
    var ioSeqNo: nat
    var chans: map<nat, Chan>
    var gets: map<nat, GetCopy>
    var next: nat
    ghost var asked: set<nat>
    ghost var served: set<nat>
    ghost var failed: set<nat>

    ghost function Now(): State
      reads this
    {
      State(pndRecvCnt, ioSeqNo, chans, gets, next, asked, served, failed)
    }

    ghost predicate Valid()
      reads this
    {
      Inv(Now())
    }

    constructor ()
      ensures Valid() && Now() == State(0, 0, map[], map[], 0, {}, {}, {})
    {
      pndRecvCnt, ioSeqNo, chans, gets, next := 0, 0, map[], map[], 0;
      asked, served, failed := {}, {}, {};
      new;
      Unseal(Facts, Now());
    }

    // -------------------------------------------------------------- the counter

    method IncrementOutstandingIO(seqNo: nat)
      modifies `pndRecvCnt
      ensures pndRecvCnt == old(pndRecvCnt) + if ioSeqNo == seqNo then 1 else 0
    {
      if ioSeqNo == seqNo {
        pndRecvCnt := pndRecvCnt + 1;
      }
    }

    /** Counting below zero is what the assertion in the original guards against. */
    method DecrementOutstandingIO(seqNo: nat)
      requires ioSeqNo == seqNo ==> pndRecvCnt > 0
      modifies `pndRecvCnt
      ensures pndRecvCnt == old(pndRecvCnt) - if ioSeqNo == seqNo then 1 else 0
    {
      if ioSeqNo == seqNo {
        pndRecvCnt := pndRecvCnt - 1;
      }
    }

    // -------------------------------------------------------------- channels

    method CreateChannel(c: nat, callback: bool)
      requires Valid() && c !in chans
      modifies `pndRecvCnt, `chans
      ensures Valid() && Now() == After(old(Now()), Create(c, callback))
      ensures chans == old(chans)[c := Chan(ioSeqNo, false, callback)]
      ensures pndRecvCnt == old(pndRecvCnt) + if callback then 0 else 1
    {
      AfterKeeps(Now(), Create(c, callback));
      chans := chans[c := Chan(ioSeqNo, false, callback)];
      if !callback {
        IncrementOutstandingIO(ioSeqNo);
      }
    }

    method ConnectNotify(c: nat)
      requires Valid() && c in chans && !chans[c].connected
      modifies `pndRecvCnt, `chans
      ensures Valid() && Now() == After(old(Now()), Connect(c))
      ensures chans == old(chans)[c := old(chans[c]).(connected := true)]
      ensures pndRecvCnt == old(pndRecvCnt) -
        if !old(chans[c]).callback && old(chans[c]).ioSeqNo == ioSeqNo then 1 else 0
    {
      AfterKeeps(Now(), Connect(c));
      NoUnderflow(Now());
      chans := chans[c := chans[c].(connected := true)];
      if !chans[c].callback {
        DecrementOutstandingIO(chans[c].ioSeqNo);
      }
    }

    method DisconnectNotify(c: nat)
      requires Valid() && c in chans && chans[c].connected
      modifies `pndRecvCnt, `chans
      ensures Valid() && Now() == After(old(Now()), Disconnect(c))
      ensures chans == old(chans)[c := old(chans[c]).(connected := false)]
      ensures pndRecvCnt == old(pndRecvCnt) +
        if !old(chans[c]).callback && old(chans[c]).ioSeqNo == ioSeqNo then 1 else 0
    {
      AfterKeeps(Now(), Disconnect(c));
      chans := chans[c := chans[c].(connected := false)];
      if !chans[c].callback {
        IncrementOutstandingIO(chans[c].ioSeqNo);
      }
    }

    method ChangeConnectionEvent(c: nat, callback: bool)
      requires Valid() && c in chans
      modifies `pndRecvCnt, `chans
      ensures Valid() && Now() == After(old(Now()), ChangeCallback(c, callback))
      ensures chans == old(chans)[c := old(chans[c]).(callback := callback)]
      ensures pndRecvCnt == old(pndRecvCnt) +
        (if old(chans[c]).connected || old(chans[c]).ioSeqNo != ioSeqNo || old(chans[c]).callback == callback then 0
         else if callback then -1 else 1)
    {
      AfterKeeps(Now(), ChangeCallback(c, callback));
      NoUnderflow(Now());
      if !chans[c].connected {
        if callback {
          if !chans[c].callback {
            DecrementOutstandingIO(chans[c].ioSeqNo);
          }
        } else {
          if chans[c].callback {
            IncrementOutstandingIO(chans[c].ioSeqNo);
          }
        }
      }
      chans := chans[c := chans[c].(callback := callback)];
    }

    // -------------------------------------------------------------- reads

    /** A read of the user. If the channel refuses it, the copy is thrown away while the counter
        stays up. */
    method ArrayGet(c: nat, negative: bool, thrown: bool) returns (status: Status)
      requires Valid() && c in chans
      modifies `pndRecvCnt, `gets, `next, `asked, `failed
      ensures Valid() && Now() == After(old(Now()), Get(c, negative, thrown))
      ensures negative ==> Now() == old(Now())
      ensures !negative ==> pndRecvCnt == old(pndRecvCnt) + 1 && asked == old(asked) + {old(next)}
      ensures !negative ==> if thrown then failed == old(failed) + {old(next)} && gets == old(gets)
        else failed == old(failed) && gets == old(gets)[old(next) := GetCopy(c, ioSeqNo)]
      ensures status == if negative then ECA_BADTYPE else if thrown then Thrown else ECA_NORMAL
    {
      AfterKeeps(Now(), Get(c, negative, thrown));
      if negative {
        return ECA_BADTYPE;
      }
      var g := next;
      next := next + 1;
      IncrementOutstandingIO(ioSeqNo);
      asked := asked + {g};
      if thrown {
        failed := failed + {g};
        return Thrown;
      }
      gets := gets[g := GetCopy(c, ioSeqNo)];
      return ECA_NORMAL;
    }

    /** The value has arrived. */
    method GetCompletion(g: nat)
      requires Valid() && g in gets
      modifies `pndRecvCnt, `gets, `served
      ensures Valid() && Now() == After(old(Now()), Completion(g))
      ensures gets == old(gets) - {g}
      ensures old(gets[g]).ioSeqNo == ioSeqNo ==> pndRecvCnt == old(pndRecvCnt) - 1 && served == old(served) + {g}
      ensures old(gets[g]).ioSeqNo != ioSeqNo ==> pndRecvCnt == old(pndRecvCnt) && served == old(served)
    {
      AfterKeeps(Now(), Completion(g));
      NoUnderflow(Now());
      if gets[g].ioSeqNo == ioSeqNo {
        served := served + {g};
      }
      DecrementOutstandingIO(gets[g].ioSeqNo);
      gets := gets - {g};
    }

    /** The read has failed: nothing is taken off the counter. */
    method GetException(g: nat)
      requires g in gets
      modifies `gets, `failed
      ensures Now() == After(old(Now()), Exception(g)) && gets == old(gets) - {g}
      ensures failed == old(failed) + if old(gets[g]).ioSeqNo == ioSeqNo then {g} else {}
    {
      if gets[g].ioSeqNo == ioSeqNo {
        failed := failed + {g};
      }
      gets := gets - {g};
    }

    /** Destroys a channel: its reads fail, and it is no longer waited for. */
    method ClearChannel(c: nat)
      requires Valid() && c in chans
      modifies `pndRecvCnt, `chans, `gets, `failed
      ensures Valid() && Now() == After(old(Now()), Clear(c)) && chans == old(chans) - {c}
      ensures forall g :: g in gets <==> g in old(gets) && old(gets[g]).chan != c
      ensures forall g :: g in failed <==>
        g in old(failed) || (g in old(gets) && old(gets[g]) == GetCopy(c, ioSeqNo))
      ensures pndRecvCnt == old(pndRecvCnt) -
        if !old(chans[c]).callback && !old(chans[c]).connected && old(chans[c]).ioSeqNo == ioSeqNo then 1 else 0
    {
      ghost var s := Now();
      AfterKeeps(s, Clear(c));
      NoUnderflow(s);
      FailReads(c);
      if !chans[c].callback && !chans[c].connected {
        DecrementOutstandingIO(chans[c].ioSeqNo);
      }
      chans := chans - {c};
    }

    method FailReads(c: nat)
      modifies `gets, `failed
      ensures gets == old(gets) - ReadsOf(old(gets), c)
      ensures failed == old(failed) + Current(old(gets), c, ioSeqNo)
    {
      var mine := set g | g in gets && gets[g].chan == c;
      ghost var all := mine;
      while mine != {}
        invariant mine <= all && gets == old(gets) - (all - mine)
        invariant failed == old(failed) + set g | g in all - mine && old(gets[g]).ioSeqNo == ioSeqNo
        decreases mine
      {
        var g :| g in mine;
        GetException(g);
        mine := mine - {g};
      }
      assert gets == old(gets) - ReadsOf(old(gets), c);
    }

    // -------------------------------------------------------------- waiting

    /** One thing that happens while the user waits; what cannot happen now does not. */
    method Handle(e: Event)
      requires Valid()
      modifies `pndRecvCnt, `chans, `gets, `next, `asked, `served, `failed
      ensures Valid() && Now() == After(old(Now()), e)
    {
      match e
      case Create(c, callback) =>
        if c !in chans {
          CreateChannel(c, callback);
        }
      case Clear(c) =>
        if c in chans {
          ClearChannel(c);
        }
      case Connect(c) =>
        if c in chans && !chans[c].connected {
          ConnectNotify(c);
        }
      case Disconnect(c) =>
        if c in chans && chans[c].connected {
          DisconnectNotify(c);
        }
      case ChangeCallback(c, callback) =>
        if c in chans {
          ChangeConnectionEvent(c, callback);
        }
      case Get(c, negative, thrown) =>
        if c in chans {
          var _ := ArrayGet(c, negative, thrown);
        }
      case Completion(g) =>
        if g in gets {
          GetCompletion(g);
        }
      case Exception(g) =>
        if g in gets {
          AfterKeeps(Now(), e);
          GetException(g);
        }
    }

    method HandleAll(events: seq<Event>)
      requires Valid()
      modifies `pndRecvCnt, `chans, `gets, `next, `asked, `served, `failed
      ensures Valid() && Now() == AfterAll(old(Now()), events, |events|)
    {
      for k := 0 to |events|
        invariant Valid() && Now() == AfterAll(old(Now()), events, k)
      {
        Handle(events[k]);
      }
    }

    /** One more wake-up. */
    method WakeUp(waits: seq<(seq<Event>, real)>, k: nat, ghost start: State)
      requires Valid() && k < |waits| && Sealed(Waited, Wait(start, waits, k, Now()))
      modifies `pndRecvCnt, `chans, `gets, `next, `asked, `served, `failed
      ensures Valid() && Sealed(Waited, Wait(start, waits, k + 1, Now()))
    {
      Unseal(Waited, Wait(start, waits, k, Now()));
      AfterTwice(start, Happened(waits, k), waits[k].0, |waits[k].0|);
      HandleAll(waits[k].0);
      Unseal(Waited, Wait(start, waits, k + 1, Now()));
    }

    /** The wait itself. */
    method Block(timeout: real, waits: seq<(seq<Event>, real)>) returns (status: Status, ghost n: nat)
      requires Valid()
      modifies `pndRecvCnt, `chans, `gets, `next, `asked, `served, `failed
      ensures Valid() && n <= |waits| && Sealed(Waited, Wait(old(Now()), waits, n, Now()))
      ensures status == if pndRecvCnt == 0 then ECA_NORMAL else ECA_TIMEOUT
      ensures status == ECA_TIMEOUT ==> n == |waits| || !TimeLeft(timeout, waits, n)
      ensures forall k: nat :: k < n ==> GoesOn(old(Now()), waits, timeout, k)
    {
      ghost var start := Now();
      n := 0;
      Unseal(Waited, Wait(start, waits, 0, start));
      NoUnderflow(Now());
      var remaining := timeout;
      var k := 0;
      while pndRecvCnt > 0
        invariant 0 <= k <= |waits| + 1 && n == (if k <= |waits| then k else |waits|)
        invariant Valid() && pndRecvCnt >= 0 && Sealed(Waited, Wait(start, waits, n, Now()))
        invariant k <= |waits| ==> (remaining >= CAC_SIGNIFICANT_DELAY <==> TimeLeft(timeout, waits, k))
        invariant k > |waits| ==> remaining <= 0.0
        invariant forall j: nat :: j < n ==> GoesOn(start, waits, timeout, j)
        decreases |waits| + 1 - k
      {
        if remaining < CAC_SIGNIFICANT_DELAY {
          return ECA_TIMEOUT, n;
        }
        var delay := timeout;
        if k < |waits| {
          StillWaits(start, waits, timeout, k, Now());
          WakeUp(waits, k, start);
          NoUnderflow(Now());
          delay := waits[k].1;
          n := n + 1;
        }
        remaining := if delay < timeout then timeout - delay else 0.0;
        k := k + 1;
      }
      status := ECA_NORMAL;
    }

    /** The next sequence starts with nothing counted. */
    method StartSequence()
      requires Valid()
      modifies this
      ensures Now() == EndSequence(old(Now()))
      ensures Valid() <==> Unused(old(Now()), NextSeqNo(old(ioSeqNo)))
    {
      ghost var s := Now();
      ioSeqNo := (ioSeqNo + 1) % UINT_RANGE;
      pndRecvCnt := 0;
      asked, served, failed := {}, {}, {};
      SequenceEnds(s, Now());
    }

    /** Waits until nothing is outstanding or the time is up, then starts a new sequence. Each
        element of `waits` is one wake-up: what happened before it and how long after the start
        it came; when there are no more, the time runs out. The events of the first `n` wake-ups
        are handled. Normal completion means that every read of the sequence has delivered its
        value and every channel without a callback is connected. */
    method PendIO(timeout: real, inCallback: bool, waits: seq<(seq<Event>, real)>)
      returns (status: Status, ghost n: nat, ghost before: State)
      requires Valid()
      modifies this
      ensures inCallback ==> status == ECA_EVDISALLOW && Now() == old(Now())
      ensures !inCallback ==> status == ECA_NORMAL || status == ECA_TIMEOUT
      ensures n <= |waits| && (!inCallback ==> Inv(before))
      ensures !inCallback ==> var events := Happened(waits, n); before == AfterAll(old(Now()), events, |events|)
      ensures status == ECA_TIMEOUT ==> n == |waits| || !TimeLeft(timeout, waits, n)
      ensures !inCallback ==> forall k: nat :: k < n ==> GoesOn(old(Now()), waits, timeout, k)
      ensures !inCallback ==> Now() == EndSequence(before)
      ensures !inCallback ==> pndRecvCnt == 0 && ioSeqNo == (old(ioSeqNo) + 1) % 0x1_0000_0000
      ensures !inCallback ==> (Valid() <==> Unused(before, NextSeqNo(before.ioSeqNo)))
      ensures status == ECA_NORMAL <==> !inCallback && before.pndRecvCnt == 0
      ensures status == ECA_NORMAL ==> before.served == before.asked && before.failed == {}
      ensures status == ECA_NORMAL ==> forall c :: c in before.chans && before.chans[c].ioSeqNo == before.ioSeqNo ==>
        before.chans[c].connected || before.chans[c].callback
    {
      before, n := Now(), 0;
      if inCallback {
        return ECA_EVDISALLOW, n, before;
      }
      status, n := Block(timeout, waits);
      before := Now();
      Unseal(Waited, Wait(old(Now()), waits, n, before));
      if status == ECA_NORMAL {
        NothingCounted(before);
      }
      StartSequence();
    }
  }

  /** The events of the first wake-ups, in order. */
  function Happened(waits: seq<(seq<Event>, real)>, n: nat): seq<Event>
    requires n <= |waits|
  {
    if n == 0 then [] else Happened(waits, n - 1) + waits[n - 1].0
  }

  /** Whether the time is not up after the first wake-ups, of which the last one says how late it
      is. */
  predicate TimeLeft(timeout: real, waits: seq<(seq<Event>, real)>, k: nat)
    requires k <= |waits|
  {
    (if k == 0 then timeout else timeout - waits[k - 1].1) >= CAC_SIGNIFICANT_DELAY
  }

  /** After the first wake-ups something is outstanding and there is time to wait for it. */
  ghost predicate GoesOn(start: State, waits: seq<(seq<Event>, real)>, timeout: real, k: nat) {
    && k <= |waits| && TimeLeft(timeout, waits, k)
    && var events := Happened(waits, k); AfterAll(start, events, |events|).pndRecvCnt > 0
  }

  lemma StillWaits(start: State, waits: seq<(seq<Event>, real)>, timeout: real, k: nat, now: State)
    requires Sealed(Waited, Wait(start, waits, k, now)) && now.pndRecvCnt > 0
    requires k <= |waits| && TimeLeft(timeout, waits, k)
    ensures GoesOn(start, waits, timeout, k)
  {
    Unseal(Waited, Wait(start, waits, k, now));
  }

  /** The context after the first wake-ups of a wait. */
  datatype Wait = Wait(start: State, waits: seq<(seq<Event>, real)>, n: nat, now: State)

  ghost predicate Waited(w: Wait) {
    w.n <= |w.waits| && var events := Happened(w.waits, w.n); w.now == AfterAll(w.start, events, |events|)
  }
}
