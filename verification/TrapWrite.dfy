/** Listeners that are called before and after each write. */
module TrapWrites {
  import opened Lists
  import opened Options
  import opened Sealing

  /** What a message remembers of a listener it has called: the value the listener left. */
  datatype ListenerPvt = ListenerPvt(listener: nat, userPvt: int)

  datatype Event =
    | Before(message: nat, listener: nat, userPvt: int)
    | After(message: nat, listener: nat, userPvt: int)
    | Unregistered(listener: nat)

  datatype State = State(
    listeners: seq<nat>, messages: map<nat, seq<ListenerPvt>>, log: seq<Event>, nextListener: nat, nextMessage: nat)

  // ---------------------------------------------------------------- what the log says

  /** Nothing calls a listener that is gone. A listener is called once before a write, and once
      after it with the value it left before. */
  ghost predicate Proper(log: seq<Event>, e: Event) {
    && (!e.Unregistered? ==> Unregistered(e.listener) !in log)
    && (e.Before? ==> Unseen(log, e.message, e.listener))
    && (e.After? ==> Before(e.message, e.listener, e.userPvt) in log && NotAfter(log, e.message, e.listener))
  }

  ghost predicate Unseen(log: seq<Event>, m: nat, l: nat) {
    forall u: int :: Before(m, l, u) !in log
  }

  ghost predicate NotAfter(log: seq<Event>, m: nat, l: nat) {
    forall u: int :: After(m, l, u) !in log
  }

  // ---------------------------------------------------------------- what always holds

  predicate Rising(s: seq<nat>) {
    forall i, j :: 0 <= i < j < |s| ==> s[i] < s[j]
  }

  /** The listeners of a message are in the order they were registered. */
  predicate InOrder(nodes: seq<ListenerPvt>) {
    forall i, j :: 0 <= i < j < |nodes| ==> nodes[i].listener < nodes[j].listener
  }

  /** A call that is still to come: its listener is there, and was called before the write. */
  ghost predicate Due(s: State, m: nat, n: ListenerPvt) {
    && n.listener in s.listeners && Before(m, n.listener, n.userPvt) in s.log && NotAfter(s.log, m, n.listener)
  }

  ghost predicate Facts(s: State) {
    && Rising(s.listeners) && (forall l :: l in s.listeners ==> l < s.nextListener && Unregistered(l) !in s.log)
    && (forall l :: l >= s.nextListener ==> Unregistered(l) !in s.log)
    && (forall m :: m in s.messages ==> m < s.nextMessage && InOrder(s.messages[m]))
    && (forall m, k :: m in s.messages && 0 <= k < |s.messages[m]| ==> Due(s, m, s.messages[m][k]))
    && (forall m, l: nat :: m >= s.nextMessage ==> Unseen(s.log, m, l) && NotAfter(s.log, m, l))
    && Disciplined(Proper, s.log)
  }

  ghost predicate Inv(s: State) {
    Sealed(Facts, s)
  }

  // ---------------------------------------------------------------- steps

  lemma ListenerAdded(s: State)
    requires Inv(s)
    ensures Inv(s.(listeners := s.listeners + [s.nextListener], nextListener := s.nextListener + 1))
  {
    var t := s.(listeners := s.listeners + [s.nextListener], nextListener := s.nextListener + 1);
    Unseal(Facts, s);
    Unseal(Facts, t);
    forall m, k | m in t.messages && 0 <= k < |t.messages[m]| ensures Due(t, m, t.messages[m][k]) {
      assert Due(s, m, s.messages[m][k]);
    }
    assert forall i :: 0 <= i < |s.listeners| ==> s.listeners[i] in s.listeners;
  }

  lemma MessageAdded(s: State)
    requires Inv(s)
    ensures Inv(s.(messages := s.messages[s.nextMessage := []], nextMessage := s.nextMessage + 1))
    ensures s.nextMessage !in s.messages && forall l: nat :: Unseen(s.log, s.nextMessage, l)
  {
    Unseal(Facts, s);
    Unseal(Facts, s.(messages := s.messages[s.nextMessage := []], nextMessage := s.nextMessage + 1));
  }

  /** A listener is called before a write and leaves a value. */
  function CalledBefore(s: State, m: nat, l: nat, u: int): State
    requires m in s.messages
  {
    s.(log := s.log + [Before(m, l, u)], messages := s.messages[m := s.messages[m] + [ListenerPvt(l, u)]])
  }

  lemma BeforeKeeps(s: State, m: nat, l: nat, u: int)
    requires Inv(s) && m in s.messages && l in s.listeners && Unseen(s.log, m, l)
    requires forall k :: 0 <= k < |s.messages[m]| ==> s.messages[m][k].listener < l
    ensures Inv(CalledBefore(s, m, l, u))
  {
    var t := CalledBefore(s, m, l, u);
    Unseal(Facts, s);
    Unseal(Facts, t);
    DisciplinedSnoc(Proper, s.log, Before(m, l, u));
    DueBefore(s, m, l, u);
    forall x: nat, y: nat | x >= t.nextMessage ensures Unseen(t.log, x, y) && NotAfter(t.log, x, y) {
      assert Unseen(s.log, x, y) && NotAfter(s.log, x, y);
    }
  }

  lemma DueBefore(s: State, m: nat, l: nat, u: int)
    requires m in s.messages && l in s.listeners && Unseen(s.log, m, l) && Disciplined(Proper, s.log)
    requires forall a, k :: a in s.messages && 0 <= k < |s.messages[a]| ==> Due(s, a, s.messages[a][k])
    ensures var t := CalledBefore(s, m, l, u);
            forall a, k :: a in t.messages && 0 <= k < |t.messages[a]| ==> Due(t, a, t.messages[a][k])
  {
    var t := CalledBefore(s, m, l, u);
    forall v: int ensures After(m, l, v) !in s.log {
      NoAfterUnseen(s.log, m, l, v);
    }
    forall a, k | a in t.messages && 0 <= k < |t.messages[a]| ensures Due(t, a, t.messages[a][k]) {
      if a != m || k < |s.messages[m]| {
        assert Due(s, a, s.messages[a][k]);
      }
    }
  }

  /** Without a call before there is none after. */
  lemma NoAfterUnseen(log: seq<Event>, m: nat, l: nat, v: int)
    requires Disciplined(Proper, log) && Unseen(log, m, l)
    ensures After(m, l, v) !in log
  {
    forall k | 0 <= k < |log| ensures log[k] != After(m, l, v) {
      ProperAt(Proper, log, k);
      assert forall u: int :: Before(m, l, u) in log[..k] ==> Before(m, l, u) in log;
    }
  }

  /** The first listener of a message is called after the write. */
  function CalledAfter(s: State, m: nat): State
    requires m in s.messages && s.messages[m] != []
  {
    var n := s.messages[m][0];
    s.(log := s.log + [After(m, n.listener, n.userPvt)], messages := s.messages[m := s.messages[m][1..]])
  }

  lemma AfterKeeps(s: State, m: nat)
    requires Inv(s) && m in s.messages && s.messages[m] != []
    ensures Inv(CalledAfter(s, m))
  {
    var t := CalledAfter(s, m);
    var n := s.messages[m][0];
    Unseal(Facts, s);
    Unseal(Facts, t);
    assert Due(s, m, n);
    DisciplinedSnoc(Proper, s.log, After(m, n.listener, n.userPvt));
    forall a, k | a in t.messages && 0 <= k < |t.messages[a]| ensures Due(t, a, t.messages[a][k]) {
      if a == m {
        assert Due(s, a, s.messages[a][k + 1]) && s.messages[a][0].listener < s.messages[a][k + 1].listener;
      } else {
        assert Due(s, a, s.messages[a][k]);
      }
    }
    forall x: nat, y: nat | x >= t.nextMessage ensures Unseen(t.log, x, y) && NotAfter(t.log, x, y) {
      assert Unseen(s.log, x, y) && NotAfter(s.log, x, y);
    }
  }

  lemma MessageGone(s: State, m: nat)
    requires Inv(s)
    ensures Inv(s.(messages := s.messages - {m}))
  {
    Unseal(Facts, s);
    Unseal(Facts, s.(messages := s.messages - {m}));
  }

  /** The calls still to come, without those to one listener. */
  function Purged(nodes: seq<ListenerPvt>, l: nat, n: nat): seq<ListenerPvt>
    requires n <= |nodes|
  {
    if n == 0 then []
    else
      var r := Purged(nodes, l, n - 1);
      if nodes[n - 1].listener == l then r else r + [nodes[n - 1]]
  }

  /** Exactly the calls to the others are left. */
  lemma {:induction false} PurgedLeft(nodes: seq<ListenerPvt>, l: nat, n: nat)
    requires n <= |nodes|
    ensures forall x :: x in Purged(nodes, l, n) <==> x in nodes[..n] && x.listener != l
  {
    if n > 0 {
      PurgedLeft(nodes, l, n - 1);
      assert nodes[..n] == nodes[..n - 1] + [nodes[n - 1]];
    }
  }

  lemma {:induction false} PurgedInOrder(nodes: seq<ListenerPvt>, l: nat, n: nat)
    requires n <= |nodes| && InOrder(nodes)
    ensures InOrder(Purged(nodes, l, n))
  {
    if n > 0 {
      PurgedInOrder(nodes, l, n - 1);
      PurgedLeft(nodes, l, n - 1);
      var r := Purged(nodes, l, n - 1);
      forall i | 0 <= i < |r| ensures r[i].listener < nodes[n - 1].listener {
        assert r[i] in nodes[..n - 1];
      }
    }
  }

  function PurgedAll(messages: map<nat, seq<ListenerPvt>>, l: nat): map<nat, seq<ListenerPvt>> {
    map m | m in messages :: Purged(messages[m], l, |messages[m]|)
  }

  /** What is left of the calls to come when one listener is taken out of them. */
  ghost predicate LeftWithout(left: seq<ListenerPvt>, nodes: seq<ListenerPvt>, l: nat) {
    forall n :: n in left <==> n in nodes && n.listener != l
  }

  lemma PurgedAllLeft(messages: map<nat, seq<ListenerPvt>>, l: nat)
    ensures forall m :: m in messages ==> LeftWithout(PurgedAll(messages, l)[m], messages[m], l)
  {
    forall m | m in messages ensures LeftWithout(PurgedAll(messages, l)[m], messages[m], l) {
      PurgedLeft(messages[m], l, |messages[m]|);
      assert messages[m][..|messages[m]|] == messages[m];
    }
  }

  /** A listener and every call to it still to come are gone. */
  function Gone(s: State, l: nat): State {
    s.(log := s.log + [Unregistered(l)], listeners := Without(s.listeners, l), messages := PurgedAll(s.messages, l))
  }

  lemma RisingCons(x: nat, r: seq<nat>)
    requires Rising(r) && forall y :: y in r ==> x < y
    ensures Rising([x] + r)
  {
    assert forall i :: 0 <= i < |r| ==> r[i] in r;
  }

  lemma RisingTail(s: seq<nat>)
    requires Rising(s) && s != []
    ensures Rising(s[1..]) && forall y :: y in s[1..] ==> s[0] < y
  {
  }

  lemma {:induction false} WithoutRising(s: seq<nat>, x: nat)
    requires Rising(s)
    ensures Rising(Without(s, x))
  {
    if s != [] {
      RisingTail(s);
      WithoutRising(s[1..], x);
      RisingCons(s[0], Without(s[1..], x));
    }
  }

  /** A call that is left was to come before. */
  lemma DueWithout(s: State, l: nat, m: nat, n: ListenerPvt)
    requires m in s.messages && n in Purged(s.messages[m], l, |s.messages[m]|)
    requires forall k :: 0 <= k < |s.messages[m]| ==> Due(s, m, s.messages[m][k])
    ensures Due(Gone(s, l), m, n)
  {
    PurgedLeft(s.messages[m], l, |s.messages[m]|);
    var j :| 0 <= j < |s.messages[m]| && s.messages[m][j] == n;
    assert Due(s, m, s.messages[m][j]);
  }

  lemma GoneKeeps(s: State, l: nat)
    requires Inv(s) && l in s.listeners
    ensures Inv(Gone(s, l))
  {
    var t := Gone(s, l);
    Unseal(Facts, s);
    Unseal(Facts, t);
    WithoutRising(s.listeners, l);
    DisciplinedSnoc(Proper, s.log, Unregistered(l));
    forall m | m in t.messages ensures InOrder(t.messages[m]) {
      PurgedInOrder(s.messages[m], l, |s.messages[m]|);
    }
    forall m, k | m in t.messages && 0 <= k < |t.messages[m]| ensures Due(t, m, t.messages[m][k]) {
      DueWithout(s, l, m, t.messages[m][k]);
    }
    forall x: nat, y: nat | x >= t.nextMessage ensures Unseen(t.log, x, y) && NotAfter(t.log, x, y) {
      assert Unseen(s.log, x, y) && NotAfter(s.log, x, y);
    }
  }

  /** The calls of one write, in order. */
  function BeforeCalls(m: nat, listeners: seq<nat>, answers: nat -> int, n: nat): seq<Event>
    requires n <= |listeners|
  {
    if n == 0 then []
    else BeforeCalls(m, listeners, answers, n - 1) + [Before(m, listeners[n - 1], answers(listeners[n - 1]))]
  }

  lemma {:induction false} BeforeCallsAre(m: nat, listeners: seq<nat>, answers: nat -> int, n: nat)
    requires n <= |listeners|
    ensures var calls := BeforeCalls(m, listeners, answers, n);
            |calls| == n && forall k :: 0 <= k < n ==> calls[k] == Before(m, listeners[k], answers(listeners[k]))
  {
    if n > 0 {
      BeforeCallsAre(m, listeners, answers, n - 1);
    }
  }

  lemma {:induction false} AfterCallsAre(m: nat, nodes: seq<ListenerPvt>, n: nat)
    requires n <= |nodes|
    ensures var calls := AfterCalls(m, nodes, n);
            |calls| == n && forall k :: 0 <= k < n ==> calls[k] == After(m, nodes[k].listener, nodes[k].userPvt)
  {
    if n > 0 {
      AfterCallsAre(m, nodes, n - 1);
    }
  }

  function AfterCalls(m: nat, nodes: seq<ListenerPvt>, n: nat): seq<Event>
    requires n <= |nodes|
  {
    if n == 0 then [] else AfterCalls(m, nodes, n - 1) + [After(m, nodes[n - 1].listener, nodes[n - 1].userPvt)]
  }

  function Nodes(listeners: seq<nat>, answers: nat -> int): (r: seq<ListenerPvt>)
    ensures |r| == |listeners|
  {
    seq(|listeners|, k requires 0 <= k < |listeners| => ListenerPvt(listeners[k], answers(listeners[k])))
  }

  // ---------------------------------------------------------------- the promise

  /** Calls of the same listener for the same message. */
  predicate SameCall(a: Event, b: Event) {
    !a.Unregistered? && !b.Unregistered? && a.message == b.message && a.listener == b.listener
  }

  /** In any run: a call after a write has exactly one call to the same listener for the same
      message before it, which left the value it is given; it is the only one; and the listener
      has not been unregistered by then. */
  lemma Pairing(s: State, k: nat)
    requires Inv(s) && k < |s.log| && s.log[k].After?
    ensures var e := s.log[k];
            && (exists j :: 0 <= j < k && s.log[j] == Before(e.message, e.listener, e.userPvt))
            && (forall j :: 0 <= j < |s.log| && s.log[j].Before? && SameCall(s.log[j], e) ==>
                s.log[j].userPvt == e.userPvt)
            && (forall i, j :: 0 <= i < j < |s.log| && s.log[i].Before? && s.log[j].Before? ==>
                !SameCall(s.log[i], s.log[j]))
            && (forall j :: 0 <= j < |s.log| && s.log[j].After? && SameCall(s.log[j], e) ==> j == k)
            && (forall j :: 0 <= j < k ==> s.log[j] != Unregistered(e.listener))
  {
    Unseal(Facts, s);
    var e := s.log[k];
    ProperAt(Proper, s.log, k);
    forall i, j | 0 <= i < j < |s.log| && s.log[i].Before? && s.log[j].Before?
      ensures !SameCall(s.log[i], s.log[j])
    {
      ProperAt(Proper, s.log, j);
      assert s.log[..j][i] == s.log[i];
    }
    forall i, j | 0 <= i < j < |s.log| && s.log[i].After? && s.log[j].After?
      ensures !SameCall(s.log[i], s.log[j])
    {
      ProperAt(Proper, s.log, j);
      assert s.log[..j][i] == s.log[i];
    }
    forall j | 0 <= j < k ensures s.log[j] != Unregistered(e.listener) {
      assert s.log[..k][j] == s.log[j];
    }
  }

  /** Every call still to come is to a listener that is registered. */
  lemma NoStaleNode(s: State, m: nat, k: nat)
    requires Inv(s) && m in s.messages && k < |s.messages[m]|
    ensures s.messages[m][k].listener in s.listeners
  {
    Unseal(Facts, s);
    assert Due(s, m, s.messages[m][k]);
  }

  class AsTrapWrite {
    var listenerList: seq<nat>
    var messages: map<nat, seq<ListenerPvt>>
    var nextListener: nat
    var nextMessage: nat
    ghost var log: seq<Event>

    ghost function Now(): State
      reads this
    {
      State(listenerList, messages, log, nextListener, nextMessage)
    }

    ghost predicate Valid()
      reads this
    {
      Inv(Now())
    }

    constructor ()
      ensures Valid() && Now() == State([], map[], [], 0, 0)
    {
      listenerList, messages, nextListener, nextMessage, log := [], map[], 0, 0, [];
      new;
      Unseal(Facts, Now());
    }

    method RegisterListener() returns (id: nat)
      requires Valid()
      modifies this
      ensures Valid() && id == old(nextListener) && listenerList == old(listenerList) + [id]
      ensures messages == old(messages) && log == old(log)
    {
      ListenerAdded(Now());
      id := nextListener;
      nextListener := nextListener + 1;
      listenerList := listenerList + [id];
    }

    /** Removes the nodes of one listener from one list. */
    method Purge(nodes: seq<ListenerPvt>, id: nat) returns (r: seq<ListenerPvt>)
      ensures r == Purged(nodes, id, |nodes|)
    {
      r := [];
      var k := 0;
      while k < |nodes|
        invariant 0 <= k <= |nodes| && r == Purged(nodes, id, k)
      {
        if nodes[k].listener != id {
          r := r + [nodes[k]];
        }
        k := k + 1;
      }
    }

    /** Takes a listener out of every message and out of the list. */
    method UnregisterListener(id: nat)
      requires Valid() && id in listenerList
      modifies this
      ensures Valid() && Now() == Gone(old(Now()), id)
      ensures forall l :: l in listenerList <==> l in old(listenerList) && l != id
      ensures messages.Keys == old(messages).Keys && log == old(log) + [Unregistered(id)]
      ensures forall m :: m in messages ==> LeftWithout(messages[m], old(messages)[m], id)
    {
      GoneKeeps(Now(), id);
      PurgedAllLeft(messages, id);
      PurgeAll(id);
      listenerList := Without(listenerList, id);
      log := log + [Unregistered(id)];
    }

    method PurgeAll(id: nat)
      modifies `messages
      ensures messages == PurgedAll(old(messages), id)
    {
      var todo := messages.Keys;
      while todo != {}
        invariant todo <= messages.Keys == old(messages).Keys
        invariant forall m :: m in messages ==>
          messages[m] == if m in todo then old(messages)[m] else Purged(old(messages)[m], id, |old(messages)[m]|)
        decreases todo
      {
        var m :| m in todo;
        var r := Purge(messages[m], id);
        messages := messages[m := r];
        todo := todo - {m};
      }
    }

    /** Calls every listener before a write, in the order they were registered, and keeps what
        each of them leaves. Without listeners there is no message. */
    method BeforeWrite(answers: nat -> int) returns (m: Option<nat>)
      requires Valid()
      modifies this
      ensures Valid() && listenerList == old(listenerList)
      ensures m == if listenerList == [] then None else Some(old(nextMessage))
      ensures m.None? ==> Now() == old(Now())
      ensures m.Some? ==> messages == old(messages)[m.value := Nodes(listenerList, answers)]
      ensures m.Some? ==> log == old(log) + BeforeCalls(m.value, listenerList, answers, |listenerList|)
      ensures m.Some? ==> m.value !in old(messages) && m.value in messages
      ensures m.Some? ==> |log| == |old(log)| + |listenerList| && |messages[m.value]| == |listenerList|
      ensures m.Some? ==> forall k :: 0 <= k < |listenerList| ==>
        log[|old(log)| + k] == Before(m.value, listenerList[k], answers(listenerList[k]))
      ensures m.Some? ==> forall k :: 0 <= k < |listenerList| ==>
        messages[m.value][k] == ListenerPvt(listenerList[k], answers(listenerList[k]))
    {
      if |listenerList| <= 0 {
        return None;
      }
      ghost var s := Now();
      MessageAdded(s);
      var p := nextMessage;
      nextMessage := nextMessage + 1;
      messages := messages[p := []];
      var k := 0;
      while k < |listenerList|
        invariant 0 <= k <= |listenerList| && Valid() && listenerList == s.listeners
        invariant p in messages && messages == s.messages[p := Nodes(listenerList, answers)[..k]]
        invariant log == s.log + BeforeCalls(p, listenerList, answers, k)
        invariant nextMessage == p + 1 && nextListener == s.nextListener
      {
        var l := listenerList[k];
        var u := answers(l);
        NotYetCalled(Now(), s.log, p, answers, k);
        CallLast(p, l, u);
        ghost var nodes := Nodes(listenerList, answers);
        assert nodes[..k + 1] == nodes[..k] + [nodes[k]];
        k := k + 1;
      }
      assert Nodes(listenerList, answers)[..k] == Nodes(listenerList, answers);
      BeforeCallsAre(p, listenerList, answers, k);
      return Some(p);
    }

    method CallLast(p: nat, l: nat, u: int)
      requires Valid() && p in messages && l in listenerList && Unseen(log, p, l)
      requires forall k :: 0 <= k < |messages[p]| ==> messages[p][k].listener < l
      modifies `log, `messages
      ensures Valid() && messages == old(messages)[p := old(messages[p]) + [ListenerPvt(l, u)]]
      ensures log == old(log) + [Before(p, l, u)]
    {
      BeforeKeeps(Now(), p, l, u);
      log := log + [Before(p, l, u)];
      messages := messages[p := messages[p] + [ListenerPvt(l, u)]];
    }

    /** Calls the listeners of a message after the write, in order, each with the value it left. */
    method AfterWrite(m: Option<nat>)
      requires Valid() && (m.Some? ==> m.value in messages)
      modifies this
      ensures Valid() && listenerList == old(listenerList)
      ensures m.None? ==> Now() == old(Now())
      ensures m.Some? ==> messages == old(messages) - {m.value}
      ensures m.Some? ==>
        log == old(log) + AfterCalls(m.value, old(messages[m.value]), |old(messages[m.value])|)
      ensures m.Some? ==> |log| == |old(log)| + |old(messages[m.value])|
      ensures m.Some? ==> forall k :: 0 <= k < |old(messages[m.value])| ==>
        var n := old(messages[m.value])[k]; log[|old(log)| + k] == After(m.value, n.listener, n.userPvt)
    {
      if m.None? {
        return;
      }
      ghost var s := Now();
      var p := m.value;
      CallAll(p);
      AfterCallsAre(p, s.messages[p], |s.messages[p]|);
      MessageGone(Now(), p);
      messages := messages - {p};
      assert messages == s.messages - {p};
    }

    method CallAll(p: nat)
      requires Valid() && p in messages
      modifies `log, `messages
      ensures Valid() && messages == old(messages)[p := []]
      ensures log == old(log) + AfterCalls(p, old(messages[p]), |old(messages[p])|)
    {
      ghost var s := Now();
      ghost var nodes := messages[p];
      ghost var k := 0;
      while messages[p] != []
        invariant 0 <= k <= |nodes| && Valid() && p in messages && messages == s.messages[p := nodes[k..]]
        invariant log == s.log + AfterCalls(p, nodes, k)
        decreases |messages[p]|
      {
        CallFirst(p);
        k := k + 1;
      }
    }

    method CallFirst(p: nat)
      requires Valid() && p in messages && messages[p] != []
      modifies `log, `messages
      ensures Valid() && messages == old(messages)[p := old(messages[p])[1..]]
      ensures var n := old(messages[p])[0]; log == old(log) + [After(p, n.listener, n.userPvt)]
    {
      AfterKeeps(Now(), p);
      var n := messages[p][0];
      log := log + [After(p, n.listener, n.userPvt)];
      messages := messages[p := messages[p][1..]];
    }
  }

  /** While a message is being called, the listeners ahead have not been called for it. */
  lemma NotYetCalled(s: State, was: seq<Event>, m: nat, answers: nat -> int, k: nat)
    requires Inv(s) && k < |s.listeners| && m in s.messages
    requires s.messages[m] == Nodes(s.listeners, answers)[..k]
    requires s.log == was + BeforeCalls(m, s.listeners, answers, k) && forall l: nat :: Unseen(was, m, l)
    ensures Unseen(s.log, m, s.listeners[k])
    ensures forall j :: 0 <= j < |s.messages[m]| ==> s.messages[m][j].listener < s.listeners[k]
  {
    Unseal(Facts, s);
    CallsOf(m, s.listeners, answers, k);
    forall u: int ensures Before(m, s.listeners[k], u) !in s.log {
      assert Unseen(was, m, s.listeners[k]);
    }
  }

  lemma {:induction false} CallsOf(m: nat, listeners: seq<nat>, answers: nat -> int, n: nat)
    requires n <= |listeners|
    ensures forall e :: e in BeforeCalls(m, listeners, answers, n) ==> e.Before? && e.listener in listeners[..n]
  {
    if n > 0 {
      CallsOf(m, listeners, answers, n - 1);
      assert listeners[..n] == listeners[..n - 1] + [listeners[n - 1]];
    }
  }
}
