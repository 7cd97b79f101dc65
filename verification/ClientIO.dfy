/** Requests in flight on the client: one table of identifiers for all channels, one queue of
    requests for each channel, and the promise that every request ends exactly once. */
module ClientIOs {
  import opened Lists
  import opened Options
  import opened Sealing

  const ID_RANGE := 0x1_0000_0000
  const ECA_NORMAL := 1
  const ECA_DISCONN := 192
  const ECA_CHANDESTROY := 440

  datatype Kind = ReadNotify | WriteNotify | Subscription

  /** A request: its identifier, its channel, and for a subscription whether the server has been
      asked for it. */
  datatype Io = Io(id: nat, kind: Kind, chan: nat, subscribed: bool)

  datatype Chan = Chan(
    connected: bool, installed: bool, readPermit: bool, writePermit: bool, count: nat, eventq: seq<nat>)

  /** What the user and the circuit see of a request. */
  datatype Event =
    | Completed(io: nat)
    | Failed(io: nat, status: int)
    | Ended(io: nat)
    | Update(io: nat)
    | UpdateFailed(io: nat, status: int)
    | Asked(io: nat)
    | Cancelled(io: nat)
    | Dropped(io: nat)

  /** The client, with its log and the one-shot requests that a response of status ECA_NORMAL has
      named. */
  datatype State = State(
    ios: map<nat, Io>, ioTable: map<nat, nat>, chans: map<nat, Chan>, log: seq<Event>, next: nat,
    answered: set<nat>)

  // ---------------------------------------------------------------- what the log says

  /** Events that end a request. */
  predicate Final(e: Event, p: nat) {
    (e.Completed? || e.Failed? || e.Ended?) && e.io == p
  }

  function Finals(log: seq<Event>, p: nat): nat {
    if log == [] then 0
    else Finals(log[..|log| - 1], p) + if Final(log[|log| - 1], p) then 1 else 0
  }

  lemma FinalsSnoc(log: seq<Event>, e: Event, p: nat)
    ensures Finals(log + [e], p) == Finals(log, p) + if Final(e, p) then 1 else 0
  {
    assert (log + [e])[..|log|] == log;
  }

  /** Whether the server has been asked for a subscription, going by what was sent to it since
      the last disconnection. */
  function Sent(log: seq<Event>, p: nat): bool {
    if log == [] then false
    else
      var e := log[|log| - 1];
      if e == Asked(p) then true
      else if e == Cancelled(p) || e == Dropped(p) then false
      else Sent(log[..|log| - 1], p)
  }

  lemma SentSnoc(log: seq<Event>, e: Event, p: nat)
    ensures Sent(log + [e], p) ==
      if e == Asked(p) then true else if e == Cancelled(p) || e == Dropped(p) then false else Sent(log, p)
  {
    assert (log + [e])[..|log|] == log;
  }

  /** Between disconnections a subscription is asked for at most once, and it is cancelled only
      after it was asked for. */
  predicate Proper(log: seq<Event>, e: Event) {
    (e.Asked? ==> !Sent(log, e.io)) && (e.Cancelled? ==> Sent(log, e.io))
  }

  // ---------------------------------------------------------------- what holds between calls

  /** The table holds exactly the requests there are, under their identifiers. */
  ghost predicate TableOk(ios: map<nat, Io>, ioTable: map<nat, nat>) {
    && (forall id :: id in ioTable ==> ioTable[id] in ios && ios[ioTable[id]].id == id)
    && (forall p :: p in ios ==> ios[p].id in ioTable && ioTable[ios[p].id] == p)
  }

  /** Each request is in the queue of its channel and in no other, once. */
  ghost predicate QueuesOk(ios: map<nat, Io>, chans: map<nat, Chan>) {
    && (forall c :: c in chans ==> Distinct(chans[c].eventq))
    && (forall c, p :: c in chans && p in chans[c].eventq ==> p in ios && ios[p].chan == c)
    && (forall p :: p in ios ==> ios[p].chan in chans && p in chans[ios[p].chan].eventq)
  }

  /** A request that is still there has not ended, one that is not has ended once. */
  ghost predicate OnceOk(ios: map<nat, Io>, log: seq<Event>, next: nat) {
    && (forall p :: p in ios ==> p < next)
    && (forall p :: 0 <= p < next ==> Finals(log, p) == if p in ios then 0 else 1)
  }

  /** A subscription knows whether the server has been asked for it. */
  ghost predicate SentOk(ios: map<nat, Io>, log: seq<Event>, next: nat) {
    && Disciplined(Proper, log)
    && (forall p :: p in ios && ios[p].kind.Subscription? ==> ios[p].subscribed == Sent(log, p))
    && (forall p :: p >= next ==> !Sent(log, p) && Finals(log, p) == 0)
  }

  /** A user hears of success exactly for the requests that a normal response has named. */
  ghost predicate AnsweredOk(log: seq<Event>, answered: set<nat>) {
    forall p: nat :: Completed(p) in log <==> p in answered
  }

  ghost predicate Facts(s: State) {
    && TableOk(s.ios, s.ioTable) && QueuesOk(s.ios, s.chans)
    && OnceOk(s.ios, s.log, s.next) && SentOk(s.ios, s.log, s.next) && AnsweredOk(s.log, s.answered)
  }

  ghost predicate Inv(s: State) {
    Sealed(Facts, s)
  }

  lemma Named(s: State, id: nat)
    requires Inv(s) && id in s.ioTable
    ensures var p := s.ioTable[id]; p in s.ios && s.ios[p].id == id && s.ios[p].chan in s.chans
  {
    Unseal(Facts, s);
  }

  lemma NextIsNew(s: State)
    requires Inv(s)
    ensures s.next !in s.ios
  {
    Unseal(Facts, s);
  }

  lemma QueuedIsNamed(s: State, c: nat, p: nat)
    requires Inv(s) && c in s.chans && p in s.chans[c].eventq
    ensures p in s.ios && s.ios[p].chan == c && s.ios[p].id in s.ioTable && s.ioTable[s.ios[p].id] == p
  {
    Unseal(Facts, s);
  }

  // ---------------------------------------------------------------- steps on values

  function Note(s: State, e: Event): State {
    s.(log := s.log + [e])
  }

  /** A request leaves the queue of its channel and is gone. */
  function Unlink(s: State, p: nat): State
    requires p in s.ios && s.ios[p].chan in s.chans
  {
    var c := s.ios[p].chan;
    s.(ios := s.ios - {p}, chans := s.chans[c := s.chans[c].(eventq := Without(s.chans[c].eventq, p))])
  }

  function Uninstall(s: State, id: nat): State {
    s.(ioTable := s.ioTable - {id})
  }

  /** A response of status ECA_NORMAL names a request. */
  function Answered(s: State, p: nat): State
    requires p in s.ios
  {
    if s.ios[p].kind.Subscription? then s else s.(answered := s.answered + {p})
  }

  function Connected(s: State, p: nat): bool
    requires p in s.ios && s.ios[p].chan in s.chans
  {
    s.chans[s.ios[p].chan].connected
  }

  /** A completion without data, as a request of each kind takes it. */
  function Completion(s: State, p: nat): State
    requires p in s.ios && s.ios[p].chan in s.chans
  {
    match s.ios[p].kind
    case ReadNotify => Unlink(s, p)
    case WriteNotify => Note(Unlink(s, p), Completed(p))
    case Subscription => s
  }

  /** A completion with data. */
  function CompletionWithData(s: State, p: nat): State
    requires p in s.ios && s.ios[p].chan in s.chans
  {
    match s.ios[p].kind
    case ReadNotify => Note(Unlink(s, p), Completed(p))
    case WriteNotify => Unlink(s, p)
    case Subscription => if Connected(s, p) then Note(s, Update(p)) else s
  }

  function Exception(s: State, p: nat, status: int): State
    requires p in s.ios && s.ios[p].chan in s.chans
  {
    if !s.ios[p].kind.Subscription? then Note(Unlink(s, p), Failed(p, status))
    else if status == ECA_CHANDESTROY then Unlink(Note(s, Ended(p)), p)
    else
      var t := if status == ECA_DISCONN then
          Note(s.(ios := s.ios[p := s.ios[p].(subscribed := false)]), Dropped(p))
        else s;
      if Connected(s, p) then Note(t, UpdateFailed(p, status)) else t
  }

  // ---------------------------------------------------------------- what users are told

  /** What the user of a subscription that stays is told of a response. */
  function SubscriberHears(p: nat, connected: bool, status: int): seq<Event> {
    (if status == ECA_DISCONN then [Dropped(p)] else [])
    + (if !connected then [] else if status == ECA_NORMAL then [Update(p)] else [UpdateFailed(p, status)])
  }

  /** What comes of the first requests of a queue, in order, when their channel loses its circuit. */
  function Losses(ios: map<nat, Io>, q: seq<nat>, connected: bool, n: nat): seq<Event>
    requires n <= |q| && forall p :: p in q ==> p in ios
  {
    if n == 0 then []
    else
      var p := q[n - 1];
      Losses(ios, q, connected, n - 1) +
      if !ios[p].kind.Subscription? then [Failed(p, ECA_DISCONN)]
      else if connected then [Dropped(p), UpdateFailed(p, ECA_DISCONN)]
      else [Dropped(p)]
  }

  /** What comes of a request that is cancelled. */
  function Farewell(p: nat, io: Io): seq<Event> {
    if !io.kind.Subscription? then [Failed(p, ECA_CHANDESTROY)]
    else if io.subscribed then [Cancelled(p), Ended(p)]
    else [Ended(p)]
  }

  /** What comes of the first requests of a queue, in order, when their channel is destroyed. */
  function Farewells(ios: map<nat, Io>, q: seq<nat>, n: nat): seq<Event>
    requires n <= |q| && forall p :: p in q ==> p in ios
  {
    if n == 0 then [] else Farewells(ios, q, n - 1) + Farewell(q[n - 1], ios[q[n - 1]])
  }

  /** What is asked for when a channel has been connected again: the subscriptions among the first
      requests of its queue, in order, that have not been asked for and that the circuit does not
      throw at. */
  function Asks(ios: map<nat, Io>, q: seq<nat>, throwing: set<nat>, n: nat): seq<Event>
    requires n <= |q| && forall p :: p in q ==> p in ios
  {
    if n == 0 then []
    else
      var p := q[n - 1];
      Asks(ios, q, throwing, n - 1) +
      if ios[p].kind.Subscription? && !ios[p].subscribed && p !in throwing then [Asked(p)] else []
  }

  // ---------------------------------------------------------------- what the steps keep

  lemma TableLess(ios: map<nat, Io>, ioTable: map<nat, nat>, p: nat)
    requires TableOk(ios, ioTable) && p in ios
    ensures TableOk(ios - {p}, ioTable - {ios[p].id})
  {
  }

  /** The queue of one channel without a request of its own. */
  function Shorter(chans: map<nat, Chan>, c: nat, p: nat): map<nat, Chan>
    requires c in chans
  {
    chans[c := chans[c].(eventq := Without(chans[c].eventq, p))]
  }

  lemma QueueMembers(ios: map<nat, Io>, chans: map<nat, Chan>, p: nat, d: nat, q: nat)
    requires QueuesOk(ios, chans) && p in ios && ios[p].chan in chans && d in chans
    ensures q in Shorter(chans, ios[p].chan, p)[d].eventq <==> q in chans[d].eventq && q != p
  {
    if d != ios[p].chan {
      assert p !in chans[d].eventq;
    }
  }

  lemma QueuesLess(s: State, p: nat)
    requires QueuesOk(s.ios, s.chans) && p in s.ios
    ensures s.ios[p].chan in s.chans && QueuesOk(Unlink(s, p).ios, Unlink(s, p).chans)
  {
    ShorterQueues(s.ios, s.chans, p);
  }

  lemma ShorterQueues(ios: map<nat, Io>, chans: map<nat, Chan>, p: nat)
    requires QueuesOk(ios, chans) && p in ios
    ensures ios[p].chan in chans && QueuesOk(ios - {p}, Shorter(chans, ios[p].chan, p))
  {
    var less, shorter := ios - {p}, Shorter(chans, ios[p].chan, p);
    forall c, q | c in shorter && q in shorter[c].eventq ensures q in less && less[q].chan == c {
      QueueMembers(ios, chans, p, c, q);
    }
    forall q | q in less ensures less[q].chan in shorter && q in shorter[less[q].chan].eventq {
      QueueMembers(ios, chans, p, ios[q].chan, q);
    }
  }

  lemma OnceLess(ios: map<nat, Io>, log: seq<Event>, next: nat, p: nat, e: Event)
    requires OnceOk(ios, log, next) && p in ios && Final(e, p)
    ensures OnceOk(ios - {p}, log + [e], next)
  {
    forall q | 0 <= q < next ensures Finals(log + [e], q) == if q in ios - {p} then 0 else 1 {
      FinalsSnoc(log, e, q);
    }
  }

  lemma SentLess(ios: map<nat, Io>, log: seq<Event>, next: nat, p: nat, e: Event)
    requires SentOk(ios, log, next) && p in ios && p < next && Final(e, p)
    ensures SentOk(ios - {p}, log + [e], next)
  {
    DisciplinedSnoc(Proper, log, e);
    forall q: nat ensures Sent(log + [e], q) == Sent(log, q) {
      SentSnoc(log, e, q);
    }
    forall q: nat | q >= next ensures Finals(log + [e], q) == 0 {
      FinalsSnoc(log, e, q);
    }
  }

  lemma AnsweredLess(log: seq<Event>, answered: set<nat>, e: Event, p: nat)
    requires AnsweredOk(log, answered) && Final(e, p)
    ensures AnsweredOk(log + [e], if e.Completed? then answered + {p} else answered)
  {
  }

  /** A request that leaves the table, its queue and the program, with its final event. */
  lemma Finished(s: State, p: nat, e: Event)
    requires Facts(s) && p in s.ios && Final(e, p) && s.ios[p].chan in s.chans
    requires e.Completed? ==> !s.ios[p].kind.Subscription?
    ensures Facts(Note(Unlink(Uninstall(if e.Completed? then Answered(s, p) else s, s.ios[p].id), p), e))
  {
    AnsweredLess(s.log, s.answered, e, p);
    TableLess(s.ios, s.ioTable, p);
    QueuesLess(s, p);
    OnceLess(s.ios, s.log, s.next, p, e);
    SentLess(s.ios, s.log, s.next, p, e);
  }

  lemma PlainEvent(log: seq<Event>, e: Event)
    requires e.Update? || e.UpdateFailed?
    ensures forall q: nat :: Sent(log + [e], q) == Sent(log, q)
    ensures forall q: nat :: Finals(log + [e], q) == Finals(log, q)
  {
    forall q: nat ensures Sent(log + [e], q) == Sent(log, q) && Finals(log + [e], q) == Finals(log, q) {
      SentSnoc(log, e, q);
      FinalsSnoc(log, e, q);
    }
  }

  /** An event that ends nothing and asks for nothing. */
  lemma Noted(s: State, e: Event)
    requires Facts(s) && (e.Update? || e.UpdateFailed?)
    ensures Facts(Note(s, e))
  {
    DisciplinedSnoc(Proper, s.log, e);
    PlainEvent(s.log, e);
  }

  /** A subscription is asked for, cancelled, or told of a disconnection. */
  lemma Toggled(s: State, p: nat, e: Event)
    requires Facts(s) && p in s.ios && s.ios[p].kind.Subscription?
    requires e == Asked(p) || e == Cancelled(p) || e == Dropped(p)
    requires e.Asked? ==> !s.ios[p].subscribed
    requires e.Cancelled? ==> s.ios[p].subscribed
    ensures Facts(Note(s.(ios := s.ios[p := s.ios[p].(subscribed := e.Asked?)]), e))
  {
    var ios := s.ios[p := s.ios[p].(subscribed := e.Asked?)];
    ToggledQueues(s.ios, s.ioTable, s.chans, p, e.Asked?);
    ToggledOnce(s.ios, s.log, s.next, p, e);
    ToggledSent(s.ios, s.log, s.next, p, e);
  }

  lemma ToggledQueues(ios: map<nat, Io>, ioTable: map<nat, nat>, chans: map<nat, Chan>, p: nat, subscribed: bool)
    requires TableOk(ios, ioTable) && QueuesOk(ios, chans) && p in ios
    ensures var more := ios[p := ios[p].(subscribed := subscribed)]; TableOk(more, ioTable) && QueuesOk(more, chans)
  {
  }

  lemma ToggledOnce(ios: map<nat, Io>, log: seq<Event>, next: nat, p: nat, e: Event)
    requires OnceOk(ios, log, next) && p in ios && (e == Asked(p) || e == Cancelled(p) || e == Dropped(p))
    ensures OnceOk(ios[p := ios[p].(subscribed := e.Asked?)], log + [e], next)
  {
    forall q: nat ensures Finals(log + [e], q) == Finals(log, q) {
      FinalsSnoc(log, e, q);
    }
  }

  lemma ToggledSent(ios: map<nat, Io>, log: seq<Event>, next: nat, p: nat, e: Event)
    requires SentOk(ios, log, next) && p in ios && p < next && Proper(log, e)
    requires e == Asked(p) || e == Cancelled(p) || e == Dropped(p)
    ensures SentOk(ios[p := ios[p].(subscribed := e.Asked?)], log + [e], next)
  {
    DisciplinedSnoc(Proper, log, e);
    forall q: nat ensures Sent(log + [e], q) == if q == p then e.Asked? else Sent(log, q) {
      SentSnoc(log, e, q);
    }
    forall q: nat ensures Finals(log + [e], q) == Finals(log, q) {
      FinalsSnoc(log, e, q);
    }
  }

  // ---------------------------------------------------------------- responses and their requests

  /** Which kinds a response may name without harm. */
  predicate WriteFits(kind: Kind, status: int) {
    kind.WriteNotify? || (status != ECA_NORMAL && (kind.ReadNotify? || status == ECA_CHANDESTROY))
  }

  predicate ReadFits(kind: Kind, status: int) {
    match kind
    case ReadNotify => true
    case WriteNotify => status != ECA_NORMAL
    case Subscription => status != ECA_CHANDESTROY
  }

  predicate EventFits(kind: Kind, status: int) {
    kind.Subscription? && status != ECA_CHANDESTROY
  }

  predicate ExceptionFits(kind: Kind, status: int) {
    kind.Subscription? ==> status == ECA_CHANDESTROY
  }

  lemma DropKeeps(s: State, p: nat, status: int)
    requires Facts(s) && p in s.ios && s.ios[p].kind.Subscription? && status != ECA_CHANDESTROY
    requires s.ios[p].chan in s.chans
    ensures Facts(Exception(s, p, status))
  {
    var t := s;
    if status == ECA_DISCONN {
      Toggled(s, p, Dropped(p));
      t := Note(s.(ios := s.ios[p := s.ios[p].(subscribed := false)]), Dropped(p));
    }
    if Connected(s, p) {
      Noted(t, UpdateFailed(p, status));
    }
  }

  lemma ExceptionFinishes(s: State, p: nat, status: int)
    requires Facts(s) && p in s.ios && ExceptionFits(s.ios[p].kind, status) && s.ios[p].chan in s.chans
    ensures Facts(Exception(Uninstall(s, s.ios[p].id), p, status))
  {
    Finished(s, p, if s.ios[p].kind.Subscription? then Ended(p) else Failed(p, status));
  }

  /** A request that is still there must be in the table. */
  lemma Orphan(s: State, t: State, p: nat)
    requires Facts(s) && p in s.ios && p in t.ios && t.ios[p].id == s.ios[p].id && s.ios[p].id !in t.ioTable
    ensures !Facts(t)
  {
  }

  /** The table must not name a request that is gone. */
  lemma Dangling(s: State, t: State, p: nat)
    requires Facts(s) && p in s.ios && p !in t.ios && t.ioTable == s.ioTable
    ensures !Facts(t)
  {
  }

  /** A request must not go without a final event. */
  lemma Lost(s: State, t: State, p: nat)
    requires Facts(s) && p in s.ios && p !in t.ios && t.log == s.log && t.next == s.next
    ensures !Facts(t)
  {
  }

  /** The state after a write-notify response, and when it is a good one. */
  lemma WriteResponse(s: State, p: nat, status: int)
    requires Inv(s) && p in s.ios && s.ios[p].chan in s.chans
    ensures var u := Uninstall(s, s.ios[p].id);
            var t := if status == ECA_NORMAL then Completion(Answered(u, p), p) else Exception(u, p, status);
            Inv(t) <==> WriteFits(s.ios[p].kind, status)
  {
    Unseal(Facts, s);
    if status == ECA_NORMAL {
      var t := Completion(Answered(Uninstall(s, s.ios[p].id), p), p);
      Unseal(Facts, t);
      match s.ios[p].kind
      case ReadNotify => Lost(s, t, p);
      case WriteNotify => Finished(s, p, Completed(p));
      case Subscription => Orphan(s, t, p);
    } else {
      ExceptionResponse(s, p, status);
    }
  }

  /** The state after a read-notify response: a subscription stays in the table. */
  lemma ReadResponse(s: State, p: nat, status: int)
    requires Inv(s) && p in s.ios && s.ios[p].chan in s.chans
    ensures var u := if s.ios[p].kind.Subscription? then s else Uninstall(s, s.ios[p].id);
            var t :=
              if status == ECA_NORMAL then CompletionWithData(Answered(u, p), p) else Exception(u, p, status);
            Inv(t) <==> ReadFits(s.ios[p].kind, status)
  {
    var u := if s.ios[p].kind.Subscription? then s else Uninstall(s, s.ios[p].id);
    var t := if status == ECA_NORMAL then CompletionWithData(Answered(u, p), p) else Exception(u, p, status);
    Unseal(Facts, s);
    Unseal(Facts, t);
    match s.ios[p].kind
    case ReadNotify =>
      if status == ECA_NORMAL {
        Finished(s, p, Completed(p));
      } else {
        ExceptionFinishes(s, p, status);
      }
    case WriteNotify =>
      if status == ECA_NORMAL {
        Lost(s, t, p);
      } else {
        ExceptionFinishes(s, p, status);
      }
    case Subscription =>
      if status == ECA_NORMAL {
        Noted(s, Update(p));
      } else if status == ECA_CHANDESTROY {
        Dangling(s, t, p);
      } else {
        DropKeeps(s, p, status);
      }
  }

  /** The state after a response that leaves the table alone. */
  lemma EventResponse(s: State, p: nat, status: int)
    requires Inv(s) && p in s.ios && s.ios[p].chan in s.chans
    ensures var t :=
              if status == ECA_NORMAL then CompletionWithData(Answered(s, p), p) else Exception(s, p, status);
            Inv(t) <==> EventFits(s.ios[p].kind, status)
    ensures Inv(Exception(s, p, status)) <==> EventFits(s.ios[p].kind, status)
  {
    ExceptionInPlace(s, p, status);
    if status == ECA_NORMAL {
      Unseal(Facts, s);
      Unseal(Facts, CompletionWithData(Answered(s, p), p));
      if s.ios[p].kind.Subscription? {
        Noted(s, Update(p));
      } else {
        Dangling(s, CompletionWithData(Answered(s, p), p), p);
      }
    }
  }

  lemma ExceptionInPlace(s: State, p: nat, status: int)
    requires Inv(s) && p in s.ios && s.ios[p].chan in s.chans
    ensures Inv(Exception(s, p, status)) <==> EventFits(s.ios[p].kind, status)
  {
    Unseal(Facts, s);
    Unseal(Facts, Exception(s, p, status));
    if EventFits(s.ios[p].kind, status) {
      DropKeeps(s, p, status);
    } else {
      Dangling(s, Exception(s, p, status), p);
    }
  }

  /** The state after an exception that takes the request off the table. */
  lemma ExceptionResponse(s: State, p: nat, status: int)
    requires Inv(s) && p in s.ios && s.ios[p].chan in s.chans
    ensures Inv(Exception(Uninstall(s, s.ios[p].id), p, status)) <==> ExceptionFits(s.ios[p].kind, status)
  {
    Unseal(Facts, s);
    Unseal(Facts, Exception(Uninstall(s, s.ios[p].id), p, status));
    if ExceptionFits(s.ios[p].kind, status) {
      ExceptionFinishes(s, p, status);
    } else {
      ExceptionOrphans(s, p, status);
    }
  }

  lemma ExceptionOrphans(s: State, p: nat, status: int)
    requires Facts(s) && p in s.ios && !ExceptionFits(s.ios[p].kind, status) && s.ios[p].chan in s.chans
    ensures !Facts(Exception(Uninstall(s, s.ios[p].id), p, status))
  {
    Orphan(s, Exception(Uninstall(s, s.ios[p].id), p, status), p);
  }

  // ---------------------------------------------------------------- requests come and go

  /** A request put into the table and at the end of its queue. */
  function Issue(s: State, p: nat, io: Io): State
    requires io.chan in s.chans
  {
    s.(ios := s.ios[p := io], ioTable := s.ioTable[io.id := p], next := p + 1,
       chans := s.chans[io.chan := s.chans[io.chan].(eventq := s.chans[io.chan].eventq + [p])])
  }

  lemma IssuedTable(ios: map<nat, Io>, ioTable: map<nat, nat>, p: nat, io: Io)
    requires TableOk(ios, ioTable) && p !in ios && io.id !in ioTable
    ensures TableOk(ios[p := io], ioTable[io.id := p])
  {
  }

  lemma IssuedQueues(ios: map<nat, Io>, chans: map<nat, Chan>, p: nat, io: Io)
    requires QueuesOk(ios, chans) && p !in ios && io.chan in chans
    ensures QueuesOk(ios[p := io], chans[io.chan := chans[io.chan].(eventq := chans[io.chan].eventq + [p])])
  {
    DistinctSnoc(chans[io.chan].eventq, p);
  }

  lemma Issued(s: State, io: Io)
    requires Facts(s) && io.chan in s.chans && io.id !in s.ioTable && !io.subscribed
    ensures Facts(Issue(s, s.next, io))
  {
    IssuedTable(s.ios, s.ioTable, s.next, io);
    IssuedQueues(s.ios, s.chans, s.next, io);
    IssuedOnce(s.ios, s.log, s.next, io);
  }

  lemma IssuedOnce(ios: map<nat, Io>, log: seq<Event>, next: nat, io: Io)
    requires OnceOk(ios, log, next) && SentOk(ios, log, next) && !io.subscribed
    ensures OnceOk(ios[next := io], log, next + 1) && SentOk(ios[next := io], log, next + 1)
  {
    assert Finals(log, next) == 0;
  }

  /** A request cancelled by the user or with its channel: the server is told if it was asked. */
  function Destroy(s: State, p: nat): State
    requires p in s.ios && s.ios[p].chan in s.chans
  {
    var u := Uninstall(s, s.ios[p].id);
    var t := if s.ios[p].kind.Subscription? && s.ios[p].subscribed then
        Note(u.(ios := u.ios[p := u.ios[p].(subscribed := false)]), Cancelled(p))
      else u;
    Exception(t, p, ECA_CHANDESTROY)
  }

  /** When cancelling a request fails. */
  predicate CancelThrows(io: Io, thrown: bool) {
    io.kind.Subscription? && io.subscribed && thrown
  }

  lemma StillQueued(s: State, p: nat)
    requires Inv(s) && p in s.ios
    ensures !Inv(Uninstall(s, s.ios[p].id))
  {
    Unseal(Facts, s);
    Unseal(Facts, Uninstall(s, s.ios[p].id));
    Orphan(s, Uninstall(s, s.ios[p].id), p);
  }

  lemma Destroyed(s: State, p: nat)
    requires Inv(s) && p in s.ios && s.ios[p].chan in s.chans
    ensures Inv(Destroy(s, p))
  {
    Unseal(Facts, s);
    Unseal(Facts, Destroy(s, p));
    var r := s;
    if s.ios[p].kind.Subscription? && s.ios[p].subscribed {
      Toggled(s, p, Cancelled(p));
      r := Note(s.(ios := s.ios[p := s.ios[p].(subscribed := false)]), Cancelled(p));
    }
    ExceptionFinishes(r, p, ECA_CHANDESTROY);
  }

  /** The first of a queue of different requests goes. */
  lemma QueueHead(q: seq<nat>, k: nat)
    requires Distinct(q) && k < |q|
    ensures Without(q[k..], q[k]) == q[k + 1..]
  {
    assert q[k..] == [] + [q[k]] + q[k + 1..];
    assert [] + q[k + 1..] == q[k + 1..];
    WithoutMiddle([], q[k], q[k + 1..]);
  }

  lemma DestroyedIos(s: State, p: nat)
    requires p in s.ios && s.ios[p].chan in s.chans
    ensures Destroy(s, p).ios == s.ios - {p}
  {
  }

  /** Only the cancelled request and the queue of its channel change. */
  lemma DestroyedFrame(s: State, p: nat)
    requires Inv(s) && p in s.ios && s.ios[p].chan in s.chans
    ensures var t := Destroy(s, p);
            && t.ios == s.ios - {p} && t.chans.Keys == s.chans.Keys
            && (forall d :: d in s.chans && d != s.ios[p].chan ==> t.chans[d] == s.chans[d])
            && t.chans[s.ios[p].chan].eventq == Without(s.chans[s.ios[p].chan].eventq, p)
  {
    var c := s.ios[p].chan;
    var q := Without(s.chans[c].eventq, p);
    assert Destroy(s, p).chans == s.chans[c := s.chans[c].(eventq := q)];
    DestroyedIos(s, p);
  }

  lemma DestroyedLog(s: State, p: nat)
    requires p in s.ios && s.ios[p].chan in s.chans
    ensures Destroy(s, p).log == s.log + Farewell(p, s.ios[p])
  {
    assert s.log + [Cancelled(p)] + [Ended(p)] == s.log + [Cancelled(p), Ended(p)];
  }

  /** The destruction of a channel: from which state it goes to which, and how many requests of the
      queue are behind. */
  datatype Leaving = Leaving(s: State, t: State, c: nat, q: seq<nat>, k: nat)

  ghost predicate LeftIos(ios: map<nat, Io>, left: map<nat, Io>, q: seq<nat>, k: nat)
    requires k <= |q|
  {
    && (forall p :: p in left <==> p in ios && p !in q[..k])
    && (forall p :: p in left ==> left[p] == ios[p])
  }

  lemma LeftLess(ios: map<nat, Io>, left: map<nat, Io>, q: seq<nat>, k: nat)
    requires k < |q| && LeftIos(ios, left, q, k)
    ensures LeftIos(ios, left - {q[k]}, q, k + 1)
  {
    assert q[..k + 1] == q[..k] + [q[k]];
  }

  ghost predicate LeftChans(chans: map<nat, Chan>, left: map<nat, Chan>, c: nat, ahead: seq<nat>) {
    && left.Keys == chans.Keys && c in left && left[c].eventq == ahead
    && forall d :: d in chans && d != c ==> left[d] == chans[d]
  }

  ghost predicate LeftLog(s: State, t: State, q: seq<nat>, k: nat)
    requires k <= |q| && forall p :: p in q ==> p in s.ios
  {
    t.log == s.log + Farewells(s.ios, q, k)
  }

  ghost predicate LeavingFacts(w: Leaving) {
    && w.k <= |w.q| && (forall p :: p in w.q ==> p in w.s.ios && w.s.ios[p].chan == w.c)
    && LeftChans(w.s.chans, w.t.chans, w.c, w.q[w.k..]) && LeftIos(w.s.ios, w.t.ios, w.q, w.k)
    && LeftLog(w.s, w.t, w.q, w.k)
  }

  lemma LeftChansLess(chans: map<nat, Chan>, left: map<nat, Chan>, less: map<nat, Chan>, c: nat, q: seq<nat>, k: nat)
    requires k < |q| && Distinct(q) && LeftChans(chans, left, c, q[k..]) && less.Keys == left.Keys
    requires less[c].eventq == Without(left[c].eventq, q[k])
    requires forall d :: d in left && d != c ==> less[d] == left[d]
    ensures LeftChans(chans, less, c, q[k + 1..])
  {
    QueueHead(q, k);
  }

  lemma LeaveStart(s: State, c: nat)
    requires Inv(s) && c in s.chans
    ensures Distinct(s.chans[c].eventq) && Sealed(LeavingFacts, Leaving(s, s, c, s.chans[c].eventq, 0))
    ensures forall p :: p in s.chans[c].eventq <==> p in s.ios && s.ios[p].chan == c
  {
    QueuedAll(s, c);
    Unseal(LeavingFacts, Leaving(s, s, c, s.chans[c].eventq, 0));
  }

  lemma LeaveNext(s: State, t: State, c: nat, q: seq<nat>, k: nat)
    requires Sealed(LeavingFacts, Leaving(s, t, c, q, k)) && Distinct(q) && Inv(t)
    ensures k <= |q| && c in t.chans && t.chans[c].eventq == q[k..]
    ensures k < |q| ==> q[k] in s.ios && q[k] in t.ios && t.ios[q[k]] == s.ios[q[k]] && t.ios[q[k]].chan == c
    ensures k < |q| ==> t.ios[q[k]].id in t.ioTable && t.ioTable[t.ios[q[k]].id] == q[k]
  {
    Unseal(LeavingFacts, Leaving(s, t, c, q, k));
    if k < |q| {
      assert q[k] in q && q[k..][0] == q[k];
      QueuedIsNamed(t, c, q[k]);
    }
  }

  lemma LeaveStep(s: State, t: State, c: nat, q: seq<nat>, k: nat)
    requires Sealed(LeavingFacts, Leaving(s, t, c, q, k)) && Distinct(q) && Inv(t) && k < |q|
    ensures q[k] in t.ios && t.ios[q[k]].chan in t.chans
    ensures Sealed(LeavingFacts, Leaving(s, Destroy(t, q[k]), c, q, k + 1))
  {
    LeaveNext(s, t, c, q, k);
    var u := Destroy(t, q[k]);
    DestroyedFrame(t, q[k]);
    DestroyedLog(t, q[k]);
    LeftOne(s, t, u, c, q, k);
  }

  lemma LeftOne(s: State, t: State, u: State, c: nat, q: seq<nat>, k: nat)
    requires Sealed(LeavingFacts, Leaving(s, t, c, q, k)) && Distinct(q) && k < |q|
    requires q[k] in s.ios && c in t.chans && u.ios == t.ios - {q[k]} && u.chans.Keys == t.chans.Keys
    requires u.chans[c].eventq == Without(t.chans[c].eventq, q[k])
    requires forall d :: d in t.chans && d != c ==> u.chans[d] == t.chans[d]
    requires u.log == t.log + Farewell(q[k], s.ios[q[k]])
    ensures Sealed(LeavingFacts, Leaving(s, u, c, q, k + 1))
  {
    Unseal(LeavingFacts, Leaving(s, t, c, q, k));
    Unseal(LeavingFacts, Leaving(s, u, c, q, k + 1));
    LeftChansLess(s.chans, t.chans, u.chans, c, q, k);
    LeftLess(s.ios, t.ios, q, k);
    LeftLogMore(s, t, u, q, k);
  }

  lemma LeftLogMore(s: State, t: State, u: State, q: seq<nat>, k: nat)
    requires k < |q| && (forall p :: p in q ==> p in s.ios) && LeftLog(s, t, q, k)
    requires u.log == t.log + Farewell(q[k], s.ios[q[k]])
    ensures LeftLog(s, u, q, k + 1)
  {
  }

  lemma LeaveDone(s: State, t: State, c: nat, q: seq<nat>)
    requires Sealed(LeavingFacts, Leaving(s, t, c, q, |q|)) && c in s.chans && c in t.chans
    requires forall p :: p in q <==> p in s.ios && s.ios[p].chan == c
    ensures forall p :: p in t.ios <==> p in s.ios && s.ios[p].chan != c
    ensures forall p :: p in t.ios ==> t.ios[p] == s.ios[p]
    ensures t.chans.Keys == s.chans.Keys && t.chans[c].eventq == []
    ensures forall d :: d in s.chans && d != c ==> t.chans[d] == s.chans[d]
    ensures t.log == s.log + Farewells(s.ios, q, |q|)
  {
    Unseal(LeavingFacts, Leaving(s, t, c, q, |q|));
    assert q[..|q|] == q;
  }

  lemma QueuesSame(ios: map<nat, Io>, chans: map<nat, Chan>, c: nat, ch: Chan)
    requires QueuesOk(ios, chans) && ch.eventq == if c in chans then chans[c].eventq else []
    ensures QueuesOk(ios, chans[c := ch])
  {
  }

  /** A channel comes, or changes its state but not its queue. */
  lemma ChannelNew(s: State, c: nat, ch: Chan)
    requires Inv(s) && ch.eventq == if c in s.chans then s.chans[c].eventq else []
    ensures Inv(s.(chans := s.chans[c := ch]))
  {
    Unseal(Facts, s);
    Unseal(Facts, s.(chans := s.chans[c := ch]));
    QueuesSame(s.ios, s.chans, c, ch);
  }

  lemma QueuesWithout(ios: map<nat, Io>, chans: map<nat, Chan>, c: nat)
    requires QueuesOk(ios, chans) && c in chans && chans[c].eventq == []
    ensures QueuesOk(ios, chans - {c}) && forall p :: p in ios ==> ios[p].chan != c
  {
    forall p | p in ios ensures ios[p].chan in chans - {c} {
      assert p in chans[ios[p].chan].eventq;
    }
  }

  /** A channel without requests goes. */
  lemma ChannelGone(s: State, c: nat)
    requires Inv(s) && c in s.chans && s.chans[c].eventq == []
    ensures Inv(s.(chans := s.chans - {c})) && forall p :: p in s.ios ==> s.ios[p].chan != c
  {
    Unseal(Facts, s);
    Unseal(Facts, s.(chans := s.chans - {c}));
    QueuesWithout(s.ios, s.chans, c);
  }

  /** Requests after their channel has lost its circuit: only its subscriptions are left, and
      the server has to be asked for them again. */
  function Disconnected(ios: map<nat, Io>, c: nat): map<nat, Io> {
    map p | p in ios && (ios[p].chan == c ==> ios[p].kind.Subscription?) ::
      if ios[p].chan == c then ios[p].(subscribed := false) else ios[p]
  }

  /** The subscriptions among the first `n` requests of a queue, in order. */
  function Subscriptions(ios: map<nat, Io>, q: seq<nat>, n: nat): (r: seq<nat>)
    requires n <= |q| && forall p :: p in q ==> p in ios
    ensures forall p :: p in r <==> p in q[..n] && ios[p].kind.Subscription?
  {
    if n == 0 then []
    else Subscriptions(ios, q, n - 1) + if ios[q[n - 1]].kind.Subscription? then [q[n - 1]] else []
  }

  /** A queue of subscriptions stays as it is. */
  lemma {:induction false} SubscriptionsAll(ios: map<nat, Io>, q: seq<nat>, n: nat)
    requires n <= |q| && forall p :: p in q ==> p in ios && ios[p].kind.Subscription?
    ensures Subscriptions(ios, q, n) == q[..n]
  {
    if n > 0 {
      SubscriptionsAll(ios, q, n - 1);
    }
  }

  /** A channel that has lost its circuit: requests and queues are those left by the walk. */
  ghost predicate LostCircuit(s: State, t: State, c: nat) {
    && Inv(t) && t.ios == Disconnected(s.ios, c) && c in s.chans
    && (forall p :: p in s.chans[c].eventq ==> p in s.ios)
    && var q := s.chans[c].eventq;
       && t.chans == s.chans[c := s.chans[c].(eventq := Subscriptions(s.ios, q, |q|))]
       && t.log == s.log + Losses(s.ios, q, s.chans[c].connected, |q|) && t.answered == s.answered
  }

  /** The requests determine the table. */
  lemma InTable(ios: map<nat, Io>, ioTable: map<nat, nat>, id: nat)
    requires TableOk(ios, ioTable)
    ensures id in ioTable <==> exists p :: p in ios && ios[p].id == id
    ensures forall p :: p in ios && ios[p].id == id ==> ioTable[id] == p
  {
    if id in ioTable {
      assert ioTable[id] in ios && ios[ioTable[id]].id == id;
    }
  }

  lemma SameTable(ios: map<nat, Io>, a: map<nat, nat>, b: map<nat, nat>)
    requires TableOk(ios, a) && TableOk(ios, b)
    ensures a == b
  {
    forall id | id in a || id in b ensures id in a && id in b && a[id] == b[id] {
      InTable(ios, a, id);
      InTable(ios, b, id);
    }
  }

  lemma OneTable(s: State, t: State)
    requires Inv(s) && Inv(t) && s.ios == t.ios
    ensures s.ioTable == t.ioTable
  {
    Unseal(Facts, s);
    Unseal(Facts, t);
    SameTable(s.ios, s.ioTable, t.ioTable);
  }

  lemma TwiceSame(ios: map<nat, Io>, c: nat)
    ensures Disconnected(Disconnected(ios, c), c) == Disconnected(ios, c)
  {
  }

  /** Only its subscriptions are left in the queue. */
  lemma LeftInQueue(s: State, t: State, c: nat)
    requires Inv(s) && LostCircuit(s, t, c)
    ensures c in t.chans && forall p :: p in t.chans[c].eventq ==> p in t.ios && t.ios[p].kind.Subscription?
  {
    QueuedAll(s, c);
    var q := s.chans[c].eventq;
    assert q[..|q|] == q;
  }

  lemma QueueStays(t: State, u: State, c: nat)
    requires LostCircuit(t, u, c) && forall p :: p in t.chans[c].eventq ==> t.ios[p].kind.Subscription?
    ensures u.chans == t.chans
  {
    var q := t.chans[c].eventq;
    SubscriptionsAll(t.ios, q, |q|);
    assert q[..|q|] == q;
    assert t.chans[c := t.chans[c].(eventq := q)] == t.chans;
  }

  /** Losing the circuit a second time changes nothing: not the requests, not the queues, and not
      the table. */
  lemma DisconnectedTwice(s: State, t: State, u: State, c: nat)
    requires Inv(s) && LostCircuit(s, t, c) && LostCircuit(t, u, c)
    ensures u.ios == t.ios && u.chans == t.chans && u.ioTable == t.ioTable
  {
    TwiceSame(s.ios, c);
    OneTable(t, u);
    LeftInQueue(s, t, c);
    QueueStays(t, u, c);
  }

  lemma {:induction false} WithoutMiddle(a: seq<nat>, p: nat, b: seq<nat>)
    requires Distinct(a + [p] + b)
    ensures Without(a + [p] + b, p) == a + b
  {
    var s := a + [p] + b;
    if a == [] {
      assert s[1..] == b && p !in b;
    } else {
      assert s[0] == a[0] && s[|a|] == p;
      assert s[1..] == a[1..] + [p] + b;
      WithoutMiddle(a[1..], p, b);
    }
  }

  /** The state after an answer to a read, and when it is a good one. */
  lemma ReadAnswer(s: State, p: nat)
    requires Inv(s) && p in s.ios && s.ios[p].chan in s.chans
    ensures Inv(CompletionWithData(Answered(Uninstall(s, s.ios[p].id), p), p)) <==> s.ios[p].kind.ReadNotify?
  {
    var t := CompletionWithData(Answered(Uninstall(s, s.ios[p].id), p), p);
    Unseal(Facts, s);
    Unseal(Facts, t);
    match s.ios[p].kind
    case ReadNotify => Finished(s, p, Completed(p));
    case WriteNotify => Lost(s, t, p);
    case Subscription => Orphan(s, t, p);
  }

  lemma IssuedKeeps(s: State, io: Io)
    requires Inv(s) && io.chan in s.chans && io.id !in s.ioTable && !io.subscribed
    ensures Inv(Issue(s, s.next, io))
  {
    Unseal(Facts, s);
    Issued(s, io);
    Unseal(Facts, Issue(s, s.next, io));
  }

  lemma AskedAtOnce(s: State, t: State, io: Io, ask: bool)
    requires Inv(s) && io.chan in s.chans && io.id !in s.ioTable && !io.subscribed && io.kind.Subscription?
    requires t == var u := Issue(s, s.next, io.(subscribed := ask)); if ask then Note(u, Asked(s.next)) else u
    ensures Inv(t)
  {
    Unseal(Facts, s);
    Unseal(Facts, t);
    Issued(s, io);
    if ask {
      var u := Issue(s, s.next, io);
      Toggled(u, s.next, Asked(s.next));
      SetTwice(s.ios, s.next, io, io.(subscribed := true));
    }
  }

  lemma SetTwice(ios: map<nat, Io>, p: nat, a: Io, b: Io)
    ensures ios[p := a][p := b] == ios[p := b]
  {
  }

  /** One step of a disconnection: a one-shot request ends with the status, a subscription stays
      and has to be asked for again. */
  function Disconnect(s: State, p: nat): State
    requires p in s.ios && s.ios[p].chan in s.chans
  {
    Exception(if s.ios[p].kind.Subscription? then s else Uninstall(s, s.ios[p].id), p, ECA_DISCONN)
  }

  lemma DisconnectKeeps(s: State, p: nat)
    requires Inv(s) && p in s.ios && s.ios[p].chan in s.chans
    ensures Inv(Disconnect(s, p))
  {
    Unseal(Facts, s);
    Unseal(Facts, Disconnect(s, p));
    if s.ios[p].kind.Subscription? {
      DropKeeps(s, p, ECA_DISCONN);
    } else {
      ExceptionFinishes(s, p, ECA_DISCONN);
    }
  }

  /** The walk over a queue: the part behind holds its subscriptions, the part ahead is as it
      was. */
  ghost predicate WalkedQueue(s: State, t: State, c: nat, k: nat, i: nat)
    requires c in s.chans && k <= |s.chans[c].eventq|
    requires forall p :: p in s.chans[c].eventq ==> p in s.ios
  {
    var q := s.chans[c].eventq;
    var kept := Subscriptions(s.ios, q, k);
    && i == |kept| && t.chans.Keys == s.chans.Keys && t.chans[c] == s.chans[c].(eventq := kept + q[k..])
    && (forall d :: d in s.chans && d != c ==> t.chans[d] == s.chans[d])
  }

  ghost predicate WalkedIos(s: State, t: State, behind: seq<nat>) {
    && (forall p :: p in t.ios <==> p in s.ios && (p in behind ==> s.ios[p].kind.Subscription?))
    && (forall p :: p in t.ios ==> t.ios[p] == if p in behind then s.ios[p].(subscribed := false) else s.ios[p])
  }

  ghost predicate WalkedLog(s: State, t: State, c: nat, k: nat)
    requires c in s.chans && k <= |s.chans[c].eventq|
    requires forall p :: p in s.chans[c].eventq ==> p in s.ios
  {
    t.log == s.log + Losses(s.ios, s.chans[c].eventq, s.chans[c].connected, k) && t.answered == s.answered
  }

  /** A walk from one state to another: how many requests of the queue are behind, and how many of
      them are left. */
  datatype Walk = Walk(s: State, t: State, c: nat, k: nat, i: nat)

  ghost predicate WalkFacts(w: Walk) {
    && w.c in w.s.chans && w.k <= |w.s.chans[w.c].eventq|
    && (forall p :: p in w.s.chans[w.c].eventq ==> p in w.s.ios)
    && WalkedQueue(w.s, w.t, w.c, w.k, w.i) && WalkedIos(w.s, w.t, w.s.chans[w.c].eventq[..w.k])
    && WalkedLog(w.s, w.t, w.c, w.k)
  }

  ghost predicate Walking(s: State, t: State, c: nat, k: nat, i: nat) {
    Sealed(WalkFacts, Walk(s, t, c, k, i))
  }

  lemma WalkStart(s: State, c: nat)
    requires c in s.chans && forall p :: p in s.chans[c].eventq ==> p in s.ios
    ensures Walking(s, s, c, 0, 0)
  {
    assert [] + s.chans[c].eventq[0..] == s.chans[c].eventq;
    Unseal(WalkFacts, Walk(s, s, c, 0, 0));
  }

  /** The queue from the next request on. */
  lemma Ahead(ios: map<nat, Io>, q: seq<nat>, k: nat)
    requires k < |q| && Distinct(q) && forall p :: p in q ==> p in ios
    ensures var kept := Subscriptions(ios, q, k);
            && q[k] !in q[..k] && (kept + q[k..])[|kept|] == q[k]
            && Subscriptions(ios, q, k + 1) + q[k + 1..] ==
                 (if ios[q[k]].kind.Subscription? then kept + q[k..] else kept + q[k + 1..])
            && (Distinct(kept + q[k..]) ==> Without(kept + q[k..], q[k]) == kept + q[k + 1..])
  {
    var kept := Subscriptions(ios, q, k);
    assert q[k..] == [q[k]] + q[k + 1..];
    assert kept + q[k..] == kept + [q[k]] + q[k + 1..];
    if Distinct(kept + q[k..]) {
      WithoutMiddle(kept, q[k], q[k + 1..]);
    }
  }

  /** What one step of a disconnection changes. */
  lemma DisconnectChanges(t: State, p: nat)
    requires p in t.ios && t.ios[p].chan in t.chans
    ensures Disconnect(t, p).chans ==
      if t.ios[p].kind.Subscription? then t.chans else Shorter(t.chans, t.ios[p].chan, p)
    ensures Disconnect(t, p).ios ==
      if t.ios[p].kind.Subscription? then t.ios[p := t.ios[p].(subscribed := false)] else t.ios - {p}
    ensures Disconnect(t, p).answered == t.answered
    ensures Disconnect(t, p).log == t.log +
      if !t.ios[p].kind.Subscription? then [Failed(p, ECA_DISCONN)]
      else if Connected(t, p) then [Dropped(p), UpdateFailed(p, ECA_DISCONN)]
      else [Dropped(p)]
  {
    assert t.log + [Dropped(p)] + [UpdateFailed(p, ECA_DISCONN)] == t.log + [Dropped(p), UpdateFailed(p, ECA_DISCONN)];
  }

  lemma WalkStepQueue(s: State, t: State, u: State, c: nat, k: nat, i: nat)
    requires c in s.chans && k < |s.chans[c].eventq| && Distinct(s.chans[c].eventq) && c in t.chans
    requires (forall p :: p in s.chans[c].eventq ==> p in s.ios) && WalkedQueue(s, t, c, k, i)
    requires Distinct(t.chans[c].eventq)
    requires var p := s.chans[c].eventq[k];
      u.chans == if s.ios[p].kind.Subscription? then t.chans else Shorter(t.chans, c, p)
    ensures WalkedQueue(s, u, c, k + 1, if s.ios[s.chans[c].eventq[k]].kind.Subscription? then i + 1 else i)
  {
    Ahead(s.ios, s.chans[c].eventq, k);
  }

  lemma WalkStepIos(s: State, t: State, u: State, p: nat, behind: seq<nat>)
    requires WalkedIos(s, t, behind) && p in s.ios && p !in behind && p in t.ios && t.ios[p] == s.ios[p]
    requires u.ios == if s.ios[p].kind.Subscription? then t.ios[p := t.ios[p].(subscribed := false)] else t.ios - {p}
    ensures WalkedIos(s, u, behind + [p])
  {
  }

  lemma WalkStepLog(s: State, t: State, c: nat, k: nat, p: nat)
    requires c in s.chans && k < |s.chans[c].eventq| && p == s.chans[c].eventq[k]
    requires (forall q :: q in s.chans[c].eventq ==> q in s.ios) && WalkedLog(s, t, c, k)
    requires p in t.ios && t.ios[p] == s.ios[p] && s.ios[p].chan == c
    requires c in t.chans && t.chans[c].connected == s.chans[c].connected
    ensures WalkedLog(s, Disconnect(t, p), c, k + 1)
  {
    DisconnectChanges(t, p);
  }

  /** The next request of the walk is the next of the queue, and as it was. */
  lemma WalkNext(s: State, t: State, c: nat, k: nat, i: nat)
    requires WalkFacts(Walk(s, t, c, k, i)) && k < |s.chans[c].eventq| && Distinct(s.chans[c].eventq)
    requires c in t.chans
    ensures i < |t.chans[c].eventq| && t.chans[c].eventq[i] == s.chans[c].eventq[k]
    ensures var p := s.chans[c].eventq[k]; p !in s.chans[c].eventq[..k] && p in t.ios && t.ios[p] == s.ios[p]
  {
    var q := s.chans[c].eventq;
    Ahead(s.ios, q, k);
    assert q[k] in q;
  }

  lemma WalkStep(s: State, t: State, c: nat, k: nat, i: nat)
    requires WalkFacts(Walk(s, t, c, k, i)) && k < |s.chans[c].eventq| && Distinct(s.chans[c].eventq)
    requires c in t.chans && Distinct(t.chans[c].eventq) && s.ios[s.chans[c].eventq[k]].chan == c
    ensures var p := s.chans[c].eventq[k];
            p in t.ios && t.ios[p] == s.ios[p] &&
            WalkFacts(Walk(s, Disconnect(t, p), c, k + 1, if s.ios[p].kind.Subscription? then i + 1 else i))
  {
    var q := s.chans[c].eventq;
    WalkNext(s, t, c, k, i);
    assert q[..k + 1] == q[..k] + [q[k]];
    DisconnectChanges(t, q[k]);
    WalkStepIos(s, t, Disconnect(t, q[k]), q[k], q[..k]);
    WalkStepQueue(s, t, Disconnect(t, q[k]), c, k, i);
    WalkStepLog(s, t, c, k, q[k]);
  }

  /** A request after its channel has been connected again. */
  function Resubscribed(io: Io, c: nat, throws: bool): Io {
    if io.chan == c && io.kind.Subscription? && !throws then io.(subscribed := true) else io
  }

  /** Asking again for the subscriptions of a channel, as far as the first requests of the queue. */
  datatype Asking = Asking(s: State, t: State, c: nat, q: seq<nat>, throwing: set<nat>, k: nat)

  ghost predicate AskingFacts(w: Asking) {
    && w.k <= |w.q| && (forall p :: p in w.q ==> p in w.s.ios) && w.t.ios.Keys == w.s.ios.Keys
    && (forall p :: p in w.t.ios ==>
          w.t.ios[p] == if p in w.q[..w.k] then Resubscribed(w.s.ios[p], w.c, p in w.throwing) else w.s.ios[p])
    && w.t.log == w.s.log + Asks(w.s.ios, w.q, w.throwing, w.k)
  }

  lemma AskStep(s: State, t: State, u: State, c: nat, q: seq<nat>, throwing: set<nat>, k: nat)
    requires Sealed(AskingFacts, Asking(s, t, c, q, throwing, k)) && Distinct(q) && k < |q| && q[k] in t.ios
    requires u.ios == t.ios[q[k] := Resubscribed(t.ios[q[k]], c, q[k] in throwing)]
    requires u.log == t.log +
      if t.ios[q[k]].kind.Subscription? && !t.ios[q[k]].subscribed && q[k] !in throwing then [Asked(q[k])] else []
    ensures Sealed(AskingFacts, Asking(s, u, c, q, throwing, k + 1))
  {
    Unseal(AskingFacts, Asking(s, t, c, q, throwing, k));
    Unseal(AskingFacts, Asking(s, u, c, q, throwing, k + 1));
    assert q[..k + 1] == q[..k] + [q[k]] && q[k] in q && q[k] !in q[..k];
  }

  lemma AskNext(s: State, t: State, c: nat, q: seq<nat>, throwing: set<nat>, k: nat)
    requires Sealed(AskingFacts, Asking(s, t, c, q, throwing, k)) && Distinct(q) && k < |q|
    ensures q[k] in s.ios && q[k] in t.ios && t.ios[q[k]] == s.ios[q[k]]
  {
    Unseal(AskingFacts, Asking(s, t, c, q, throwing, k));
    assert q[k] in q && q[k] !in q[..k];
  }

  lemma AskDone(s: State, t: State, c: nat, q: seq<nat>, throwing: set<nat>)
    requires Sealed(AskingFacts, Asking(s, t, c, q, throwing, |q|))
    requires forall p :: p in q <==> p in s.ios && s.ios[p].chan == c
    ensures t.ios.Keys == s.ios.Keys && t.log == s.log + Asks(s.ios, q, throwing, |q|)
    ensures forall p :: p in t.ios ==> t.ios[p] == Resubscribed(s.ios[p], c, p in throwing)
  {
    Unseal(AskingFacts, Asking(s, t, c, q, throwing, |q|));
    assert q[..|q|] == q;
  }

  lemma QueuedAll(s: State, c: nat)
    requires Inv(s) && c in s.chans
    ensures Distinct(s.chans[c].eventq)
    ensures forall p :: p in s.chans[c].eventq <==> p in s.ios && s.ios[p].chan == c
  {
    Unseal(Facts, s);
  }

  lemma WalkMore(s: State, t: State, c: nat, k: nat, i: nat)
    requires Inv(s) && Inv(t) && Walking(s, t, c, k, i) && c in t.chans && i < |t.chans[c].eventq|
    ensures c in s.chans && k < |s.chans[c].eventq| && t.chans[c].eventq[i] == s.chans[c].eventq[k]
    ensures var p := s.chans[c].eventq[k];
            p in s.ios && p in t.ios && t.ios[p].chan in t.chans && t.ios[p].kind == s.ios[p].kind &&
            Walking(s, Disconnect(t, p), c, k + 1, if s.ios[p].kind.Subscription? then i + 1 else i)
  {
    Unseal(WalkFacts, Walk(s, t, c, k, i));
    QueuedAll(s, c);
    QueuedAll(t, c);
    WalkNext(s, t, c, k, i);
    WalkStep(s, t, c, k, i);
    var p := s.chans[c].eventq[k];
    Unseal(WalkFacts, Walk(s, Disconnect(t, p), c, k + 1, if s.ios[p].kind.Subscription? then i + 1 else i));
  }

  /** A subscription asked for, unless it has been asked for or the circuit throws. */
  lemma AskedKeeps(s: State, t: State, p: nat)
    requires Inv(s) && p in s.ios && s.ios[p].kind.Subscription?
    requires || t == s
             || (!s.ios[p].subscribed && t == Note(s.(ios := s.ios[p := s.ios[p].(subscribed := true)]), Asked(p)))
    ensures Inv(t)
  {
    Unseal(Facts, s);
    Unseal(Facts, t);
    if t != s {
      Toggled(s, p, Asked(p));
    }
  }

  lemma WalkDone(s: State, t: State, c: nat, k: nat, i: nat)
    requires Walking(s, t, c, k, i) && c in s.chans && c in t.chans && i >= |t.chans[c].eventq|
    requires forall p :: p in s.chans[c].eventq <==> p in s.ios && s.ios[p].chan == c
    ensures t.ios == Disconnected(s.ios, c)
    ensures var q := s.chans[c].eventq;
            && t.chans == s.chans[c := s.chans[c].(eventq := Subscriptions(s.ios, q, |q|))]
            && t.log == s.log + Losses(s.ios, q, s.chans[c].connected, |q|) && t.answered == s.answered
  {
    Unseal(WalkFacts, Walk(s, t, c, k, i));
    var q := s.chans[c].eventq;
    assert k == |q| && q[..k] == q && q[k..] == [];
    var kept := Subscriptions(s.ios, q, k);
    assert kept + q[k..] == kept;
    assert t.chans == s.chans[c := s.chans[c].(eventq := kept)];
  }

  /** The n-th identifier after another, going round. */
  function IdAt(start: nat, n: nat): nat {
    (start + n) % ID_RANGE
  }

  /** Identifiers come round only after all of them. */
  lemma Round(a: nat, d: nat)
    requires 0 < d < ID_RANGE
    ensures (a + d) % ID_RANGE != a % ID_RANGE
  {
    var q, r := a / ID_RANGE, a % ID_RANGE;
    if r + d < ID_RANGE {
      assert a + d == q * ID_RANGE + (r + d);
    } else {
      assert a + d == (q + 1) * ID_RANGE + (r + d - ID_RANGE);
    }
  }

  /** Going round, no identifier comes twice. */
  lemma NoneTwice(start: nat, n: nat)
    ensures forall i: nat :: n < i < ID_RANGE ==> IdAt(start, i) != IdAt(start, n)
  {
    forall i: nat | n < i < ID_RANGE ensures IdAt(start, i) != IdAt(start, n) {
      Round(start + n, i - n);
    }
  }

  lemma Next(a: nat)
    ensures (a % ID_RANGE + 1) % ID_RANGE == (a + 1) % ID_RANGE
  {
  }

  lemma Undone<K, V>(m: map<K, V>, k: K, v: V)
    requires k !in m
    ensures m[k := v] - {k} == m
  {
  }

  datatype Result =
    | Done(io: nat, id: nat) | NotConnected | NoAccess | OutOfBounds | BadType | BadString | BadMask | Thrown

  // ---------------------------------------------------------------- the promise

  lemma {:induction false} FinalEvent(log: seq<Event>, p: nat) returns (e: Event)
    requires Finals(log, p) > 0
    ensures e in log && Final(e, p)
  {
    var last := log[|log| - 1];
    if Final(last, p) {
      e := last;
    } else {
      e := FinalEvent(log[..|log| - 1], p);
    }
  }

  /** Every request that was issued and is gone has ended exactly once, every other one not yet;
      the table and the queues hold the same requests; and the server is asked for a subscription
      at most once between disconnections and told to cancel only what it was asked for.  Its user
      was told of success exactly if a normal response has named it; the others that are gone
      failed, or were subscriptions that ended. */
  lemma ExactlyOnce(s: State, p: nat)
    requires Inv(s) && p < s.next
    ensures Finals(s.log, p) == if p in s.ios then 0 else 1
    ensures (exists id :: id in s.ioTable && s.ioTable[id] == p) <==> p in s.ios
    ensures (exists c :: c in s.chans && p in s.chans[c].eventq) <==> p in s.ios
    ensures forall c, d :: c in s.chans && d in s.chans && p in s.chans[c].eventq && p in s.chans[d].eventq ==> c == d
    ensures Disciplined(Proper, s.log)
    ensures Completed(p) in s.log <==> p in s.answered
    ensures p !in s.ios && p !in s.answered ==>
              Ended(p) in s.log || exists status: int :: Failed(p, status) in s.log
  {
    Unseal(Facts, s);
    if p !in s.ios {
      var e := FinalEvent(s.log, p);
      if e.Failed? {
        assert e == Failed(p, e.status);
      }
    }
    if p in s.ios {
      assert s.ioTable[s.ios[p].id] == p;
      assert p in s.chans[s.ios[p].chan].eventq;
    }
  }

  /** When the server refuses the update a client asks for after an unresponsive circuit has come
      back, the subscription drops out of the table but stays in its queue: destroying its
      channel then asks the table for a request it does not have. */
  lemma UpdateRefused(s: State, p: nat, status: int)
    requires Inv(s) && p in s.ios && s.ios[p].kind.Subscription? && status != ECA_CHANDESTROY
    ensures s.ios[p].chan in s.chans
    ensures var t := Exception(Uninstall(s, s.ios[p].id), p, status);
            p in t.chans[s.ios[p].chan].eventq && s.ios[p].id !in t.ioTable && !Inv(t)
  {
    Unseal(Facts, s);
    ExceptionResponse(s, p, status);
  }

  class Cac {
    var ios: map<nat, Io>
    var ioTable: map<nat, nat>
    var chans: map<nat, Chan>
    ghost var log: seq<Event>
    ghost var answered: set<nat>
    var next: nat
    /** The identifier to try next. */
    var allocId: nat

    ghost function Now(): State
      reads this
    {
      State(ios, ioTable, chans, log, next, answered)
    }

    ghost predicate Valid()
      reads this
    {
      Inv(Now()) && allocId < ID_RANGE
    }

    ghost predicate Live(p: nat)
      reads this
    {
      p in ios && ios[p].chan in chans
    }

    constructor ()
      ensures Valid() && Now() == State(map[], map[], map[], [], 0, {})
    {
      ios, ioTable, chans, log, next, answered, allocId := map[], map[], map[], [], 0, {}, 0;
    }

    method AddChannel(c: nat, count: nat)
      requires Valid() && c !in chans
      modifies `chans
      ensures Valid() && chans == old(chans)[c := Chan(false, false, false, false, count, [])]
    {
      ChannelNew(Now(), c, Chan(false, false, false, false, count, []));
      chans := chans[c := Chan(false, false, false, false, count, [])];
    }

    /** The circuit connects, disconnects or changes the rights of a channel. */
    method ChannelState(c: nat, connected: bool, installed: bool, readPermit: bool, writePermit: bool, count: nat)
      requires Valid() && c in chans
      modifies `chans
      ensures Valid()
      ensures chans == old(chans)[c := Chan(connected, installed, readPermit, writePermit, count, old(chans[c]).eventq)]
    {
      ChannelNew(Now(), c, Chan(connected, installed, readPermit, writePermit, count, chans[c].eventq));
      chans := chans[c := Chan(connected, installed, readPermit, writePermit, count, chans[c].eventq)];
    }

    // -------------------------------------------------------------- what each kind of request does

    /** The request has left the queue of its channel and is recycled. */
    method Recycle(p: nat)
      requires Live(p)
      modifies `ios, `chans
      ensures Now() == Unlink(old(Now()), p)
    {
      var c := ios[p].chan;
      chans := chans[c := chans[c].(eventq := Without(chans[c].eventq, p))];
      ios := ios - {p};
    }

    /** A response of status ECA_NORMAL has named a request. */
    ghost method Answer(p: nat)
      requires p in ios
      modifies `answered
      ensures Now() == Answered(old(Now()), p)
    {
      if !ios[p].kind.Subscription? {
        answered := answered + {p};
      }
    }

    method CompletionOf(p: nat)
      requires Live(p)
      modifies `ios, `chans, `log
      ensures Now() == Completion(old(Now()), p)
    {
      match ios[p].kind
      case ReadNotify => Recycle(p);
      case WriteNotify =>
        log := log + [Completed(p)];
        Recycle(p);
      case Subscription =>
    }

    method CompletionWithDataOf(p: nat)
      requires Live(p)
      modifies `ios, `chans, `log
      ensures Now() == CompletionWithData(old(Now()), p)
    {
      match ios[p].kind
      case ReadNotify =>
        log := log + [Completed(p)];
        Recycle(p);
      case WriteNotify => Recycle(p);
      case Subscription =>
        if chans[ios[p].chan].connected {
          log := log + [Update(p)];
        }
    }

    method ExceptionOf(p: nat, status: int)
      requires Live(p)
      modifies `ios, `chans, `log
      ensures Now() == Exception(old(Now()), p, status)
    {
      if !ios[p].kind.Subscription? {
        log := log + [Failed(p, status)];
        Recycle(p);
        return;
      }
      if status == ECA_DISCONN {
        ios := ios[p := ios[p].(subscribed := false)];
        log := log + [Dropped(p)];
      }
      if status == ECA_CHANDESTROY {
        log := log + [Ended(p)];
        Recycle(p);
      } else if chans[ios[p].chan].connected {
        log := log + [UpdateFailed(p, status)];
      }
    }

    method TakeFromTable(id: nat) returns (p: Option<nat>)
      modifies `ioTable
      ensures p == if id in old(ioTable) then Some(old(ioTable[id])) else None
      ensures ioTable == old(ioTable) - {id}
    {
      p := if id in ioTable then Some(ioTable[id]) else None;
      ioTable := ioTable - {id};
    }

    // -------------------------------------------------------------- responses

    /** A write-notify response. It is harmless exactly when it names no request, a write, or,
        with an error status, a request that ends on that status. */
    method WriteNotifyRespAction(id: nat, status: int)
      requires Valid()
      modifies this
      ensures id !in old(ioTable) ==> Now() == old(Now())
      ensures id in old(ioTable) ==> old(Live(ioTable[id]))
      ensures id in old(ioTable) ==>
        var (u, p) := (Uninstall(old(Now()), id), old(ioTable[id]));
        Now() == if status == ECA_NORMAL then Completion(Answered(u, p), p) else Exception(u, p, status)
      ensures id in old(ioTable) ==>
        var (p, io) := (old(ioTable[id]), old(ios[ioTable[id]]));
        && (io.kind.WriteNotify? ==>
              ios == old(ios) - {p} &&
              log == old(log) + [if status == ECA_NORMAL then Completed(p) else Failed(p, status)])
        && (io.kind.ReadNotify? && status != ECA_NORMAL ==>
              ios == old(ios) - {p} && log == old(log) + [Failed(p, status)])
      ensures Valid() <==> id !in old(ioTable) || WriteFits(old(ios[ioTable[id]].kind), status)
    {
      ghost var s := Now();
      var p := TakeFromTable(id);
      if p.Some? {
        Named(s, id);
        if status == ECA_NORMAL {
          Answer(p.value);
          CompletionOf(p.value);
        } else {
          ExceptionOf(p.value, status);
        }
        WriteResponse(s, p.value, status);
      } else {
        assert ioTable == s.ioTable;
      }
    }

    /** A read-notify response; a subscription named by it goes back into the table. */
    method ReadNotifyRespAction(id: nat, status: int)
      requires Valid()
      modifies this
      ensures id !in old(ioTable) ==> Now() == old(Now())
      ensures id in old(ioTable) ==> old(Live(ioTable[id]))
      ensures id in old(ioTable) ==>
        var (s, p) := (old(Now()), old(ioTable[id]));
        var u := if s.ios[p].kind.Subscription? then s else Uninstall(s, id);
        Now() == if status == ECA_NORMAL then CompletionWithData(Answered(u, p), p) else Exception(u, p, status)
      ensures id in old(ioTable) ==>
        var (p, io) := (old(ioTable[id]), old(ios[ioTable[id]]));
        && (io.kind.ReadNotify? ==>
              ios == old(ios) - {p} &&
              log == old(log) + [if status == ECA_NORMAL then Completed(p) else Failed(p, status)])
        && (io.kind.WriteNotify? && status != ECA_NORMAL ==>
              ios == old(ios) - {p} && log == old(log) + [Failed(p, status)])
        && (io.kind.Subscription? && status != ECA_CHANDESTROY ==>
              ioTable == old(ioTable) && log == old(log) + SubscriberHears(p, old(chans)[io.chan].connected, status))
      ensures Valid() <==> id !in old(ioTable) || ReadFits(old(ios[ioTable[id]].kind), status)
    {
      ghost var s := Now();
      var p := TakeFromTable(id);
      if p.Some? {
        Named(s, id);
        if ios[p.value].kind.Subscription? {
          ioTable := ioTable[id := p.value];
          assert ioTable == s.ioTable;
        }
        if status == ECA_NORMAL {
          Answer(p.value);
          CompletionWithDataOf(p.value);
        } else {
          ExceptionOf(p.value, status);
        }
        ReadResponse(s, p.value, status);
      } else {
        assert ioTable == s.ioTable;
      }
    }

    /** A subscription update; one without a body is ignored. */
    method EventRespAction(id: nat, postsize: nat, status: int)
      requires Valid()
      modifies this
      ensures postsize == 0 || id !in old(ioTable) ==> Now() == old(Now())
      ensures postsize > 0 && id in old(ioTable) ==> old(Live(ioTable[id]))
      ensures postsize > 0 && id in old(ioTable) ==>
        var (s, p) := (old(Now()), old(ioTable[id]));
        Now() == if status == ECA_NORMAL then CompletionWithData(Answered(s, p), p) else Exception(s, p, status)
      ensures postsize > 0 && id in old(ioTable) ==>
        var (p, io) := (old(ioTable[id]), old(ios[ioTable[id]]));
        io.kind.Subscription? && status != ECA_CHANDESTROY ==>
          ioTable == old(ioTable) && log == old(log) + SubscriberHears(p, old(chans)[io.chan].connected, status)
      ensures Valid() <==> postsize == 0 || id !in old(ioTable) || EventFits(old(ios[ioTable[id]].kind), status)
    {
      if postsize == 0 {
        return;
      }
      ghost var s := Now();
      if id in ioTable {
        var p := ioTable[id];
        Named(s, id);
        if status == ECA_NORMAL {
          Answer(p);
          CompletionWithDataOf(p);
        } else {
          ExceptionOf(p, status);
        }
        EventResponse(s, p, status);
      }
    }

    /** The server refuses a subscription. */
    method EventAddExcep(id: nat, status: int)
      requires Valid()
      modifies this
      ensures id !in old(ioTable) ==> Now() == old(Now())
      ensures id in old(ioTable) ==>
        old(Live(ioTable[id])) && Now() == Exception(old(Now()), old(ioTable[id]), status)
      ensures id in old(ioTable) ==>
        var (p, io) := (old(ioTable[id]), old(ios[ioTable[id]]));
        io.kind.Subscription? && status != ECA_CHANDESTROY && status != ECA_DISCONN ==>
          log == old(log) + if old(chans)[io.chan].connected then [UpdateFailed(p, status)] else []
      ensures Valid() <==> id !in old(ioTable) || EventFits(old(ios[ioTable[id]].kind), status)
    {
      ghost var s := Now();
      if id in ioTable {
        var p := ioTable[id];
        Named(s, id);
        ExceptionOf(p, status);
        EventResponse(s, p, status);
      }
    }

    /** The server refuses a read, read-notify or write-notify request. */
    method IoExceptionNotifyAndUninstall(id: nat, status: int)
      requires Valid()
      modifies this
      ensures id !in old(ioTable) ==> Now() == old(Now())
      ensures id in old(ioTable) ==>
        old(Live(ioTable[id])) && Now() == Exception(Uninstall(old(Now()), id), old(ioTable[id]), status)
      ensures id in old(ioTable) ==>
        var (p, io) := (old(ioTable[id]), old(ios[ioTable[id]]));
        !io.kind.Subscription? ==> ios == old(ios) - {p} && log == old(log) + [Failed(p, status)]
      ensures Valid() <==> id !in old(ioTable) || ExceptionFits(old(ios[ioTable[id]].kind), status)
    {
      ghost var s := Now();
      var p := TakeFromTable(id);
      if p.Some? {
        Named(s, id);
        ExceptionOf(p.value, status);
        ExceptionResponse(s, p.value, status);
      } else {
        assert ioTable == s.ioTable;
      }
    }

    /** The answer to a read of protocol version 4.0 and before. */
    method ReadRespAction(id: nat)
      requires Valid()
      modifies this
      ensures id !in old(ioTable) ==> Now() == old(Now())
      ensures id in old(ioTable) ==>
        old(Live(ioTable[id])) &&
        var p := old(ioTable[id]); Now() == CompletionWithData(Answered(Uninstall(old(Now()), id), p), p)
      ensures id in old(ioTable) && old(ios[ioTable[id]].kind.ReadNotify?) ==>
        ios == old(ios) - {old(ioTable[id])} && log == old(log) + [Completed(old(ioTable[id]))]
      ensures Valid() <==> id !in old(ioTable) || old(ios[ioTable[id]].kind.ReadNotify?)
    {
      ghost var s := Now();
      var p := TakeFromTable(id);
      if p.Some? {
        Named(s, id);
        Answer(p.value);
        CompletionWithDataOf(p.value);
        ReadAnswer(s, p.value);
      } else {
        assert ioTable == s.ioTable;
      }
    }

    // -------------------------------------------------------------- issuing requests

    /** Takes the first identifier, from the last one taken on and round again, that is not in the
        table. */
    method AssignId() returns (id: nat, ghost n: nat)
      requires allocId < ID_RANGE && |ioTable| < ID_RANGE
      modifies `allocId
      ensures id < ID_RANGE && id !in ioTable && allocId == IdAt(id, 1)
      ensures id == IdAt(old(allocId), n) && forall i: nat :: i < n ==> IdAt(old(allocId), i) in ioTable
    {
      ghost var start := allocId;
      id := allocId;
      allocId := (allocId + 1) % ID_RANGE;
      n := 0;
      ghost var untried := ioTable.Keys;
      while id in ioTable
        invariant id == IdAt(start, n) && allocId == IdAt(id, 1)
        invariant untried <= ioTable.Keys && |untried| + n == |ioTable|
        invariant forall i: nat :: n <= i < ID_RANGE && IdAt(start, i) in ioTable ==> IdAt(start, i) in untried
        invariant forall i: nat :: i < n ==> IdAt(start, i) in ioTable
        decreases |untried|
      {
        NoneTwice(start, n);
        untried := untried - {id};
        Next(start + n);
        n := n + 1;
        id := allocId;
        allocId := (allocId + 1) % ID_RANGE;
      }
    }

    /** A read, write or subscription request: put into the table under a new identifier and
        handed to the circuit. If the circuit throws, the request leaves no trace. */
    method IssueRequest(kind: Kind, c: nat, thrown: bool) returns (p: Option<nat>, id: nat)
      requires next !in ios && allocId < ID_RANGE && |ioTable| < ID_RANGE
      modifies `ios, `ioTable, `next, `allocId
      ensures p == if thrown then None else Some(old(next))
      ensures id !in old(ioTable) && allocId < ID_RANGE
      ensures thrown ==> Now() == old(Now())
      ensures !thrown ==> ios == old(ios)[old(next) := Io(id, kind, c, false)]
      ensures !thrown ==> ioTable == old(ioTable)[id := old(next)] && next == old(next) + 1
    {
      var q := next;
      ghost var n;
      id, n := AssignId();
      Undone(ios, q, Io(id, kind, c, false));
      Undone(ioTable, id, q);
      ios := ios[q := Io(id, kind, c, false)];
      ioTable := ioTable[id := q];
      if thrown {
        ioTable := ioTable - {id};
        ios := ios - {q};
        return None, id;
      }
      next := next + 1;
      return Some(q), id;
    }

    method EnqueueRequest(p: nat)
      requires p in ios && ios[p].chan in chans
      modifies `chans
      ensures var c := ios[p].chan;
        chans == old(chans)[c := old(chans)[c].(eventq := old(chans)[c].eventq + [p])]
    {
      var c := ios[p].chan;
      chans := chans[c := chans[c].(eventq := chans[c].eventq + [p])];
    }

    method IssueOneShot(kind: Kind, c: nat, thrown: bool) returns (r: Result)
      requires Valid() && c in chans && |ioTable| < ID_RANGE
      modifies `ios, `ioTable, `chans, `next, `allocId
      ensures Valid() && (r == Thrown || r.Done?) && (r == Thrown <==> thrown)
      ensures thrown ==> Now() == old(Now())
      ensures !thrown ==> r.id !in old(ioTable) && Now() == Issue(old(Now()), old(next), Io(r.id, kind, c, false))
      ensures !thrown ==> r.io == old(next)
    {
      ghost var s := Now();
      NextIsNew(Now());
      var p, id := IssueRequest(kind, c, thrown);
      if p.None? {
        return Thrown;
      }
      EnqueueRequest(p.value);
      IssuedKeeps(s, Io(id, kind, c, false));
      r := Done(p.value, id);
    }

    method Read(c: nat, count: nat, typeOk: bool, thrown: bool) returns (r: Result)
      requires Valid() && c in chans && |ioTable| < ID_RANGE
      modifies `ios, `ioTable, `chans, `next, `allocId
      ensures Valid()
      ensures var ch := old(chans[c]);
        if !ch.connected then r == NotConnected
        else if !ch.readPermit then r == NoAccess
        else if count > ch.count then r == OutOfBounds
        else if !typeOk then r == BadType
        else if thrown then r == Thrown else r.Done? && r.io == old(next)
      ensures !r.Done? ==> Now() == old(Now())
      ensures r.Done? ==> r.id !in old(ioTable) && Now() == Issue(old(Now()), r.io, Io(r.id, ReadNotify, c, false))
      ensures r.Done? ==> chans[c].eventq == old(chans[c]).eventq + [r.io] && log == old(log)
      ensures r.Done? ==>
        ioTable == old(ioTable)[r.id := r.io] && ios == old(ios)[r.io := Io(r.id, ReadNotify, c, false)]
    {
      if !chans[c].connected {
        return NotConnected;
      }
      if !chans[c].readPermit {
        return NoAccess;
      }
      if count > chans[c].count {
        return OutOfBounds;
      }
      if !typeOk {
        return BadType;
      }
      r := IssueOneShot(ReadNotify, c, thrown);
    }

    method WriteNotify(c: nat, count: nat, stringsOk: bool, thrown: bool) returns (r: Result)
      requires Valid() && c in chans && |ioTable| < ID_RANGE
      modifies `ios, `ioTable, `chans, `next, `allocId
      ensures Valid()
      ensures var ch := old(chans[c]);
        if !ch.connected then r == NotConnected
        else if !ch.writePermit then r == NoAccess
        else if count > ch.count || count == 0 then r == OutOfBounds
        else if !stringsOk then r == BadString
        else if thrown then r == Thrown else r.Done? && r.io == old(next)
      ensures !r.Done? ==> Now() == old(Now())
      ensures r.Done? ==>
        r.id !in old(ioTable) && Now() == Issue(old(Now()), r.io, Io(r.id, Kind.WriteNotify, c, false))
      ensures r.Done? ==> chans[c].eventq == old(chans[c]).eventq + [r.io] && log == old(log)
      ensures r.Done? ==>
        ioTable == old(ioTable)[r.id := r.io] && ios == old(ios)[r.io := Io(r.id, Kind.WriteNotify, c, false)]
    {
      if !chans[c].connected {
        return NotConnected;
      }
      if !chans[c].writePermit {
        return NoAccess;
      }
      if count > chans[c].count || count == 0 {
        return OutOfBounds;
      }
      if !stringsOk {
        return BadString;
      }
      r := IssueOneShot(Kind.WriteNotify, c, thrown);
    }

    /** Asks the server for a subscription, unless it has been asked; a circuit that throws
        leaves it unasked. */
    method SubscribeIfRequired(p: nat, thrown: bool) returns (ok: bool)
      requires p in ios
      modifies `ios, `log
      ensures ok == (old(ios[p]).subscribed || !thrown)
      ensures var ask := !old(ios[p].subscribed) && !thrown;
        ios == (if ask then old(ios)[p := old(ios[p]).(subscribed := true)] else old(ios)) &&
        log == (if ask then old(log) + [Asked(p)] else old(log))
    {
      ok := true;
      if !ios[p].subscribed {
        if thrown {
          return false;
        }
        log := log + [Asked(p)];
        ios := ios[p := ios[p].(subscribed := true)];
      }
    }

    /** A subscription is asked for at once if the channel is installed in its server. */
    method Subscribe(c: nat, typeOk: bool, mask: nat, thrown: bool) returns (r: Result)
      requires Valid() && c in chans && |ioTable| < ID_RANGE
      modifies this
      ensures Valid()
      ensures if !typeOk then r == BadType else if mask == 0 then r == BadMask
        else if old(chans[c]).installed && thrown then r == Thrown else r.Done? && r.io == old(next)
      ensures !r.Done? ==> Now() == old(Now())
      ensures r.Done? ==> r.id !in old(ioTable)
      ensures r.Done? ==>
        var t := Issue(old(Now()), r.io, Io(r.id, Subscription, c, old(chans[c]).installed));
        Now() == if old(chans[c]).installed then Note(t, Asked(r.io)) else t
      ensures r.Done? ==> chans[c].eventq == old(chans[c]).eventq + [r.io] && ioTable == old(ioTable)[r.id := r.io]
      ensures r.Done? ==> ios == old(ios)[r.io := Io(r.id, Subscription, c, old(chans[c]).installed)]
      ensures r.Done? ==> log == old(log) + if old(chans[c]).installed then [Asked(r.io)] else []
    {
      if !typeOk {
        return BadType;
      }
      if mask == 0 {
        return BadMask;
      }
      r := IssueSubscription(c, thrown);
    }

    method IssueSubscription(c: nat, thrown: bool) returns (r: Result)
      requires Valid() && c in chans && |ioTable| < ID_RANGE
      modifies this
      ensures Valid()
      ensures if old(chans[c]).installed && thrown then r == Thrown else r.Done? && r.io == old(next)
      ensures !r.Done? ==> Now() == old(Now())
      ensures r.Done? ==> r.id !in old(ioTable)
      ensures r.Done? ==>
        var t := Issue(old(Now()), r.io, Io(r.id, Subscription, c, old(chans[c]).installed));
        Now() == if old(chans[c]).installed then Note(t, Asked(r.io)) else t
    {
      ghost var s := Now();
      var thrownHere := chans[c].installed && thrown;
      NextIsNew(Now());
      var p, id := IssueRequest(Subscription, c, thrownHere);
      if p.None? {
        return Thrown;
      }
      if chans[c].installed {
        var _ := SubscribeIfRequired(p.value, false);
      }
      EnqueueRequest(p.value);
      AskedAtOnce(s, Now(), Io(id, Subscription, c, false), s.chans[c].installed);
      r := Done(p.value, id);
    }

    // -------------------------------------------------------------- ending requests

    /** Cancels a request: the server is told if it was asked for a subscription, and the request
        ends.  If the circuit throws at the cancel request, the subscription is off the table and
        still in its queue. */
    method DestroyIO(id: nat, thrown: bool) returns (found: bool, failed: bool)
      requires Valid()
      modifies this
      ensures found == (id in old(ioTable)) && (found ==> old(Live(ioTable[id])))
      ensures failed == (found && CancelThrows(old(ios[ioTable[id]]), thrown))
      ensures Now() == if !found then old(Now()) else if failed then Uninstall(old(Now()), id)
                       else Destroy(old(Now()), old(ioTable[id]))
      ensures found && !failed ==>
        var p := old(ioTable[id]); ios == old(ios) - {p} && log == old(log) + Farewell(p, old(ios[ioTable[id]]))
      ensures Valid() <==> !failed
    {
      ghost var s := Now();
      failed := false;
      var p := TakeFromTable(id);
      if p.None? {
        assert ioTable == s.ioTable;
        return false, false;
      }
      Named(s, id);
      if ios[p.value].kind.Subscription? && ios[p.value].subscribed {
        if thrown {
          StillQueued(s, p.value);
          return true, true;
        }
        log := log + [Cancelled(p.value)];
        ios := ios[p.value := ios[p.value].(subscribed := false)];
      }
      ExceptionOf(p.value, ECA_CHANDESTROY);
      Destroyed(s, p.value);
      return true, false;
    }

    /** Destroys a channel: every request in its queue is cancelled; none is missing from the
        table, and the queue runs empty, unless the circuit throws at a cancel request. */
    method DestroyChannel(c: nat, throwing: set<nat>) returns (failed: bool)
      requires Valid() && c in chans
      modifies this
      ensures failed <==> exists p :: p in old(ios) && old(ios)[p].chan == c && CancelThrows(old(ios)[p], p in throwing)
      ensures Valid() <==> !failed
      ensures !failed ==> chans.Keys == old(chans).Keys - {c}
      ensures !failed ==> forall p :: p in ios <==> p in old(ios) && old(ios[p]).chan != c
      ensures !failed ==> forall p :: p in ios ==> ios[p] == old(ios[p])
      ensures !failed ==> forall d :: d in chans ==> chans[d] == old(chans[d])
      ensures old(forall p :: p in chans[c].eventq ==> p in ios)
      ensures !failed ==>
        var q := old(chans[c].eventq); log == old(log) + Farewells(old(ios), q, |q|)
    {
      ghost var s := Now();
      ghost var q := chans[c].eventq;
      failed := LeaveAll(c, throwing);
      if failed {
        return;
      }
      LeaveDone(s, Now(), c, q);
      ChannelGone(Now(), c);
      chans := chans - {c};
    }

    /** The requests in the queue of a channel are cancelled, the first one first. */
    method LeaveAll(c: nat, throwing: set<nat>) returns (failed: bool)
      requires Valid() && c in chans
      modifies this
      ensures forall p :: p in old(chans[c].eventq) <==> p in old(ios) && old(ios)[p].chan == c
      ensures failed <==> exists p :: p in old(chans[c].eventq) && CancelThrows(old(ios)[p], p in throwing)
      ensures Valid() <==> !failed
      ensures !failed ==> c in chans && chans[c].eventq == []
      ensures !failed ==>
        var q := old(chans[c].eventq); Sealed(LeavingFacts, Leaving(old(Now()), Now(), c, q, |q|))
    {
      ghost var s := Now();
      LeaveStart(s, c);
      ghost var q, k := chans[c].eventq, 0;
      while chans[c].eventq != []
        invariant Valid() && c in chans && Sealed(LeavingFacts, Leaving(s, Now(), c, q, k))
        invariant k <= |q| && chans[c].eventq == q[k..]
        invariant forall j :: 0 <= j < k ==> !CancelThrows(s.ios[q[j]], q[j] in throwing)
        decreases |q| - k
      {
        failed := DestroyNext(s, c, q, k, throwing);
        if failed {
          return;
        }
        LeaveNext(s, Now(), c, q, k + 1);
        k := k + 1;
      }
      failed := false;
    }

    /** The first request of the queue of a channel is cancelled. */
    method DestroyNext(ghost s: State, c: nat, ghost q: seq<nat>, ghost k: nat, throwing: set<nat>)
      returns (failed: bool)
      requires Valid() && Sealed(LeavingFacts, Leaving(s, Now(), c, q, k)) && Distinct(q) && k < |q|
      requires c in chans && chans[c].eventq == q[k..]
      modifies this
      ensures q[k] in s.ios && failed == CancelThrows(s.ios[q[k]], q[k] in throwing) && (Valid() <==> !failed)
      ensures !failed ==> Sealed(LeavingFacts, Leaving(s, Now(), c, q, k + 1))
    {
      LeaveNext(s, Now(), c, q, k);
      LeaveStep(s, Now(), c, q, k);
      var p := chans[c].eventq[0];
      var found;
      found, failed := DestroyIO(ios[p].id, p in throwing);
      assert found;
    }

    method DisconnectIO(p: nat)
      requires Live(p)
      modifies `ios, `ioTable, `chans, `log
      ensures Now() == Disconnect(old(Now()), p)
    {
      if !ios[p].kind.Subscription? {
        ioTable := ioTable - {ios[p].id};
      }
      ExceptionOf(p, ECA_DISCONN);
    }

    /** One request of the walk: the position moves on only past a subscription, since a one-shot
        request takes itself out of the queue. */
    method DisconnectNext(ghost s: State, c: nat, ghost k: nat, i: nat) returns (next: nat)
      requires Inv(Now()) && Inv(s) && Walking(s, Now(), c, k, i) && c in chans && i < |chans[c].eventq|
      modifies `ios, `ioTable, `chans, `log
      ensures Inv(Now()) && Walking(s, Now(), c, k + 1, next) && c in chans
      ensures c in s.chans && k < |s.chans[c].eventq|
    {
      ghost var t := Now();
      WalkMore(s, t, c, k, i);
      var p := chans[c].eventq[i];
      next := if ios[p].kind.Subscription? then i + 1 else i;
      DisconnectIO(p);
      DisconnectKeeps(t, p);
    }

    /** A channel has lost its circuit: its one-shot requests end, its subscriptions stay in
        order and will have to be asked for again. */
    method DisconnectAllIO(c: nat)
      requires Valid() && c in chans
      modifies `ios, `ioTable, `chans, `log
      ensures Valid() && LostCircuit(old(Now()), Now(), c)
    {
      ghost var s := Now();
      ghost var k := 0;
      QueuedAll(s, c);
      WalkStart(s, c);
      var i := 0;
      while i < |chans[c].eventq|
        invariant 0 <= i && Inv(Now()) && c in chans && Walking(s, Now(), c, k, i)
        decreases |s.chans[c].eventq| - k
      {
        i := DisconnectNext(s, c, k, i);
        k := k + 1;
      }
      WalkDone(s, Now(), c, k, i);
    }

    /** The channel has been connected again: its subscriptions are asked for, but for those the
        circuit throws at. */
    method Resubscribe(c: nat, throwing: set<nat>)
      requires Valid() && c in chans
      modifies `ios, `log
      ensures Valid() && ios.Keys == old(ios).Keys
      ensures forall p :: p in ios ==> ios[p] == Resubscribed(old(ios[p]), c, p in throwing)
      ensures old(forall p :: p in chans[c].eventq ==> p in ios)
      ensures var q := old(chans[c].eventq); log == old(log) + Asks(old(ios), q, throwing, |q|)
    {
      ghost var s := Now();
      QueuedAll(s, c);
      var q := chans[c].eventq;
      var k := 0;
      Unseal(AskingFacts, Asking(s, s, c, q, throwing, 0));
      while k < |q|
        invariant 0 <= k <= |q| && Valid() && Sealed(AskingFacts, Asking(s, Now(), c, q, throwing, k))
      {
        ghost var t := Now();
        AskNext(s, t, c, q, throwing, k);
        assert q[k] in q;
        AskAgain(q[k], c, q[k] in throwing);
        AskStep(s, t, Now(), c, q, throwing, k);
        k := k + 1;
      }
      AskDone(s, Now(), c, q, throwing);
    }

    method AskAgain(p: nat, c: nat, thrown: bool)
      requires Valid() && p in ios && ios[p].chan == c
      modifies `ios, `log
      ensures Valid() && ios == old(ios)[p := Resubscribed(old(ios[p]), c, thrown)]
      ensures log == old(log) +
        if old(ios[p]).kind.Subscription? && !old(ios[p]).subscribed && !thrown then [Asked(p)] else []
    {
      if ios[p].kind.Subscription? {
        ghost var t := Now();
        var _ := SubscribeIfRequired(p, thrown);
        AskedKeeps(t, Now(), p);
      }
    }
  }
}
