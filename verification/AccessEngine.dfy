/** The running access security engine: members grouped under access security groups, and
    clients whose cached rights follow every change of configuration, group, client or input. */
module AccessEngines {
  import opened Options
  import opened AccessRules
  import opened AccessStates
  import opened Lists

  datatype Status = Ok | NotActive | ClientsExist | BadConfig

  class AccessEngine {
    var asActive: bool
    var caInitializing: bool
    var asgs: seq<Asg>
    var phash: Hash
    var members: Members
    var clients: Clients
    var next: nat
    /** Inputs of each group reported since the group was read. */
    ghost var reported: seq<set<nat>>
    /** The last thing heard of the inputs of each group since the group was read. */
    ghost var heard: seq<map<nat, Word>>
    /** Groups with changes that are recorded and not yet recalculated. */
    ghost var stale: set<nat>
    /** The access a client was last told through its callback. */
    ghost var told: map<nat, Access>

    ghost function Now(): State
      reads this
    {
      State(asgs, reported, caInitializing, stale, phash, members, clients, told, next)
    }

    ghost predicate Valid()
      reads this
    {
      if asActive then Inv(Now(), {}) && Heeded(asgs, heard)
      else
        && heard == [] && asgs == [] && members == map[] && clients == map[] && told == map[]
        && !caInitializing && stale == {}
    }

    constructor ()
      ensures Valid() && !asActive
    {
      asActive, caInitializing, asgs, phash, members, clients := false, false, [], {}, map[], map[];
      reported, heard, stale, told, next := [], [], {}, map[], 0;
    }

    // -------------------------------------------------------------- recomputing rights

    method ComputePvt(c: nat)
      requires c in clients && clients[c].member in members
      requires members[clients[c].member].pasg < |asgs| && ToldAll(clients, told)
      modifies `clients, `told
      ensures ToldAll(clients, told)
      ensures var pc := old(clients[c]);
        clients == old(clients)[c :=
            Rescored(phash, asgs[members[pc.member].pasg].rules, asgs[members[pc.member].pasg].inpBad, pc)]
      ensures told == if clients[c].callback && old(clients[c].access) != clients[c].access
        then old(told)[c := clients[c].access] else old(told)
    {
      var pc := clients[c];
      var access, trapMask :=
          Scan(phash, asgs[members[pc.member].pasg].rules, asgs[members[pc.member].pasg].inpBad, pc.who);
      clients := clients[c := pc.(access := access, trapMask := trapMask)];
      if pc.callback && pc.access != access {
        told := told[c := access];
      }
    }

    /** Recomputes the clients of a member, in order. */
    method ComputeClients(m: nat)
      requires m in members && members[m].pasg < |asgs| && ToldAll(clients, told) && ClientsLinked(members, clients)
      modifies `clients, `told
      ensures Rescoring(phash, asgs[members[m].pasg].rules, asgs[members[m].pasg].inpBad, old(clients),
              ClientsOf(old(clients), [m]), clients)
      ensures ToldAll(clients, told)
    {
      var list, g := members[m].clientList, members[m].pasg;
      ghost var all := clients;
      var k := 0;
      while k < |list|
        invariant 0 <= k <= |list|
        invariant Rescoring(phash, asgs[g].rules, asgs[g].inpBad, all, Elements(list[..k]), clients)
        invariant ToldAll(clients, told)
      {
        assert list[k] in list && all[list[k]].member == m;
        ghost var before := clients;
        ComputePvt(list[k]);
        RescoringOne(phash, asgs[g].rules, asgs[g].inpBad, all, list, k, before, clients);
        k := k + 1;
      }
      assert list[..k] == list;
      assert Elements(list) == ClientsOf(all, [m]);
    }

    /** Recomputes every client of every member of a group, in order. */
    method ComputeMembers(g: nat)
      requires g < |asgs| && ToldAll(clients, told) && ClientsLinked(members, clients)
      requires Distinct(asgs[g].memberList)
      requires forall m :: m in asgs[g].memberList ==> m in members && members[m].pasg == g
      modifies `clients, `told
      ensures Rescoring(phash, asgs[g].rules, asgs[g].inpBad, old(clients),
              ClientsOf(old(clients), asgs[g].memberList), clients)
      ensures ToldAll(clients, told)
    {
      var list := asgs[g].memberList;
      ghost var all := clients;
      var k := 0;
      while k < |list|
        invariant 0 <= k <= |list|
        invariant Rescoring(phash, asgs[g].rules, asgs[g].inpBad, all, ClientsOf(all, list[..k]), clients)
        invariant ToldAll(clients, told)
      {
        RescoringLinked(phash, asgs[g].rules, asgs[g].inpBad, all, ClientsOf(all, list[..k]), clients, members);
        ghost var before := clients;
        ComputeClients(list[k]);
        RescoringMore(phash, asgs[g].rules, asgs[g].inpBad, all, list, k, before, clients);
        k := k + 1;
      }
      assert list[..k] == list;
    }

    /** Recalculates the rules of a group that use a changed input, then recomputes the clients of
        the group. */
    method ComputeAsgPvt(g: nat)
      requires g < |asgs| && |reported| == |asgs| && AsgOk(asgs[g]) && UpToDate(asgs[g], reported[g])
      requires ClientsLinked(members, clients) && ToldAll(clients, told) && Distinct(asgs[g].memberList)
      requires forall m :: m in asgs[g].memberList ==> m in members && members[m].pasg == g
      modifies `asgs, `clients, `told, `stale
      ensures asgs == old(asgs)[g := Settled(old(asgs[g]), reported[g])] && ToldAll(clients, told)
      ensures stale == old(stale) - {g}
      ensures Rescoring(phash, asgs[g].rules, asgs[g].inpBad, old(clients),
              ClientsOf(old(clients), asgs[g].memberList), clients)
    {
      var renewed := Recalculate(asgs[g].rules, asgs[g].pavalue, asgs[g].inpChanged, reported[g]);
      asgs := asgs[g := asgs[g].(rules := renewed)];
      asgs := asgs[g := asgs[g].(inpChanged := {})];
      stale := stale - {g};
      ComputeMembers(g);
    }

    // -------------------------------------------------------------- members

    method FindGroup(name: string) returns (g: nat)
      requires HasDefault(asgs)
      ensures GroupFor(asgs, name, g)
      ensures g < |asgs| && (asgs[g].name == name || asgs[g].name == "DEFAULT")
      ensures (exists h :: 0 <= h < |asgs| && asgs[h].name == name) ==> asgs[g].name == name
    {
      g := 0;
      while g < |asgs|
        invariant 0 <= g <= |asgs|
        invariant forall h :: 0 <= h < g ==> asgs[h].name != name
      {
        if asgs[g].name == name {
          return;
        }
        g := g + 1;
      }
      g := 0;
      while g < |asgs|
        invariant 0 <= g <= |asgs|
        invariant forall h :: 0 <= h < g ==> asgs[h].name != DEFAULT
      {
        if asgs[g].name == DEFAULT {
          return;
        }
        g := g + 1;
      }
      assert false;
    }

    /** Puts a member into the group it names and works out the rights of its clients there. */
    method AddMemberPvt(m: nat, name: string) returns (g: nat)
      requires m in members && HasDefault(asgs) && ClientsLinked(members, clients) && ToldAll(clients, told)
      modifies `asgs, `members, `clients, `told
      ensures GroupFor(old(asgs), name, g) && ToldAll(clients, told)
      ensures asgs == old(asgs)[g := old(asgs)[g].(memberList := old(asgs)[g].memberList + [m])]
      ensures members == old(members)[m := old(members)[m].(asgName := name, pasg := g)]
      ensures Rescoring(phash, old(asgs)[g].rules, old(asgs)[g].inpBad, old(clients), ClientsOf(old(clients), [m]),
              clients)
    {
      g := FindGroup(name);
      SameLists(members, members[m := members[m].(asgName := name, pasg := g)], clients);
      members := members[m := members[m].(asgName := name, pasg := g)];
      asgs := asgs[g := asgs[g].(memberList := asgs[g].memberList + [m])];
      ComputeClients(m);
    }

    method NewMemberPvt(asgName: string) returns (m: nat, g: nat)
      requires HasDefault(asgs) && ClientsLinked(members, clients) && ToldAll(clients, told)
      requires Below(members, clients, next)
      modifies `asgs, `members, `clients, `told, `next
      ensures m == old(next) && next == m + 1 && GroupFor(old(asgs), asgName, g)
      ensures members == old(members)[m := Member(asgName, g, [])] && clients == old(clients)
      ensures asgs == old(asgs)[g := old(asgs)[g].(memberList := old(asgs)[g].memberList + [m])]
      ensures ToldAll(clients, told)
    {
      m := next;
      next := next + 1;
      ghost var members0, clients0 := members, clients;
      members := members[m := Member(asgName, 0, [])];
      g := AddMemberPvt(m, asgName);
      UpdateTwice(members0, m, Member(asgName, 0, []), Member(asgName, g, []));
      RescoringNone(phash, old(asgs)[g].rules, old(asgs)[g].inpBad, clients0, m, clients);
    }

    method AddMember(asgName: string) returns (status: Status, m: nat, g: nat)
      requires Valid()
      modifies `asgs, `members, `clients, `told, `next
      ensures Valid() && status == if asActive then Ok else NotActive
      ensures status == NotActive ==> Now() == old(Now())
      ensures status == Ok ==> m == old(next) && next == m + 1 && GroupFor(old(asgs), asgName, g)
      ensures status == Ok ==> members == old(members)[m := Member(asgName, g, [])] && clients == old(clients)
      ensures status == Ok ==>
        asgs == old(asgs)[g := old(asgs)[g].(memberList := old(asgs)[g].memberList + [m])]
    {
      if !asActive {
        return NotActive, 0, 0;
      }
      ghost var s := Now();
      InvUsable(s, {});
      m, g := NewMemberPvt(asgName);
      MemberAdded(s, s.(members := s.members[m := Member(asgName, 0, [])], next := m + 1), Now(), asgName, g);
      HeedsOne(s.asgs, heard, g, asgs[g]);
      status := Ok;
    }

    /** Removes a member, unless it still has clients. */
    method RemoveMember(m: nat) returns (status: Status)
      requires Valid() && (asActive ==> m in members)
      modifies `asgs, `members
      ensures Valid()
      ensures status == if !asActive then NotActive
        else if old(members[m].clientList) != [] then ClientsExist else Ok
      ensures status != Ok ==> asgs == old(asgs) && members == old(members)
      ensures status == Ok ==> members == old(members) - {m} && old(members)[m].pasg < |old(asgs)|
      ensures status == Ok ==> asgs == LeftGroup(old(asgs), old(members)[m].pasg, m)
    {
      if !asActive {
        return NotActive;
      }
      if |members[m].clientList| > 0 {
        return ClientsExist;
      }
      Leave(m);
      ghost var t, members0 := Now(), members;
      members := members - {m};
      MemberGone(t, Now(), m);
      HeedsOne(old(asgs), heard, members0[m].pasg, asgs[members0[m].pasg]);
      status := Ok;
    }

    /** Takes a member out of the list of its group. */
    method Leave(m: nat)
      requires Inv(Now(), {}) && m in members
      modifies `asgs
      ensures Inv(Now(), {m}) && members[m].pasg < |old(asgs)| && asgs == LeftGroup(old(asgs), members[m].pasg, m)
    {
      ghost var s := Now();
      MemberUsable(s, m);
      var g := members[m].pasg;
      asgs := asgs[g := asgs[g].(memberList := Without(asgs[g].memberList, m))];
      MemberLoose(s, Now(), m);
    }

    /** Moves a member to the group its new name leads to. */
    method ChangeGroup(m: nat, newName: string) returns (status: Status, g: nat)
      requires Valid() && (asActive ==> m in members)
      modifies `asgs, `members, `clients, `told
      ensures Valid() && status == if asActive then Ok else NotActive
      ensures status == NotActive ==> Now() == old(Now())
      ensures status == Ok ==> GroupFor(asgs, newName, g) && old(members)[m].pasg < |old(asgs)| && g < |old(asgs)|
      ensures status == Ok ==>
        var left := LeftGroup(old(asgs), old(members)[m].pasg, m);
        asgs == left[g := left[g].(memberList := left[g].memberList + [m])]
      ensures status == Ok ==> members == old(members)[m := old(members)[m].(asgName := newName, pasg := g)]
      ensures status == Ok ==>
        Rescoring(phash, asgs[g].rules, asgs[g].inpBad, old(clients), ClientsOf(old(clients), [m]), clients)
    {
      if !asActive {
        return NotActive, 0;
      }
      Leave(m);
      ghost var t := Now();
      InvUsable(t, {m});
      g := AddMemberPvt(m, newName);
      JoiningKeeps(t, Now(), {m}, m, newName, g);
      SameGroups(t.asgs, asgs, newName);
      HeedsMove(old(asgs), heard, t.members[m].pasg, m, g);
      assert {m} - {m} == {};
      status := Ok;
    }

    // -------------------------------------------------------------- clients

    /** The right a client has in the group of its member. */
    ghost function RescoredHere(pc: Client): Client
      requires pc.member in members && members[pc.member].pasg < |asgs|
      reads this
    {
      var g := asgs[members[pc.member].pasg];
      Rescored(phash, g.rules, g.inpBad, pc)
    }

    method AddClient(m: nat, asl: int, user: string, host: string) returns (status: Status, c: nat)
      requires Valid() && (asActive ==> m in members)
      modifies `members, `clients, `told, `next
      ensures Valid() && status == if asActive then Ok else NotActive
      ensures status == NotActive ==> Now() == old(Now())
      ensures status == Ok ==> c == old(next) && next == c + 1 && m in members && members[m].pasg < |asgs|
      ensures status == Ok ==>
        members == old(members)[m := old(members)[m].(clientList := old(members)[m].clientList + [c])]
      ensures status == Ok ==>
        clients == old(clients)[c := RescoredHere(Client(m, Who(asl, user, Lower(host)), ASNOACCESS, 0, false))]
    {
      if !asActive {
        return NotActive, 0;
      }
      ghost var s := Now();
      MemberUsable(s, m);
      c := next;
      next := next + 1;
      var pc := Client(m, Who(asl, user, Lower(host)), ASNOACCESS, 0, false);
      ghost var scored := RescoredHere(pc);
      RescoredIsCached(asgs, phash, members, pc);
      UpdateTwice(clients, c, pc, scored);
      clients := clients[c := pc];
      members := members[m := members[m].(clientList := members[m].clientList + [c])];
      ComputePvt(c);
      assert clients == s.clients[c := scored];
      ClientAdded(s, Now(), m);
      status := Ok;
    }

    method ChangeClient(c: nat, asl: int, user: string, host: string) returns (status: Status)
      requires Valid() && (asActive ==> c in clients)
      modifies `clients, `told
      ensures Valid() && status == if asActive then Ok else NotActive
      ensures status == NotActive ==> Now() == old(Now())
      ensures status == Ok ==> old(clients[c]).member in members && members[old(clients[c]).member].pasg < |asgs|
      ensures status == Ok ==>
        clients == old(clients)[c := RescoredHere(old(clients[c]).(who := Who(asl, user, host)))]
    {
      if !asActive {
        return NotActive;
      }
      ghost var s := Now();
      ClientUsable(s, c);
      var pc := clients[c].(who := Who(asl, user, host));
      RescoredIsCached(asgs, phash, members, pc);
      UpdateTwice(clients, c, pc, RescoredHere(pc));
      clients := clients[c := pc];
      ComputePvt(c);
      ClientSet(s, Now(), c);
      status := Ok;
    }

    method RemoveClient(c: nat) returns (status: Status)
      requires Valid() && (asActive ==> c in clients)
      modifies `members, `clients
      ensures Valid() && status == if asActive then Ok else NotActive
      ensures status == NotActive ==> Now() == old(Now())
      ensures status == Ok ==> clients == old(clients) - {c}
      ensures status == Ok ==> old(clients[c]).member in old(members)
      ensures status == Ok ==>
        var m := old(clients[c]).member;
        members == old(members)[m := old(members)[m].(clientList := Without(old(members)[m].clientList, c))]
    {
      if !asActive {
        return NotActive;
      }
      ghost var s := Now();
      ClientUsable(s, c);
      var m := clients[c].member;
      members := members[m := members[m].(clientList := Without(members[m].clientList, c))];
      clients := clients - {c};
      ClientGone(s, Now(), m, c);
      status := Ok;
    }

    /** Registers a callback and calls it at once with the present access. */
    method RegisterClientCallback(c: nat) returns (status: Status)
      requires Valid() && (asActive ==> c in clients)
      modifies `clients, `told
      ensures Valid() && status == if asActive then Ok else NotActive
      ensures status == NotActive ==> Now() == old(Now())
      ensures status == Ok ==> clients == old(clients)[c := old(clients[c]).(callback := true)]
      ensures status == Ok ==> told == old(told)[c := old(clients[c]).access]
    {
      if !asActive {
        return NotActive;
      }
      ghost var s := Now();
      ClientUsable(s, c);
      clients := clients[c := clients[c].(callback := true)];
      told := told[c := clients[c].access];
      CallbackCached(s, c);
      ClientSet(s, Now(), c);
      status := Ok;
    }

    // -------------------------------------------------------------- inputs

    ghost predicate IsInput(g: nat, i: nat)
      reads this
    {
      asActive && g < |asgs| && i in asgs[g].inps
    }

    /** Recalculates one group. */
    method ComputeAsg(g: nat, ghost s: State, ghost h: Asg, ghost rep: set<nat>)
      requires asActive && Inv(s, {}) && Reporting(s, Now(), g, h, rep) && Heeded(asgs, heard)
      modifies `asgs, `clients, `told, `stale
      ensures Valid() && asgs == s.asgs[g := Settled(h, rep)] && stale == s.stale - {g}
      ensures SameClients(old(clients), clients)
    {
      InvUsable(s, {});
      GroupMembers(s, g);
      ComputeAsgPvt(g);
      RescoringSame(phash, asgs[g].rules, asgs[g].inpBad, s.clients, ClientsOf(s.clients, h.memberList), clients);
      UpdateSeqTwice(s.asgs, g, h, asgs[g]);
      Recomputed(s, Now(), g, h, rep);
      HeedsOne(old(asgs), heard, g, asgs[g]);
    }

    /** An input has lost its connection: it is bad from now on, its value stays, and so do the
        other inputs. */
    method ConnectCallback(g: nat, i: nat)
      requires Valid() && IsInput(g, i)
      modifies `asgs, `clients, `told, `stale, `heard
      ensures Valid() && g < |reported| && old(AsgOk(asgs[g])) && g < |old(heard)|
      ensures heard == Hear(old(heard), g, i, Lost)
      ensures asgs[g].inpBad == old(asgs[g].inpBad) + {i} && asgs[g].pavalue == old(asgs[g].pavalue)
      ensures var h := old(asgs[g]).(inpBad := old(asgs[g].inpBad) + {i});
        asgs == if i in old(asgs[g].inpBad) then old(asgs)
                else old(asgs)[g := if caInitializing then h else Settled(h, reported[g])]
      ensures stale == if caInitializing && i !in old(asgs[g].inpBad) then old(stale) + {g} else old(stale)
      ensures SameClients(old(clients), clients)
    {
      MakeBad(g, i, Lost);
    }

    /** An input becomes bad, and its group is recalculated if it was good. */
    method MakeBad(g: nat, i: nat, ghost w: Word)
      requires Valid() && IsInput(g, i) && !w.Value?
      modifies `asgs, `clients, `told, `stale, `heard
      ensures Valid() && g < |reported| && old(AsgOk(asgs[g])) && g < |old(heard)|
      ensures heard == Hear(old(heard), g, i, w)
      ensures asgs[g].inpBad == old(asgs[g].inpBad) + {i} && asgs[g].pavalue == old(asgs[g].pavalue)
      ensures var h := old(asgs[g]).(inpBad := old(asgs[g].inpBad) + {i});
        asgs == if i in old(asgs[g].inpBad) then old(asgs)
                else old(asgs)[g := if caInitializing then h else Settled(h, reported[g])]
      ensures stale == if caInitializing && i !in old(asgs[g].inpBad) then old(stale) + {g} else old(stale)
      ensures SameClients(old(clients), clients)
    {
      ghost var s := Now();
      GroupFine(s, g);
      ghost var h := asgs[g].(inpBad := asgs[g].inpBad + {i});
      HeedsWord(asgs, heard, g, i, w, h);
      heard := Hear(heard, g, i, w);
      if i !in asgs[g].inpBad {
        asgs := asgs[g := asgs[g].(inpBad := asgs[g].inpBad + {i})];
        assert reported == s.reported[g := reported[g]];
        if !caInitializing {
          NoneWaits(s);
          ComputeAsg(g, s, h, reported[g]);
        } else {
          stale := stale + {g};
          Recorded(s, Now(), g, h, reported[g]);
        }
      } else {
        assert asgs[g].inpBad + {i} == asgs[g].inpBad;
        assert asgs[g := h] == asgs;
      }
    }

    /** A report for an input: unreadable inputs become bad, an invalid value makes its input bad
        and leaves the value, any other value makes it good; both kinds mark it as changed. */
    method EventCallback(g: nat, i: nat, normal: bool, sameChannel: bool, readable: bool, invalid: bool, value: real)
      requires Valid() && IsInput(g, i)
      modifies `asgs, `clients, `told, `reported, `stale, `heard
      ensures Valid() && g < |reported| && g < |old(reported)| && old(AsgOk(asgs[g])) && i < ASMAXINP
      ensures |asgs| == |old(asgs)| && g < |old(heard)|
      ensures forall h :: 0 <= h < |asgs| && h != g ==> asgs[h] == old(asgs[h])
      // what becomes of the inputs of the group
      ensures !normal || !sameChannel ==> Now() == old(Now()) && heard == old(heard)
      ensures normal && sameChannel && readable && !invalid ==>
        asgs[g].inpBad == old(asgs[g].inpBad) - {i} && asgs[g].pavalue == old(asgs[g].pavalue)[i := value] &&
        heard == Hear(old(heard), g, i, Value(value))
      ensures normal && sameChannel && (!readable || invalid) ==>
        asgs[g].inpBad == old(asgs[g].inpBad) + {i} && asgs[g].pavalue == old(asgs[g].pavalue) &&
        heard == Hear(old(heard), g, i, if readable then Invalid else Unreadable)
      // what becomes of its rules
      ensures !normal || !sameChannel || !readable ==> reported == old(reported)
      ensures normal && sameChannel && !readable ==>
        var h := old(asgs[g]).(inpBad := old(asgs[g].inpBad) + {i});
        asgs == if i in old(asgs[g].inpBad) then old(asgs)
                else old(asgs)[g := if caInitializing then h else Settled(h, reported[g])]
      ensures normal && sameChannel && readable ==> reported == old(reported)[g := old(reported)[g] + {i}]
      ensures normal && sameChannel && readable ==>
        var h := Read(old(asgs[g]), i, invalid, value);
        asgs == old(asgs)[g := if caInitializing then h else Settled(h, reported[g])]
      ensures stale <= old(stale) + {g} && old(stale) <= stale && SameClients(old(clients), clients)
    {
      ghost var s := Now();
      GroupFine(s, g);
      if !normal || !sameChannel {
        return;
      }
      if !readable {
        MakeBad(g, i, Unreadable);
        return;
      }
      UseReport(g, i, invalid, value);
    }

    /** A report that can be read. */
    method UseReport(g: nat, i: nat, invalid: bool, value: real)
      requires Valid() && IsInput(g, i) && g < |reported| && AsgOk(asgs[g]) && i < ASMAXINP && g < |heard|
      modifies `asgs, `clients, `told, `reported, `stale, `heard
      ensures Valid() && reported == old(reported)[g := old(reported)[g] + {i}]
      ensures heard == Hear(old(heard), g, i, if invalid then Invalid else Value(value))
      ensures var h := Read(old(asgs[g]), i, invalid, value);
        asgs == old(asgs)[g := if caInitializing then h else Settled(h, reported[g])]
      ensures stale <= old(stale) + {g} && old(stale) <= stale && SameClients(old(clients), clients)
    {
      ghost var s := Now();
      GroupFine(s, g);
      ghost var w := if invalid then Invalid else Value(value);
      HeedsWord(asgs, heard, g, i, w, Read(asgs[g], i, invalid, value));
      TakeReport(g, i, invalid, value);
      heard := Hear(heard, g, i, w);
      if !caInitializing {
        NoneWaits(s);
        ComputeAsg(g, s, Read(s.asgs[g], i, invalid, value), reported[g]);
      } else {
        stale := stale + {g};
        Recorded(s, Now(), g, asgs[g], reported[g]);
      }
    }

    /** Takes the value of a report into its group. */
    method TakeReport(g: nat, i: nat, invalid: bool, value: real)
      requires g < |asgs| == |reported| && AsgOk(asgs[g]) && UpToDate(asgs[g], reported[g]) && i < ASMAXINP
      modifies `asgs, `reported
      ensures reported == old(reported)[g := old(reported)[g] + {i}]
      ensures Reporting(old(Now()), Now(), g, Read(old(asgs[g]), i, invalid, value), reported[g])
    {
      ghost var h := Read(asgs[g], i, invalid, value);
      Reported(asgs[g], reported[g], i, h.pavalue[i], h.inpBad);
      assert asgs[g].pavalue[i := h.pavalue[i]] == h.pavalue;
      if invalid {
        asgs := asgs[g := asgs[g].(inpBad := asgs[g].inpBad + {i})];
      } else {
        asgs := asgs[g := asgs[g].(inpBad := asgs[g].inpBad - {i})];
        asgs := asgs[g := asgs[g].(pavalue := asgs[g].pavalue[i := value])];
      }
      asgs := asgs[g := asgs[g].(inpChanged := asgs[g].inpChanged + {i})];
      reported := reported[g := reported[g] + {i}];
      assert asgs[g] == h && asgs == old(asgs)[g := h];
    }

    // -------------------------------------------------------------- connecting the inputs

    /** Recalculates one group more. */
    method ComputeOneMore(g: nat)
      requires Partial(Now().(initializing := true), g) && g < |asgs| == |reported|
      modifies `asgs, `clients, `told, `stale
      ensures Partial(Now().(initializing := true), g + 1)
      ensures AsgOk(old(asgs[g])) && asgs == old(asgs)[g := Settled(old(asgs[g]), reported[g])]
      ensures SameClients(old(clients), clients)
    {
      ghost var s := Now().(initializing := true);
      GroupFine(s, g);
      InvUsable(s, {});
      GroupMembers(s, g);
      ComputeAsgPvt(g);
      RescoringSame(phash, asgs[g].rules, asgs[g].inpBad, s.clients, ClientsOf(s.clients, asgs[g].memberList),
                    clients);
      PartialStep(s, Now().(initializing := true), g);
    }

    method ComputeAllAsgPvt()
      requires asActive && Inv(Now().(initializing := true), {})
      modifies `asgs, `clients, `told, `stale
      ensures |asgs| == |old(asgs)| == |reported| && Inv(Now().(initializing := false), {})
      ensures Inv(Now().(initializing := true), {}) && stale == {}
      ensures forall g :: 0 <= g < |asgs| ==> AsgOk(old(asgs[g])) && asgs[g] == Settled(old(asgs[g]), reported[g])
      ensures SameClients(old(clients), clients)
    {
      Weaken(Now().(initializing := true));
      InvUsable(Now().(initializing := true), {});
      var g := 0;
      while g < |asgs|
        invariant 0 <= g <= |asgs| == |old(asgs)| == |reported| && Partial(Now().(initializing := true), g)
        invariant forall h :: g <= h < |asgs| ==> asgs[h] == old(asgs[h])
        invariant forall h :: 0 <= h < g ==> AsgOk(old(asgs[h])) && asgs[h] == Settled(old(asgs[h]), reported[h])
        invariant SameClients(old(clients), clients)
      {
        ghost var before := clients;
        ComputeOneMore(g);
        SameTwice(old(clients), before, clients);
        g := g + 1;
      }
      PartialDone(Now().(initializing := true));
    }

    method ComputeAllAsg() returns (status: Status)
      requires Valid()
      modifies `asgs, `clients, `told, `stale
      ensures Valid() && status == if asActive then Ok else NotActive
      ensures status == NotActive ==> Now() == old(Now())
      ensures status == Ok ==> |asgs| == |old(asgs)| == |reported| && stale == {} && SameClients(old(clients), clients)
      ensures status == Ok ==>
        forall g :: 0 <= g < |asgs| ==> AsgOk(old(asgs[g])) && asgs[g] == Settled(old(asgs[g]), reported[g])
    {
      if !asActive {
        return NotActive;
      }
      Weaken(Now());
      ComputeAllAsgPvt();
      HeedsInputs(old(asgs), asgs, heard);
      status := Ok;
    }

    /** The inputs of the groups are about to be connected: nothing is recomputed until they
        all are. */
    method StartInputs()
      requires Valid() && asActive
      modifies `caInitializing
      ensures Valid() && caInitializing
    {
      Weaken(Now());
      caInitializing := true;
    }

    /** One input is about to be connected: it is bad until it reports. */
    method AddInput(g: nat, i: nat)
      requires Valid() && IsInput(g, i) && caInitializing
      modifies `asgs, `stale, `heard
      ensures Valid() && g < |old(heard)| && heard == Hear(old(heard), g, i, Awaited)
      ensures asgs == old(asgs)[g := old(asgs[g]).(inpBad := old(asgs[g].inpBad) + {i})]
      ensures stale == old(stale) + {g}
    {
      ghost var s := Now();
      GroupFine(s, g);
      HeedsWord(asgs, heard, g, i, Awaited, asgs[g].(inpBad := asgs[g].inpBad + {i}));
      heard := Hear(heard, g, i, Awaited);
      asgs := asgs[g := asgs[g].(inpBad := asgs[g].inpBad + {i})];
      assert reported == s.reported[g := reported[g]];
      stale := stale + {g};
      Recorded(s, Now(), g, asgs[g], reported[g]);
    }

    /** Every input has been asked for: everything is recomputed. */
    method InputsStarted()
      requires Valid() && asActive && caInitializing
      modifies `asgs, `clients, `told, `stale, `caInitializing
      ensures Valid() && !caInitializing && |asgs| == |old(asgs)| == |reported| && SameClients(old(clients), clients)
      ensures forall g :: 0 <= g < |asgs| ==> AsgOk(old(asgs[g])) && asgs[g] == Settled(old(asgs[g]), reported[g])
    {
      caInitializing := false;
      ComputeAllAsgPvt();
      HeedsInputs(old(asgs), asgs, heard);
    }

    // -------------------------------------------------------------- a new configuration

    /** Moves one member to its new group. */
    method MoveMember(m: nat, ghost loose: set<nat>)
      requires Inv(Now(), loose) && m in loose && m in members
      modifies `asgs, `members, `clients, `told
      ensures Inv(Now(), loose - {m}) && Moved(old(Now()), Now())
    {
      ghost var s := Now();
      InvUsable(s, loose);
      var g := AddMemberPvt(m, members[m].asgName);
      JoiningKeeps(s, Now(), loose, m, s.members[m].asgName, g);
      JoiningMoves(s, Now(), m, g);
    }

    /** Moves the members of an old group to the new groups, in order. */
    method MoveMembers(list: seq<nat>, ghost loose: set<nat>)
      requires Inv(Now(), loose) && Distinct(list) && forall m :: m in list ==> m in loose && m in members
      modifies `asgs, `members, `clients, `told
      ensures Inv(Now(), loose - Elements(list)) && Moved(old(Now()), Now())
    {
      ghost var s0 := Now();
      assert loose - Elements(list[..0]) == loose;
      var k := 0;
      while k < |list|
        invariant 0 <= k <= |list| && Inv(Now(), loose - Elements(list[..k])) && Moved(s0, Now())
      {
        ghost var s, left := Now(), loose - Elements(list[..k]);
        assert list[..k + 1] == list[..k] + [list[k]];
        assert left - {list[k]} == loose - Elements(list[..k + 1]);
        MoveMember(list[k], left);
        MovedTwice(s0, s, Now());
        k := k + 1;
      }
      assert list[..k] == list;
    }

    /** Takes in a configuration: a bad one changes nothing; a good one replaces the old one and
        takes over every member with its clients. */
    method Initialize(config: Option<Config>) returns (status: Status)
      requires Valid() && (config.Some? ==> ConfigOk(config.value))
      modifies this
      ensures Valid() && status == if config.Some? then Ok else BadConfig
      ensures config.None? ==> asActive == old(asActive) && Now() == old(Now())
      ensures config.Some? ==> asActive && |asgs| == |config.value.asgs|
      ensures config.Some? ==> forall g :: 0 <= g < |asgs| ==>
        asgs[g] == config.value.asgs[g].(pavalue := Zeros(), memberList := asgs[g].memberList)
      ensures config.Some? ==> forall p :: p in phash <==> InHash(config.value, p.0, p.1)
      ensures config.Some? ==> members.Keys == old(members).Keys && clients.Keys == old(clients).Keys
      ensures config.Some? ==>
        forall m :: m in members ==> members[m] == old(members)[m].(pasg := members[m].pasg)
      ensures config.Some? ==> forall c :: c in clients ==>
        clients[c] == old(clients)[c].(access := clients[c].access, trapMask := clients[c].trapMask)
      ensures caInitializing == old(caInitializing) && next == old(next)
      ensures config.Some? ==> |heard| == |asgs| && forall g :: 0 <= g < |heard| ==> heard[g] == map[]
    {
      if config.None? {
        return BadConfig;
      }
      var c := config.value;
      var groups := c.asgs;
      var k := 0;
      while k < |groups|
        invariant 0 <= k <= |groups| == |c.asgs|
        invariant forall g :: 0 <= g < k ==> groups[g] == c.asgs[g].(pavalue := Zeros())
        invariant forall g :: k <= g < |groups| ==> groups[g] == c.asgs[g]
      {
        groups := groups[k := groups[k].(pavalue := Zeros())];
        k := k + 1;
      }
      var h := HashNames(c.uags, true, {});
      h := HashNames(c.hags, false, h);
      assert forall p :: p in h <==> InHash(c, p.0, p.1);
      Swap(c, groups, h);
      return Ok;
    }

    /** Puts the new groups in place of the old ones and moves every member. */
    method Swap(ghost c: Config, groups: seq<Asg>, h: Hash)
      requires Valid() && ConfigOk(c) && |groups| == |c.asgs|
      requires forall g :: 0 <= g < |groups| ==> groups[g] == c.asgs[g].(pavalue := Zeros())
      modifies this
      ensures Valid() && asActive && phash == h && SameRules(groups, asgs)
      ensures heard == seq(|groups|, _ => map[])
      ensures Moved(old(Now()).(asgs := groups, reported := reported, stale := {}, phash := phash), Now())
    {
      ghost var s := Now();
      var oldAsgs := asgs;
      PutGroups(groups, h);
      Swapped(s, Now(), c);
      if asActive {
        MoveAll(oldAsgs, s);
      } else {
        assert s.members.Keys == {};
      }
      asActive := true;
      heard := seq(|groups|, _ => map[]);
      HeedsNothing(groups, heard);
      HeedsInputs(groups, asgs, heard);
    }

    method PutGroups(groups: seq<Asg>, h: Hash)
      modifies `asgs, `phash, `reported, `stale
      ensures Now() == old(Now()).(asgs := groups, reported := reported, stale := {}, phash := h)
      ensures |reported| == |groups| && forall g :: 0 <= g < |groups| ==> reported[g] == {}
    {
      asgs, phash := groups, h;
      reported := seq(|groups|, _ => {});
      stale := {};
    }

    /** Moves the members of all the old groups, in order. */
    method MoveAll(oldAsgs: seq<Asg>, ghost s: State)
      requires Inv(s, {}) && s.asgs == oldAsgs && Inv(Now(), s.members.Keys) && members == s.members
      modifies `asgs, `members, `clients, `told
      ensures Inv(Now(), {}) && Moved(old(Now()), Now())
    {
      ghost var t := Now();
      OldGroups(s);
      var k := 0;
      while k < |oldAsgs|
        invariant 0 <= k <= |oldAsgs| && Inv(Now(), From(s.members, k)) && Moved(t, Now())
      {
        OldGroup(s, k);
        ghost var u := Now();
        MoveMembers(oldAsgs[k].memberList, From(s.members, k));
        MovedTwice(t, u, Now());
        k := k + 1;
      }
    }
  }

  /** Adds every name of some lists to the hash table. */
  method HashNames(lists: seq<NameList>, uags: bool, h: Hash) returns (phash: Hash)
    ensures forall p :: p in phash <==> p in h || (p.1.Uag? == uags && Listed(lists, p.1.name, p.0))
  {
    phash := h;
    var k := 0;
    while k < |lists|
      invariant 0 <= k <= |lists|
      invariant forall p :: p in phash <==> p in h || (p.1.Uag? == uags && Listed(lists[..k], p.1.name, p.0))
    {
      var j := 0;
      var names, group := lists[k].names, if uags then Uag(lists[k].name) else Hag(lists[k].name);
      ghost var before := phash;
      while j < |names|
        invariant 0 <= j <= |names|
        invariant forall p :: p in phash <==> p in before || (p.1 == group && p.0 in names[..j])
      {
        phash := phash + {(names[j], group)};
        j := j + 1;
      }
      assert names[..j] == names;
      ListedMore(lists, k);
      k := k + 1;
    }
    assert lists[..k] == lists;
  }

  lemma ListedMore(lists: seq<NameList>, k: nat)
    requires k < |lists|
    ensures forall name: string, who: string ::
      Listed(lists[..k + 1], name, who) <==>
          Listed(lists[..k], name, who) || (lists[k].name == name && who in lists[k].names)
  {
    var p, q := lists[..k], lists[..k + 1];
    forall name: string, who: string
      ensures Listed(q, name, who) <==> Listed(p, name, who) || (lists[k].name == name && who in lists[k].names)
    {
      if j :| 0 <= j < |q| && q[j].name == name && who in q[j].names {
        assert j < k ==> p[j] == q[j];
      }
      if j :| 0 <= j < |p| && p[j].name == name && who in p[j].names {
        assert p[j] == q[j];
      }
      assert q[k] == lists[k];
    }
  }
}
