/** The state of access security as one value: what always holds of it, and that every step of
    the engine keeps it. */
module AccessStates {
  import opened AccessRules
  import opened Lists
  import opened Sealing

  datatype Member = Member(asgName: string, pasg: nat, clientList: seq<nat>)

  datatype Client = Client(member: nat, who: Who, access: Access, trapMask: int, callback: bool)

  type Members = map<nat, Member>
  type Clients = map<nat, Client>

  /** The fields of the engine as one value; `stale` are the groups with changes recorded and not
      yet recalculated. */
  datatype State = State(
    asgs: seq<Asg>, reported: seq<set<nat>>, initializing: bool, stale: set<nat>, phash: Hash,
    members: Members, clients: Clients, told: map<nat, Access>, next: nat)

  lemma UpdateTwice<T>(a: map<nat, T>, k: nat, x: T, y: T)
    ensures a[k := x][k := y] == a[k := y]
  {
  }

  // ---------------------------------------------------------------- structure

  /** Every member outside `loose` is in the list of its group and in no other, once. */
  ghost predicate MembersLinked(asgs: seq<Asg>, members: Members, loose: set<nat>) {
    && (forall g :: 0 <= g < |asgs| ==> Distinct(asgs[g].memberList))
    && (forall g, m :: 0 <= g < |asgs| && m in asgs[g].memberList ==>
          m in members && m !in loose && members[m].pasg == g)
    && (forall m :: m in members && m !in loose ==>
          members[m].pasg < |asgs| && m in asgs[members[m].pasg].memberList)
  }

  /** Every client is in the list of its member and in no other, once. */
  ghost predicate ClientsLinked(members: Members, clients: Clients) {
    && (forall m :: m in members ==> Distinct(members[m].clientList))
    && (forall m, c :: m in members && c in members[m].clientList ==> c in clients && clients[c].member == m)
    && (forall c :: c in clients ==> clients[c].member in members && c in members[clients[c].member].clientList)
  }

  /** Client table `b` is `a` with the rights of some clients worked out against a group. */
  ghost predicate Rescoring(phash: Hash, rules: seq<Rule>, inpBad: set<nat>, a: Clients, which: set<nat>, b: Clients) {
    b.Keys == a.Keys && forall c :: c in a ==> b[c] == if c in which then Rescored(phash, rules, inpBad, a[c]) else a[c]
  }

  /** The same clients, of the same members and with the same callbacks: only their rights may differ. */
  ghost predicate SameClients(a: Clients, b: Clients) {
    b.Keys == a.Keys && forall c :: c in a ==> b[c] == a[c].(access := b[c].access, trapMask := b[c].trapMask)
  }

  lemma RescoringSame(phash: Hash, rules: seq<Rule>, inpBad: set<nat>, a: Clients, which: set<nat>, b: Clients)
    requires Rescoring(phash, rules, inpBad, a, which, b)
    ensures SameClients(a, b)
  {
  }

  lemma SameTwice(a: Clients, b: Clients, c: Clients)
    requires SameClients(a, b) && SameClients(b, c)
    ensures SameClients(a, c)
  {
  }

  /** The clients of some members. */
  ghost function ClientsOf(clients: Clients, list: seq<nat>): set<nat> {
    set c | c in clients && clients[c].member in list
  }

  lemma RescoringLinked(phash: Hash, rules: seq<Rule>, inpBad: set<nat>, a: Clients, which: set<nat>, b: Clients,
      members: Members)
    requires Rescoring(phash, rules, inpBad, a, which, b)
    ensures ClientsLinked(members, a) <==> ClientsLinked(members, b)
  {
    assert forall c :: c in a ==> b[c].member == a[c].member;
  }

  ghost function Elements(list: seq<nat>): set<nat> {
    set x | x in list
  }

  lemma RescoringOne(phash: Hash, rules: seq<Rule>, inpBad: set<nat>, a: Clients, list: seq<nat>, k: nat, b: Clients,
      c: Clients)
    requires k < |list| && Distinct(list) && list[k] in b
    requires Rescoring(phash, rules, inpBad, a, Elements(list[..k]), b)
    requires c == b[list[k] := Rescored(phash, rules, inpBad, b[list[k]])]
    ensures Rescoring(phash, rules, inpBad, a, Elements(list[..k + 1]), c)
  {
    assert list[..k + 1] == list[..k] + [list[k]];
  }

  lemma RescoringMore(phash: Hash, rules: seq<Rule>, inpBad: set<nat>, a: Clients, list: seq<nat>, k: nat,
      b: Clients, c: Clients)
    requires k < |list| && Distinct(list)
    requires Rescoring(phash, rules, inpBad, a, ClientsOf(a, list[..k]), b)
    requires Rescoring(phash, rules, inpBad, b, ClientsOf(b, [list[k]]), c)
    ensures Rescoring(phash, rules, inpBad, a, ClientsOf(a, list[..k + 1]), c)
  {
    assert list[..k + 1] == list[..k] + [list[k]];
    forall x | x in a
      ensures c[x] == if x in ClientsOf(a, list[..k + 1]) then Rescored(phash, rules, inpBad, a[x]) else a[x]
    {
      assert a[x].member == b[x].member;
    }
  }

  /** A client with its right worked out against a group. */
  function Rescored(phash: Hash, rules: seq<Rule>, inpBad: set<nat>, c: Client): Client {
    var (access, trapMask) := Rights(phash, rules, inpBad, c.who);
    c.(access := access, trapMask := trapMask)
  }

  // ---------------------------------------------------------------- what always holds

  /** The group a member name leads to: the one of that name, or DEFAULT if there is none. */
  ghost predicate GroupFor(asgs: seq<Asg>, name: string, g: nat) {
    && g < |asgs|
    && if exists h :: 0 <= h < |asgs| && asgs[h].name == name then asgs[g].name == name
       else asgs[g].name == DEFAULT
  }

  ghost predicate HasDefault(asgs: seq<Asg>) {
    exists g :: 0 <= g < |asgs| && asgs[g].name == DEFAULT
  }

  ghost predicate GroupsOk(asgs: seq<Asg>, reported: seq<set<nat>>, stale: set<nat>) {
    && |reported| == |asgs| && HasDefault(asgs)
    && (forall g :: 0 <= g < |asgs| ==> AsgOk(asgs[g]) && UpToDate(asgs[g], reported[g]))
    && (forall g :: g in stale ==> g < |asgs|)
    && (forall g :: 0 <= g < |asgs| && g !in stale ==> asgs[g].inpChanged == {})
    && (forall g, h :: 0 <= g < h < |asgs| ==> asgs[g].name != asgs[h].name)
  }

  ghost predicate PlacedAll(asgs: seq<Asg>, members: Members, loose: set<nat>) {
    forall m :: m in members && m !in loose ==> GroupFor(asgs, members[m].asgName, members[m].pasg)
  }

  /** The cached right is what the results of the rules of the group give. */
  ghost predicate Cached(asgs: seq<Asg>, phash: Hash, members: Members, c: Client) {
    && c.member in members && members[c.member].pasg < |asgs|
    && var g := asgs[members[c.member].pasg];
       c == Rescored(phash, g.rules, g.inpBad, c)
  }

  /** The client belongs to a group that waits for its recalculation. */
  predicate Waits(members: Members, c: Client, stale: set<nat>) {
    c.member in members && members[c.member].pasg in stale
  }

  ghost predicate CachedAll(asgs: seq<Asg>, phash: Hash, members: Members, clients: Clients, loose: set<nat>,
      stale: set<nat>)
  {
    forall c :: c in clients && clients[c].member !in loose && !Waits(members, clients[c], stale) ==>
      Cached(asgs, phash, members, clients[c])
  }

  /** A client with a callback was last told the access it has. */
  ghost predicate ToldAll(clients: Clients, told: map<nat, Access>) {
    forall c :: c in clients && clients[c].callback ==> c in told && told[c] == clients[c].access
  }

  ghost predicate Below(members: Members, clients: Clients, next: nat) {
    (forall m :: m in members ==> m < next) && (forall c :: c in clients ==> c < next)
  }

  // ---------------------------------------------------------------- one member or client more or less

  lemma MemberJoins(asgs: seq<Asg>, members: Members, loose: set<nat>, m: nat, g: nat, name: string)
    requires MembersLinked(asgs, members, loose) && m in members && m in loose && g < |asgs|
    ensures var joined := asgs[g := asgs[g].(memberList := asgs[g].memberList + [m])];
            MembersLinked(joined, members[m := members[m].(asgName := name, pasg := g)], loose - {m})
  {
    var joined := asgs[g := asgs[g].(memberList := asgs[g].memberList + [m])];
    DistinctSnoc(asgs[g].memberList, m);
    assert forall h :: 0 <= h < |asgs| && h != g ==> joined[h] == asgs[h];
    assert m in joined[g].memberList;
  }

  /** The groups after a member has left its list. */
  function LeftGroup(asgs: seq<Asg>, g: nat, m: nat): (left: seq<Asg>)
    requires g < |asgs|
    ensures |left| == |asgs|
  {
    asgs[g := asgs[g].(memberList := Without(asgs[g].memberList, m))]
  }

  lemma MemberLeaves(asgs: seq<Asg>, members: Members, m: nat)
    requires MembersLinked(asgs, members, {}) && m in members
    ensures members[m].pasg < |asgs| && MembersLinked(LeftGroup(asgs, members[m].pasg, m), members, {m})
  {
    var left := LeftGroup(asgs, members[m].pasg, m);
    assert forall h, n :: 0 <= h < |asgs| && n != m ==> (n in left[h].memberList <==> n in asgs[h].memberList);
    assert forall h :: 0 <= h < |asgs| ==> m !in left[h].memberList;
  }

  /** Groups that differ in their member lists only. */
  ghost predicate SameRules(a: seq<Asg>, b: seq<Asg>) {
    |a| == |b| && forall g :: 0 <= g < |a| ==> b[g] == a[g].(memberList := b[g].memberList)
  }

  lemma SameGroups(a: seq<Asg>, b: seq<Asg>, name: string)
    requires SameRules(a, b)
    ensures forall g: nat :: GroupFor(a, name, g) <==> GroupFor(b, name, g)
  {
    if h :| 0 <= h < |b| && b[h].name == name {
      assert a[h].name == name;
    }
    if h :| 0 <= h < |a| && a[h].name == name {
      assert b[h].name == name;
    }
  }

  lemma SameRulesCached(a: seq<Asg>, b: seq<Asg>, phash: Hash, members: Members, clients: Clients, loose: set<nat>,
      stale: set<nat>)
    requires SameRules(a, b) && CachedAll(a, phash, members, clients, loose, stale)
    ensures CachedAll(b, phash, members, clients, loose, stale)
  {
    forall c | c in clients && clients[c].member !in loose && !Waits(members, clients[c], stale)
      ensures Cached(b, phash, members, clients[c]) {
      assert Cached(a, phash, members, clients[c]);
    }
  }

  lemma SameRulesGroups(a: seq<Asg>, b: seq<Asg>, reported: seq<set<nat>>, stale: set<nat>)
    requires SameRules(a, b) && GroupsOk(a, reported, stale)
    ensures GroupsOk(b, reported, stale)
  {
    var d :| 0 <= d < |a| && a[d].name == DEFAULT;
    assert b[d].name == DEFAULT;
  }

  lemma SameRulesPlaced(a: seq<Asg>, b: seq<Asg>, members: Members, loose: set<nat>)
    requires SameRules(a, b)
    ensures forall name: string, g: nat :: GroupFor(a, name, g) ==> GroupFor(b, name, g)
    ensures PlacedAll(a, members, loose) ==> PlacedAll(b, members, loose)
  {
    forall name: string, g: nat | GroupFor(a, name, g) ensures GroupFor(b, name, g) {
      SameGroups(a, b, name);
    }
  }

  lemma SameLists(members: Members, members2: Members, clients: Clients)
    requires ClientsLinked(members, clients) && members2.Keys == members.Keys
    requires forall m :: m in members ==> members2[m].clientList == members[m].clientList
    ensures ClientsLinked(members2, clients)
  {
  }

  lemma JoinedLinks(joined: Asg, phash: Hash, members: Members, members2: Members, a: Clients, m: nat, b: Clients,
      next: nat)
    requires ClientsLinked(members, a) && Below(members, a, next) && m in members && m in members2
    requires members2 == members[m := members2[m]] && members2[m].clientList == members[m].clientList
    requires Rescoring(phash, joined.rules, joined.inpBad, a, ClientsOf(a, [m]), b)
    ensures ClientsLinked(members2, b) && Below(members2, b, next)
  {
    RescoringLinked(phash, joined.rules, joined.inpBad, a, ClientsOf(a, [m]), b, members);
    SameLists(members, members2, b);
  }

  /** The clients of a member put into a group, their rights worked out there. */
  lemma JoinedRights(asgs: seq<Asg>, joined: seq<Asg>, phash: Hash, members: Members, members2: Members, a: Clients,
                     loose: set<nat>, stale: set<nat>, m: nat, g: nat, b: Clients)
    requires SameRules(asgs, joined) && m in loose && g < |asgs| && m in members2
    requires members2 == members[m := members2[m]] && members2[m].pasg == g
    requires Rescoring(phash, joined[g].rules, joined[g].inpBad, a, ClientsOf(a, [m]), b)
    requires CachedAll(asgs, phash, members, a, loose, stale)
    ensures CachedAll(joined, phash, members2, b, loose - {m}, stale)
  {
    forall c | c in b && b[c].member !in loose - {m} && !Waits(members2, b[c], stale)
      ensures Cached(joined, phash, members2, b[c]) {
      assert b[c].member == a[c].member;
      if a[c].member != m {
        assert Cached(asgs, phash, members, a[c]);
      }
    }
  }

  /** A member put into the group its new name leads to. */
  lemma Joined(a: seq<Asg>, b: seq<Asg>, reported: seq<set<nat>>, stale: set<nat>,
               members: Members, members2: Members, loose: set<nat>, m: nat, g: nat, name: string)
    requires GroupsOk(a, reported, stale) && MembersLinked(a, members, loose) && PlacedAll(a, members, loose)
    requires m in members && m in loose && GroupFor(a, name, g)
    requires b == a[g := a[g].(memberList := a[g].memberList + [m])]
    requires members2 == members[m := members[m].(asgName := name, pasg := g)]
    ensures GroupsOk(b, reported, stale) && MembersLinked(b, members2, loose - {m})
    ensures PlacedAll(b, members2, loose - {m}) && GroupFor(b, name, g)
  {
    MemberJoins(a, members, loose, m, g, name);
    SameRulesGroups(a, b, reported, stale);
    SameRulesPlaced(a, b, members, loose);
  }

  /** A state with some members that are in no group yet. */
  datatype Aside = Aside(s: State, loose: set<nat>)

  /** Members and clients are where they belong. */
  ghost predicate Linked(a: Aside) {
    && MembersLinked(a.s.asgs, a.s.members, a.loose) && ClientsLinked(a.s.members, a.s.clients)
    && PlacedAll(a.s.asgs, a.s.members, a.loose) && Below(a.s.members, a.s.clients, a.s.next)
  }

  ghost predicate Grouped(s: State) {
    GroupsOk(s.asgs, s.reported, s.stale) && (!s.initializing ==> s.stale == {})
  }

  ghost predicate Scored(a: Aside) {
    && ToldAll(a.s.clients, a.s.told)
    && CachedAll(a.s.asgs, a.s.phash, a.s.members, a.s.clients, a.loose, a.s.stale)
  }

  datatype Part = Groups | Links | Cache

  /** One part of what holds between calls, members in `loose` aside. */
  ghost predicate Held(s: State, loose: set<nat>, p: Part) {
    match p
    case Groups => Sealed(Grouped, s)
    case Links => Sealed(Linked, Aside(s, loose))
    case Cache => Sealed(Scored, Aside(s, loose))
  }

  ghost predicate Inv(s: State, loose: set<nat>) {
    Held(s, loose, Groups) && Held(s, loose, Links) && Held(s, loose, Cache)
  }

  lemma OpenGroups(s: State, loose: set<nat>)
    requires Held(s, loose, Groups)
    ensures GroupsOk(s.asgs, s.reported, s.stale) && (!s.initializing ==> s.stale == {})
  {
    Unseal(Grouped, s);
  }

  lemma OpenLinks(s: State, loose: set<nat>)
    requires Held(s, loose, Links)
    ensures MembersLinked(s.asgs, s.members, loose) && ClientsLinked(s.members, s.clients)
    ensures PlacedAll(s.asgs, s.members, loose) && Below(s.members, s.clients, s.next)
  {
    Unseal(Linked, Aside(s, loose));
  }

  lemma OpenCache(s: State, loose: set<nat>)
    requires Held(s, loose, Cache)
    ensures ToldAll(s.clients, s.told)
    ensures CachedAll(s.asgs, s.phash, s.members, s.clients, loose, s.stale)
  {
    Unseal(Scored, Aside(s, loose));
  }

  lemma CloseGroups(s: State, loose: set<nat>)
    requires GroupsOk(s.asgs, s.reported, s.stale) && (!s.initializing ==> s.stale == {})
    ensures Held(s, loose, Groups)
  {
    Unseal(Grouped, s);
  }

  lemma CloseLinks(s: State, loose: set<nat>)
    requires MembersLinked(s.asgs, s.members, loose) && ClientsLinked(s.members, s.clients)
    requires PlacedAll(s.asgs, s.members, loose) && Below(s.members, s.clients, s.next)
    ensures Held(s, loose, Links)
  {
    Unseal(Linked, Aside(s, loose));
  }

  lemma CloseCache(s: State, loose: set<nat>)
    requires ToldAll(s.clients, s.told)
    requires CachedAll(s.asgs, s.phash, s.members, s.clients, loose, s.stale)
    ensures Held(s, loose, Cache)
  {
    Unseal(Scored, Aside(s, loose));
  }

  lemma SameGroupsHeld(s: State, l: set<nat>, t: State, k: set<nat>)
    requires Held(s, l, Groups) && t.asgs == s.asgs && t.reported == s.reported
    requires t.initializing == s.initializing && t.stale == s.stale
    ensures Held(t, k, Groups)
  {
    OpenGroups(s, l);
    CloseGroups(t, k);
  }

  /** What a call may rely on. */
  ghost predicate Usable(s: State) {
    && HasDefault(s.asgs) && |s.reported| == |s.asgs| && ClientsLinked(s.members, s.clients)
    && ToldAll(s.clients, s.told) && Below(s.members, s.clients, s.next)
  }

  lemma InvUsable(s: State, loose: set<nat>)
    requires Inv(s, loose)
    ensures Usable(s)
    ensures forall m :: m in s.members && m !in loose ==> s.members[m].pasg < |s.asgs|
  {
    OpenGroups(s, loose);
    OpenLinks(s, loose);
    OpenCache(s, loose);
  }

  lemma MemberUsable(s: State, m: nat)
    requires Inv(s, {}) && m in s.members
    ensures s.members[m].pasg < |s.asgs| && ToldAll(s.clients, s.told) && s.next !in s.clients
  {
    OpenLinks(s, {});
    OpenCache(s, {});
  }

  lemma ClientUsable(s: State, c: nat)
    requires Inv(s, {}) && c in s.clients
    ensures s.clients[c].member in s.members && s.members[s.clients[c].member].pasg < |s.asgs|
    ensures ToldAll(s.clients, s.told)
  {
    OpenLinks(s, {});
    OpenCache(s, {});
  }

  /** Member `m` is put into group `g`, which its new name leads to, and its clients get their
      rights there. */
  ghost predicate Joining(s: State, t: State, m: nat, name: string, g: nat) {
    && m in s.members && GroupFor(s.asgs, name, g) && ToldAll(t.clients, t.told)
    && Rescoring(s.phash, s.asgs[g].rules, s.asgs[g].inpBad, s.clients, ClientsOf(s.clients, [m]), t.clients)
    && t == s.(asgs := s.asgs[g := s.asgs[g].(memberList := s.asgs[g].memberList + [m])],
               members := s.members[m := s.members[m].(asgName := name, pasg := g)],
               clients := t.clients, told := t.told)
  }

  lemma JoiningKeeps(s: State, t: State, loose: set<nat>, m: nat, name: string, g: nat)
    requires Inv(s, loose) && m in loose && Joining(s, t, m, name, g)
    ensures Inv(t, loose - {m})
  {
    var l := loose - {m};
    assert Held(t, l, Groups) && Held(t, l, Links) by {
      OpenGroups(s, loose);
      OpenLinks(s, loose);
      Joined(s.asgs, t.asgs, s.reported, s.stale, s.members, t.members, loose, m, g, name);
      JoinedLinks(t.asgs[g], s.phash, s.members, t.members, s.clients, m, t.clients, s.next);
      CloseGroups(t, l);
      CloseLinks(t, l);
    }
    assert Held(t, l, Cache) by {
      OpenCache(s, loose);
      JoinedRights(s.asgs, t.asgs, s.phash, s.members, t.members, s.clients, loose, s.stale, m, g, t.clients);
      CloseCache(t, l);
    }
  }

  lemma NewMemberLoose(asgs: seq<Asg>, members: Members, m: nat, pm: Member)
    requires MembersLinked(asgs, members, {}) && m !in members
    ensures MembersLinked(asgs, members[m := pm], {m})
  {
  }

  lemma NewMemberAlone(members: Members, clients: Clients, m: nat, pm: Member)
    requires ClientsLinked(members, clients) && m !in members && pm.clientList == []
    ensures ClientsLinked(members[m := pm], clients)
  {
  }

  lemma NewMemberPlaced(asgs: seq<Asg>, members: Members, m: nat, name: string)
    requires PlacedAll(asgs, members, {}) && m !in members
    ensures PlacedAll(asgs, members[m := Member(name, 0, [])], {m})
  {
  }

  lemma NewMemberLinks(s: State, t: State, name: string)
    requires Inv(s, {})
    requires t == s.(members := s.members[s.next := Member(name, 0, [])], next := s.next + 1)
    ensures Held(t, {s.next}, Links)
  {
    OpenLinks(s, {});
    NewMemberLoose(s.asgs, s.members, s.next, Member(name, 0, []));
    NewMemberAlone(s.members, s.clients, s.next, Member(name, 0, []));
    NewMemberPlaced(s.asgs, s.members, s.next, name);
    CloseLinks(t, {s.next});
  }

  lemma NewMemberCache(s: State, t: State, name: string)
    requires Inv(s, {})
    requires t == s.(members := s.members[s.next := Member(name, 0, [])], next := s.next + 1)
    ensures Held(t, {s.next}, Cache)
  {
    OpenCache(s, {});
    OpenLinks(s, {});
    OtherMember(s.asgs, s.phash, s.members, t.members, s.clients, {s.next}, s.stale);
    CloseCache(t, {s.next});
  }

  /** A new member without clients, in no group yet. */
  lemma NewMember(s: State, t: State, name: string)
    requires Inv(s, {})
    requires t == s.(members := s.members[s.next := Member(name, 0, [])], next := s.next + 1)
    ensures Inv(t, {s.next})
  {
    SameGroupsHeld(s, {}, t, {s.next});
    NewMemberLinks(s, t, name);
    NewMemberCache(s, t, name);
  }

  lemma MemberAdded(s: State, r: State, t: State, name: string, g: nat)
    requires Inv(s, {}) && GroupFor(s.asgs, name, g) && ToldAll(t.clients, t.told)
    requires r == s.(members := s.members[s.next := Member(name, 0, [])], next := s.next + 1)
    requires t == r.(asgs := s.asgs[g := s.asgs[g].(memberList := s.asgs[g].memberList + [s.next])],
                     members := s.members[s.next := Member(name, g, [])], told := t.told)
    ensures Inv(t, {})
  {
    NewMember(s, r, name);
    assert Joining(r, t, s.next, name, g) by {
      OpenLinks(s, {});
      NewIsJoining(s, r, t, name, g);
    }
    JoiningKeeps(r, t, {s.next}, s.next, name, g);
    assert {s.next} - {s.next} == {};
  }

  lemma NewIsJoining(s: State, r: State, t: State, name: string, g: nat)
    requires GroupFor(s.asgs, name, g) && ToldAll(t.clients, t.told)
    requires ClientsLinked(s.members, s.clients) && s.next !in s.members
    requires r == s.(members := s.members[s.next := Member(name, 0, [])], next := s.next + 1)
    requires t == r.(asgs := s.asgs[g := s.asgs[g].(memberList := s.asgs[g].memberList + [s.next])],
                     members := s.members[s.next := Member(name, g, [])], told := t.told)
    ensures Joining(r, t, s.next, name, g)
  {
    UpdateTwice(s.members, s.next, Member(name, 0, []), Member(name, g, []));
  }

  /** Cached rights depend only on the groups of members outside `loose`. */
  lemma OtherMember(asgs: seq<Asg>, phash: Hash, a: Members, b: Members, clients: Clients, loose: set<nat>,
      stale: set<nat>)
    requires CachedAll(asgs, phash, a, clients, {}, stale)
    requires forall m :: m in a && m !in loose ==> m in b && b[m].pasg == a[m].pasg
    ensures CachedAll(asgs, phash, b, clients, loose, stale)
  {
    forall c | c in clients && clients[c].member !in loose && !Waits(b, clients[c], stale)
      ensures Cached(asgs, phash, b, clients[c]) {
      assert Cached(asgs, phash, a, clients[c]);
    }
  }

  lemma RescoringNone(phash: Hash, rules: seq<Rule>, inpBad: set<nat>, a: Clients, m: nat, b: Clients)
    requires Rescoring(phash, rules, inpBad, a, ClientsOf(a, [m]), b)
    requires forall c :: c in a ==> a[c].member != m
    ensures a == b
  {
  }

  // ---------------------------------------------------------------- members leave, clients come and go

  lemma MemberLooseGroups(s: State, t: State, m: nat)
    requires Inv(s, {}) && m in s.members && s.members[m].pasg < |s.asgs|
    requires t == s.(asgs := LeftGroup(s.asgs, s.members[m].pasg, m))
    ensures Held(t, {m}, Groups)
  {
    OpenGroups(s, {});
    SameRulesGroups(s.asgs, t.asgs, s.reported, s.stale);
    CloseGroups(t, {m});
  }

  lemma MemberLooseLinks(s: State, t: State, m: nat)
    requires Inv(s, {}) && m in s.members && s.members[m].pasg < |s.asgs|
    requires t == s.(asgs := LeftGroup(s.asgs, s.members[m].pasg, m))
    ensures Held(t, {m}, Links)
  {
    OpenLinks(s, {});
    MemberLeaves(s.asgs, s.members, m);
    SameRulesPlaced(s.asgs, t.asgs, s.members, {});
    LooserPlaces(t.asgs, s.members, m);
    CloseLinks(t, {m});
  }

  lemma LooserPlaces(asgs: seq<Asg>, members: Members, m: nat)
    requires PlacedAll(asgs, members, {})
    ensures PlacedAll(asgs, members, {m})
  {
  }

  lemma MemberLooseCache(s: State, t: State, m: nat)
    requires Inv(s, {}) && m in s.members && s.members[m].pasg < |s.asgs|
    requires t == s.(asgs := LeftGroup(s.asgs, s.members[m].pasg, m))
    ensures Held(t, {m}, Cache)
  {
    OpenCache(s, {});
    SameRulesCached(s.asgs, t.asgs, s.phash, s.members, s.clients, {}, s.stale);
    CloseCache(t, {m});
  }

  lemma MemberLoose(s: State, t: State, m: nat)
    requires Inv(s, {}) && m in s.members && s.members[m].pasg < |s.asgs|
    requires t == s.(asgs := LeftGroup(s.asgs, s.members[m].pasg, m))
    ensures Inv(t, {m})
  {
    MemberLooseGroups(s, t, m);
    MemberLooseLinks(s, t, m);
    MemberLooseCache(s, t, m);
  }

  lemma GoneLinks(asgs: seq<Asg>, members: Members, m: nat)
    requires MembersLinked(asgs, members, {m})
    ensures MembersLinked(asgs, members - {m}, {})
  {
  }

  lemma GoneClients(members: Members, clients: Clients, m: nat)
    requires ClientsLinked(members, clients) && m in members && members[m].clientList == []
    ensures ClientsLinked(members - {m}, clients)
    ensures forall c :: c in clients ==> clients[c].member != m
  {
  }

  lemma GoneCached(asgs: seq<Asg>, phash: Hash, members: Members, clients: Clients, m: nat, stale: set<nat>)
    requires CachedAll(asgs, phash, members, clients, {m}, stale) && forall c :: c in clients ==> clients[c].member != m
    ensures CachedAll(asgs, phash, members - {m}, clients, {}, stale)
  {
    forall c | c in clients && !Waits(members - {m}, clients[c], stale)
      ensures Cached(asgs, phash, members - {m}, clients[c]) {
      assert Cached(asgs, phash, members, clients[c]);
    }
  }

  /** A member without clients and in no group goes. */
  lemma MemberGone(s: State, t: State, m: nat)
    requires Inv(s, {m}) && m in s.members && s.members[m].clientList == []
    requires t == s.(members := s.members - {m})
    ensures Inv(t, {})
  {
    SameGroupsHeld(s, {m}, t, {});
    OpenLinks(s, {m});
    GoneLinks(s.asgs, s.members, m);
    GoneClients(s.members, s.clients, m);
    CloseLinks(t, {});
    assert Held(t, {}, Cache) by {
      OpenCache(s, {m});
      GoneCached(s.asgs, s.phash, s.members, s.clients, m, s.stale);
      CloseCache(t, {});
    }
  }

  /** One entry of the client table set to a client whose right is worked out. */
  lemma CachedSet(asgs: seq<Asg>, phash: Hash, members: Members, a: Clients, c: nat, b: Clients, stale: set<nat>)
    requires CachedAll(asgs, phash, members, a, {}, stale) && c in b && b == a[c := b[c]]
    requires Waits(members, b[c], stale) || Cached(asgs, phash, members, b[c])
    ensures CachedAll(asgs, phash, members, b, {}, stale)
  {
    forall d | d in b && !Waits(members, b[d], stale) ensures Cached(asgs, phash, members, b[d]) {
      if d != c {
        assert Cached(asgs, phash, members, a[d]);
      }
    }
  }

  lemma CachedLess(asgs: seq<Asg>, phash: Hash, members: Members, clients: Clients, c: nat, stale: set<nat>)
    requires CachedAll(asgs, phash, members, clients, {}, stale)
    ensures CachedAll(asgs, phash, members, clients - {c}, {}, stale)
  {
  }

  /** Client lists are no part of where a member is. */
  lemma SamePlaces(asgs: seq<Asg>, a: Members, b: Members, loose: set<nat>)
    requires a.Keys == b.Keys && forall m :: m in a ==> b[m] == a[m].(clientList := b[m].clientList)
    requires MembersLinked(asgs, a, loose) && PlacedAll(asgs, a, loose)
    ensures MembersLinked(asgs, b, loose) && PlacedAll(asgs, b, loose)
  {
  }

  lemma ClientJoins(members: Members, clients: Clients, m: nat, c: nat, pc: Client)
    requires ClientsLinked(members, clients) && m in members && c !in clients && pc.member == m
    ensures ClientsLinked(members[m := members[m].(clientList := members[m].clientList + [c])], clients[c := pc])
  {
    assert c !in members[m].clientList;
    DistinctSnoc(members[m].clientList, c);
  }

  lemma ClientLeaves(members: Members, clients: Clients, m: nat, c: nat)
    requires ClientsLinked(members, clients) && c in clients && m == clients[c].member
    ensures ClientsLinked(members[m := members[m].(clientList := Without(members[m].clientList, c))], clients - {c})
  {
    var members2 := members[m := members[m].(clientList := Without(members[m].clientList, c))];
    forall n, d | n in members2 && d in members2[n].clientList
      ensures d in clients - {c} && (clients - {c})[d].member == n
    {
      assert d in members[n].clientList;
    }
  }

  lemma ClientStays(members: Members, a: Clients, c: nat, b: Clients)
    requires ClientsLinked(members, a) && c in a && c in b && b == a[c := b[c]] && b[c].member == a[c].member
    ensures ClientsLinked(members, b)
  {
  }

  lemma ClientSetLinks(s: State, t: State, c: nat)
    requires Inv(s, {}) && c in s.clients && c in t.clients && t.clients[c].member == s.clients[c].member
    requires Waits(s.members, t.clients[c], s.stale) || Cached(s.asgs, s.phash, s.members, t.clients[c])
    requires t == s.(clients := t.clients, told := t.told) && t.clients == s.clients[c := t.clients[c]]
    requires ToldAll(t.clients, t.told)
    ensures Held(t, {}, Links)
  {
    OpenLinks(s, {});
    ClientStays(s.members, s.clients, c, t.clients);
    CloseLinks(t, {});
  }

  lemma ClientSetCache(s: State, t: State, c: nat)
    requires Inv(s, {}) && c in s.clients && c in t.clients && t.clients[c].member == s.clients[c].member
    requires Waits(s.members, t.clients[c], s.stale) || Cached(s.asgs, s.phash, s.members, t.clients[c])
    requires t == s.(clients := t.clients, told := t.told) && t.clients == s.clients[c := t.clients[c]]
    requires ToldAll(t.clients, t.told)
    ensures Held(t, {}, Cache)
  {
    OpenCache(s, {});
    CachedSet(s.asgs, s.phash, s.members, s.clients, c, t.clients, s.stale);
    CloseCache(t, {});
  }

  /** A client record replaced by one of the same member whose right is worked out. */
  lemma ClientSet(s: State, t: State, c: nat)
    requires Inv(s, {}) && c in s.clients && c in t.clients && t.clients[c].member == s.clients[c].member
    requires Waits(s.members, t.clients[c], s.stale) || Cached(s.asgs, s.phash, s.members, t.clients[c])
    requires t == s.(clients := t.clients, told := t.told) && t.clients == s.clients[c := t.clients[c]]
    requires ToldAll(t.clients, t.told)
    ensures Inv(t, {})
  {
    SameGroupsHeld(s, {}, t, {});
    ClientSetLinks(s, t, c);
    ClientSetCache(s, t, c);
  }

  lemma BelowNext(members: Members, clients: Clients, members2: Members, clients2: Clients, next: nat)
    requires Below(members, clients, next) && members2.Keys == members.Keys
    requires forall c :: c in clients2 ==> c in clients || c == next
    ensures Below(members2, clients2, next + 1)
  {
  }

  lemma ToldSame(a: Clients, c: nat, b: Clients, told: map<nat, Access>)
    requires ToldAll(a, told) && c in b && b == a[c := b[c]] && !b[c].callback
    ensures ToldAll(b, told)
  {
  }

  /** Only client lists and client records differ. */
  lemma PlacesHeld(s: State, t: State)
    requires Held(s, {}, Links) && t.asgs == s.asgs && t.members.Keys == s.members.Keys
    requires forall m :: m in s.members ==> t.members[m] == s.members[m].(clientList := t.members[m].clientList)
    requires ClientsLinked(t.members, t.clients) && Below(t.members, t.clients, t.next)
    ensures Held(t, {}, Links)
  {
    OpenLinks(s, {});
    SamePlaces(s.asgs, s.members, t.members, {});
    CloseLinks(t, {});
  }

  lemma ClientAddedLists(s: State, t: State, m: nat)
    requires Held(s, {}, Links) && m in s.members && s.next in t.clients && t.clients[s.next].member == m
    requires t.clients == s.clients[s.next := t.clients[s.next]] && t.next == s.next + 1
    requires t.members == s.members[m := s.members[m].(clientList := s.members[m].clientList + [s.next])]
    ensures ClientsLinked(t.members, t.clients) && Below(t.members, t.clients, t.next)
  {
    OpenLinks(s, {});
    ClientJoins(s.members, s.clients, m, s.next, t.clients[s.next]);
    BelowNext(s.members, s.clients, t.members, t.clients, s.next);
  }

  lemma ClientAddedLinks(s: State, t: State, m: nat)
    requires Inv(s, {}) && m in s.members && s.next in t.clients
    requires t.clients[s.next].member == m && !t.clients[s.next].callback
    requires Cached(s.asgs, s.phash, s.members, t.clients[s.next])
    requires t.clients == s.clients[s.next := t.clients[s.next]]
    requires t.members == s.members[m := s.members[m].(clientList := s.members[m].clientList + [s.next])]
    requires t == s.(clients := t.clients, next := s.next + 1, members := t.members)
    ensures Held(t, {}, Links)
  {
    ClientAddedLists(s, t, m);
    PlacesHeld(s, t);
  }

  lemma ClientAddedCache(s: State, t: State, m: nat)
    requires Inv(s, {}) && m in s.members && s.next in t.clients
    requires t.clients[s.next].member == m && !t.clients[s.next].callback
    requires Cached(s.asgs, s.phash, s.members, t.clients[s.next])
    requires t.clients == s.clients[s.next := t.clients[s.next]]
    requires t.members == s.members[m := s.members[m].(clientList := s.members[m].clientList + [s.next])]
    requires t == s.(clients := t.clients, next := s.next + 1, members := t.members)
    ensures Held(t, {}, Cache)
  {
    OpenCache(s, {});
    ToldSame(s.clients, s.next, t.clients, s.told);
    CachedSet(s.asgs, s.phash, s.members, s.clients, s.next, t.clients, s.stale);
    OtherMember(s.asgs, s.phash, s.members, t.members, t.clients, {}, s.stale);
    CloseCache(t, {});
  }

  lemma ClientAdded(s: State, t: State, m: nat)
    requires Inv(s, {}) && m in s.members && s.next in t.clients
    requires t.clients[s.next].member == m && !t.clients[s.next].callback
    requires Cached(s.asgs, s.phash, s.members, t.clients[s.next])
    requires t.clients == s.clients[s.next := t.clients[s.next]]
    requires t.members == s.members[m := s.members[m].(clientList := s.members[m].clientList + [s.next])]
    requires t == s.(clients := t.clients, next := s.next + 1, members := t.members)
    ensures Inv(t, {})
  {
    SameGroupsHeld(s, {}, t, {});
    ClientAddedLinks(s, t, m);
    ClientAddedCache(s, t, m);
  }

  lemma ClientGoneLists(s: State, t: State, m: nat, c: nat)
    requires Held(s, {}, Links) && c in s.clients && m == s.clients[c].member && m in s.members
    requires t.clients == s.clients - {c} && t.next == s.next
    requires t.members == s.members[m := s.members[m].(clientList := Without(s.members[m].clientList, c))]
    ensures ClientsLinked(t.members, t.clients) && Below(t.members, t.clients, t.next)
  {
    OpenLinks(s, {});
    ClientLeaves(s.members, s.clients, m, c);
  }

  lemma ClientGoneLinks(s: State, t: State, m: nat, c: nat)
    requires Inv(s, {}) && c in s.clients && m == s.clients[c].member && m in s.members
    requires t.clients == s.clients - {c}
    requires t.members == s.members[m := s.members[m].(clientList := Without(s.members[m].clientList, c))]
    requires t == s.(clients := t.clients, members := t.members)
    ensures Held(t, {}, Links)
  {
    ClientGoneLists(s, t, m, c);
    PlacesHeld(s, t);
  }

  lemma ClientGoneCache(s: State, t: State, m: nat, c: nat)
    requires Inv(s, {}) && c in s.clients && m == s.clients[c].member && m in s.members
    requires t.clients == s.clients - {c}
    requires t.members == s.members[m := s.members[m].(clientList := Without(s.members[m].clientList, c))]
    requires t == s.(clients := t.clients, members := t.members)
    ensures Held(t, {}, Cache)
  {
    OpenCache(s, {});
    CachedLess(s.asgs, s.phash, s.members, s.clients, c, s.stale);
    OtherMember(s.asgs, s.phash, s.members, t.members, t.clients, {}, s.stale);
    CloseCache(t, {});
  }

  lemma ClientGone(s: State, t: State, m: nat, c: nat)
    requires Inv(s, {}) && c in s.clients && m == s.clients[c].member && m in s.members
    requires t.clients == s.clients - {c}
    requires t.members == s.members[m := s.members[m].(clientList := Without(s.members[m].clientList, c))]
    requires t == s.(clients := t.clients, members := t.members)
    ensures Inv(t, {})
  {
    SameGroupsHeld(s, {}, t, {});
    ClientGoneLinks(s, t, m, c);
    ClientGoneCache(s, t, m, c);
  }

  lemma RescoredIsCached(asgs: seq<Asg>, phash: Hash, members: Members, c: Client)
    requires c.member in members && members[c.member].pasg < |asgs|
    ensures var g := asgs[members[c.member].pasg]; Cached(asgs, phash, members, Rescored(phash, g.rules, g.inpBad, c))
  {
  }

  lemma CallbackCached(s: State, c: nat)
    requires Inv(s, {}) && c in s.clients
    ensures var pc := s.clients[c].(callback := true);
            Waits(s.members, pc, s.stale) || Cached(s.asgs, s.phash, s.members, pc)
  {
    OpenCache(s, {});
    if !Waits(s.members, s.clients[c], s.stale) {
      assert Cached(s.asgs, s.phash, s.members, s.clients[c]);
    }
  }

  // ---------------------------------------------------------------- inputs and groups

  /** A group with its rules recalculated and no change pending. */
  function Settled(h: Asg, reported: set<nat>): (k: Asg)
    requires AsgOk(h)
    ensures AsgOk(k)
  {
    h.(rules := FreshRules(h.rules, h.pavalue, reported), inpChanged := {})
  }

  /** A group with a report taken in: an invalid value makes its input bad and leaves the value,
      any other value makes it good, and both mark the input as changed. */
  function Read(h: Asg, i: nat, invalid: bool, value: real): (k: Asg)
    requires AsgOk(h) && i < ASMAXINP
    ensures AsgOk(k)
  {
    if invalid then h.(inpBad := h.inpBad + {i}, inpChanged := h.inpChanged + {i})
    else h.(inpBad := h.inpBad - {i}, pavalue := h.pavalue[i := value], inpChanged := h.inpChanged + {i})
  }

  /** The last thing heard of an input: it is to be connected, it has lost its connection, it could
      not be read, its value was invalid, or its value. */
  datatype Word = Awaited | Lost | Unreadable | Invalid | Value(v: real)

  /** An input of a group is bad exactly if something was heard of it and the last thing was not a
      value; and if it was, that is the value calculations use. */
  ghost predicate GroupHeeds(a: Asg, heard: map<nat, Word>) {
    && (forall i :: i in a.inpBad <==> i in heard && !heard[i].Value?)
    && (forall i :: i in heard && heard[i].Value? ==> i < |a.pavalue| && a.pavalue[i] == heard[i].v)
  }

  function Hear(heard: seq<map<nat, Word>>, g: nat, i: nat, w: Word): seq<map<nat, Word>>
    requires g < |heard|
  {
    var words: map<nat, Word> := heard[g][i := w];
    heard[g := words]
  }

  datatype Hearing = Hearing(asgs: seq<Asg>, heard: seq<map<nat, Word>>)

  ghost predicate HeedFacts(h: Hearing) {
    |h.heard| == |h.asgs| && forall g :: 0 <= g < |h.asgs| ==> GroupHeeds(h.asgs[g], h.heard[g])
  }

  ghost predicate Heeded(asgs: seq<Asg>, heard: seq<map<nat, Word>>) {
    |heard| == |asgs| && Sealed(HeedFacts, Hearing(asgs, heard))
  }

  /** In any state: an input is bad exactly if the last thing heard of it since the configuration was
      read was that it is to be connected, that it has lost its connection, that it could not be
      read, or an invalid value; otherwise the value last heard is the one calculations use. */
  lemma InputsHeeded(asgs: seq<Asg>, heard: seq<map<nat, Word>>, g: nat, i: nat)
    requires Heeded(asgs, heard) && g < |asgs|
    ensures i in asgs[g].inpBad <==> i in heard[g] && !heard[g][i].Value?
    ensures i in heard[g] && heard[g][i].Value? ==> i < |asgs[g].pavalue| && asgs[g].pavalue[i] == heard[g][i].v
  {
    Unseal(HeedFacts, Hearing(asgs, heard));
    assert GroupHeeds(asgs[g], heard[g]);
  }

  lemma HeedsNothing(asgs: seq<Asg>, heard: seq<map<nat, Word>>)
    requires |heard| == |asgs| && forall g :: 0 <= g < |asgs| ==> asgs[g].inpBad == {} && heard[g] == map[]
    ensures Heeded(asgs, heard)
  {
    Unseal(HeedFacts, Hearing(asgs, heard));
  }

  /** Only inputs matter for that. */
  lemma HeedsInputs(asgs: seq<Asg>, more: seq<Asg>, heard: seq<map<nat, Word>>)
    requires Heeded(asgs, heard) && |more| == |asgs|
    requires forall g :: 0 <= g < |asgs| ==> more[g].inpBad == asgs[g].inpBad && more[g].pavalue == asgs[g].pavalue
    ensures Heeded(more, heard)
  {
    Unseal(HeedFacts, Hearing(asgs, heard));
    Unseal(HeedFacts, Hearing(more, heard));
    forall g | 0 <= g < |more| ensures GroupHeeds(more[g], heard[g]) {
      assert GroupHeeds(asgs[g], heard[g]);
    }
  }

  lemma HeedsOne(asgs: seq<Asg>, heard: seq<map<nat, Word>>, g: nat, a: Asg)
    requires Heeded(asgs, heard) && g < |asgs| && a.inpBad == asgs[g].inpBad && a.pavalue == asgs[g].pavalue
    ensures Heeded(asgs[g := a], heard)
  {
    HeedsInputs(asgs, asgs[g := a], heard);
  }

  /** A member leaves one list and joins another. */
  lemma HeedsMove(asgs: seq<Asg>, heard: seq<map<nat, Word>>, from: nat, m: nat, to: nat)
    requires Heeded(asgs, heard) && from < |asgs| && to < |asgs|
    ensures var left := LeftGroup(asgs, from, m);
            Heeded(left[to := left[to].(memberList := left[to].memberList + [m])], heard)
  {
    var left := LeftGroup(asgs, from, m);
    HeedsOne(asgs, heard, from, left[from]);
    HeedsOne(left, heard, to, left[to].(memberList := left[to].memberList + [m]));
  }

  /** Something is heard of one input. */
  lemma HeedsWord(asgs: seq<Asg>, heard: seq<map<nat, Word>>, g: nat, i: nat, w: Word, a: Asg)
    requires Heeded(asgs, heard) && g < |asgs| && (w.Value? ==> i < |asgs[g].pavalue|)
    requires a.inpBad == if w.Value? then asgs[g].inpBad - {i} else asgs[g].inpBad + {i}
    requires a.pavalue == if w.Value? then asgs[g].pavalue[i := w.v] else asgs[g].pavalue
    ensures Heeded(asgs[g := a], Hear(heard, g, i, w))
  {
    Unseal(HeedFacts, Hearing(asgs, heard));
    Unseal(HeedFacts, Hearing(asgs[g := a], Hear(heard, g, i, w)));
    assert GroupHeeds(asgs[g], heard[g]);
    forall h | 0 <= h < |asgs| && h != g ensures GroupHeeds(asgs[g := a][h], Hear(heard, g, i, w)[h]) {
      assert GroupHeeds(asgs[h], heard[h]);
    }
  }

  /** Group `g` with new inputs: reported, not yet recalculated. */
  ghost predicate Reporting(s: State, t: State, g: nat, h: Asg, reported: set<nat>) {
    && g < |s.asgs| && g < |s.reported| && AsgOk(h) && UpToDate(h, reported)
    && h.name == s.asgs[g].name && h.memberList == s.asgs[g].memberList
    && t == s.(asgs := s.asgs[g := h], reported := s.reported[g := reported])
  }

  lemma GroupFine(s: State, g: nat)
    requires Inv(s, {}) && g < |s.asgs|
    ensures g < |s.asgs| == |s.reported| && AsgOk(s.asgs[g]) && UpToDate(s.asgs[g], s.reported[g])
    ensures forall i :: i in s.asgs[g].inps ==> i < ASMAXINP
  {
    OpenGroups(s, {});
  }

  lemma NoneWaits(s: State)
    requires Inv(s, {}) && !s.initializing
    ensures s.stale == {}
  {
    OpenGroups(s, {});
  }

  lemma GroupMembers(s: State, g: nat)
    requires Inv(s, {}) && g < |s.asgs|
    ensures Distinct(s.asgs[g].memberList)
    ensures forall m :: m in s.asgs[g].memberList ==> m in s.members && s.members[m].pasg == g
  {
    OpenLinks(s, {});
  }

  lemma UpdateSeqTwice<T>(a: seq<T>, k: nat, x: T, y: T)
    requires k < |a|
    ensures a[k := x][k := y] == a[k := y]
  {
  }

  lemma SameNames(a: seq<Asg>, b: seq<Asg>, members: Members, loose: set<nat>)
    requires |a| == |b| && MembersLinked(a, members, loose) && PlacedAll(a, members, loose)
    requires forall g :: 0 <= g < |a| ==> a[g].name == b[g].name && a[g].memberList == b[g].memberList
    ensures MembersLinked(b, members, loose) && PlacedAll(b, members, loose)
  {
  }

  /** The groups with one replaced. */
  lemma GroupsReplaced(a: seq<Asg>, reported: seq<set<nat>>, stale: set<nat>, g: nat, h: Asg, rep: set<nat>,
      stale2: set<nat>)
    requires GroupsOk(a, reported, stale) && g < |a| && h.name == a[g].name && AsgOk(h) && UpToDate(h, rep)
    requires (g in stale2 || h.inpChanged == {}) && stale - {g} <= stale2 <= stale + {g}
    ensures GroupsOk(a[g := h], reported[g := rep], stale2)
  {
    var d :| 0 <= d < |a| && a[d].name == DEFAULT;
    assert a[g := h][d].name == DEFAULT;
  }

  lemma GroupReplaced(s: State, t: State, g: nat)
    requires Held(s, {}, Groups) && Held(s, {}, Links) && g < |s.asgs| && g < |s.reported|
    requires g < |t.asgs| && g < |t.reported|
    requires t == s.(asgs := s.asgs[g := t.asgs[g]], reported := s.reported[g := t.reported[g]], stale := t.stale,
                     clients := t.clients, told := t.told)
    requires t.asgs[g].name == s.asgs[g].name && t.asgs[g].memberList == s.asgs[g].memberList
    requires AsgOk(t.asgs[g]) && UpToDate(t.asgs[g], t.reported[g])
    requires (!t.initializing ==> t.stale == {}) && (g in t.stale || t.asgs[g].inpChanged == {})
    requires s.stale - {g} <= t.stale <= s.stale + {g}
    requires t.clients.Keys == s.clients.Keys
    requires ClientsLinked(s.members, s.clients) ==> ClientsLinked(s.members, t.clients)
    ensures Held(t, {}, Groups) && Held(t, {}, Links)
  {
    assert Held(t, {}, Groups) by {
      OpenGroups(s, {});
      GroupsReplaced(s.asgs, s.reported, s.stale, g, t.asgs[g], t.reported[g], t.stale);
      CloseGroups(t, {});
    }
    OpenLinks(s, {});
    SameNames(s.asgs, t.asgs, s.members, {});
    CloseLinks(t, {});
  }

  lemma StaleCached(a: seq<Asg>, b: seq<Asg>, phash: Hash, members: Members, clients: Clients, stale: set<nat>, g: nat)
    requires CachedAll(a, phash, members, clients, {}, stale) && g < |a| && |b| == |a|
    requires forall h :: 0 <= h < |a| && h != g ==> b[h] == a[h]
    ensures CachedAll(b, phash, members, clients, {}, stale + {g})
  {
    forall c | c in clients && !Waits(members, clients[c], stale + {g}) ensures Cached(b, phash, members, clients[c]) {
      assert Cached(a, phash, members, clients[c]);
    }
  }

  /** While the inputs are being connected a change is only recorded, and its group waits. */
  lemma Recorded(s: State, t: State, g: nat, h: Asg, reported: set<nat>)
    requires Inv(s, {}) && s.initializing && g < |s.asgs| && g < |s.reported|
    requires Reporting(s, t.(stale := s.stale), g, h, reported) && t.stale == s.stale + {g}
    ensures Inv(t, {})
  {
    assert s.reported[g := reported][g] == reported;
    GroupReplaced(s, t, g);
    OpenCache(s, {});
    StaleCached(s.asgs, t.asgs, s.phash, s.members, s.clients, s.stale, g);
    CloseCache(t, {});
  }

  /** A client after its group, or another one, has been worked out again. */
  ghost predicate ScoredOnce(b: seq<Asg>, phash: Hash, members: Members, g: nat, x: Client, y: Client)
    requires g < |b|
  {
    && x.member in members && members[x.member].pasg < |b|
    && y == if members[x.member].pasg == g then Rescored(phash, b[g].rules, b[g].inpBad, x) else x
  }

  /** Exactly the clients of the members of the group are worked out again. */
  lemma GroupScored(a: seq<Asg>, b: seq<Asg>, phash: Hash, members: Members, x: Clients, g: nat, y: Clients, c: nat)
    requires g < |a| == |b| && MembersLinked(a, members, {}) && ClientsLinked(members, x) && c in x
    requires Rescoring(phash, b[g].rules, b[g].inpBad, x, ClientsOf(x, a[g].memberList), y)
    ensures c in y && ScoredOnce(b, phash, members, g, x[c], y[c])
  {
    assert x[c].member in members;
  }

  lemma OneCached(a: seq<Asg>, b: seq<Asg>, phash: Hash, members: Members, x: Client, g: nat, y: Client)
    requires |b| == |a| && g < |a| && ScoredOnce(b, phash, members, g, x, y)
    requires forall h :: 0 <= h < |a| && h != g ==> b[h] == a[h]
    requires members[x.member].pasg == g || Cached(a, phash, members, x)
    ensures Cached(b, phash, members, y)
  {
  }

  lemma AllCached(a: seq<Asg>, b: seq<Asg>, phash: Hash, members: Members, x: Clients, g: nat, y: Clients,
      stale: set<nat>)
    requires |b| == |a| && g < |a| && y.Keys == x.Keys
    requires forall c :: c in x ==> ScoredOnce(b, phash, members, g, x[c], y[c])
    requires forall h :: 0 <= h < |a| && h != g ==> b[h] == a[h]
    requires CachedAll(a, phash, members, x, {}, stale)
    ensures CachedAll(b, phash, members, y, {}, stale - {g})
  {
    forall c | c in y && !Waits(members, y[c], stale - {g}) ensures Cached(b, phash, members, y[c]) {
      assert ScoredOnce(b, phash, members, g, x[c], y[c]);
      OneCached(a, b, phash, members, x[c], g, y[c]);
    }
  }

  /** Clients of a group whose rights are worked out again, the others as they were. */
  lemma GroupCached(a: seq<Asg>, b: seq<Asg>, phash: Hash, members: Members, x: Clients, g: nat, y: Clients,
      stale: set<nat>)
    requires g < |a| == |b| && MembersLinked(a, members, {}) && ClientsLinked(members, x)
    requires forall h :: 0 <= h < |a| && h != g ==> b[h] == a[h]
    requires Rescoring(phash, b[g].rules, b[g].inpBad, x, ClientsOf(x, a[g].memberList), y)
    requires CachedAll(a, phash, members, x, {}, stale)
    ensures CachedAll(b, phash, members, y, {}, stale - {g})
  {
    forall c | c in x ensures c in y && ScoredOnce(b, phash, members, g, x[c], y[c]) {
      GroupScored(a, b, phash, members, x, g, y, c);
    }
    AllCached(a, b, phash, members, x, g, y, stale);
  }

  /** A group recalculated, perhaps with a change recorded just before: it does not wait any
      longer, and the others are as they were. */
  lemma Recomputed(s: State, t: State, g: nat, h: Asg, reported: set<nat>)
    requires Inv(s, {}) && g < |s.asgs| && g < |s.reported| && AsgOk(h) && UpToDate(h, reported)
    requires h.name == s.asgs[g].name && h.memberList == s.asgs[g].memberList && ToldAll(t.clients, t.told)
    requires t == s.(asgs := s.asgs[g := Settled(h, reported)], reported := s.reported[g := reported],
                     stale := s.stale - {g}, clients := t.clients, told := t.told)
    requires Rescoring(s.phash, t.asgs[g].rules, t.asgs[g].inpBad, s.clients, ClientsOf(s.clients, h.memberList),
             t.clients)
    ensures Inv(t, {})
  {
    assert !s.initializing ==> t.stale == {} by {
      OpenGroups(s, {});
    }
    RecalculatedUpToDate(h, reported);
    RescoringLinked(s.phash, t.asgs[g].rules, t.asgs[g].inpBad, s.clients, ClientsOf(s.clients, h.memberList),
        t.clients, s.members);
    GroupReplaced(s, t, g);
    OpenLinks(s, {});
    OpenCache(s, {});
    GroupCached(s.asgs, t.asgs, s.phash, s.members, s.clients, g, t.clients, s.stale);
    CloseCache(t, {});
  }

  lemma RecalculatedUpToDate(h: Asg, reported: set<nat>)
    requires AsgOk(h) && UpToDate(h, reported)
    ensures UpToDate(Settled(h, reported), reported)
  {
  }

  // ---------------------------------------------------------------- every group

  /** The groups before `k` have been recalculated. */
  ghost predicate Partial(s: State, k: nat) {
    s.initializing && (forall g :: g in s.stale ==> g >= k) && Inv(s, {})
  }

  lemma Weaken(s: State)
    requires Inv(s, {})
    ensures Partial(s.(initializing := true), 0)
  {
    var t := s.(initializing := true);
    OpenGroups(s, {});
    CloseGroups(t, {});
    OpenLinks(s, {});
    CloseLinks(t, {});
    OpenCache(s, {});
    CloseCache(t, {});
  }

  lemma PartialStep(s: State, t: State, g: nat)
    requires Partial(s, g) && g < |s.asgs| == |s.reported| && AsgOk(s.asgs[g]) && ToldAll(t.clients, t.told)
    requires t == s.(asgs := s.asgs[g := Settled(s.asgs[g], s.reported[g])], stale := s.stale - {g},
                     clients := t.clients, told := t.told)
    requires Rescoring(s.phash, t.asgs[g].rules, t.asgs[g].inpBad, s.clients,
                       ClientsOf(s.clients, s.asgs[g].memberList), t.clients)
    ensures Partial(t, g + 1)
  {
    GroupFine(s, g);
    assert s.reported[g := s.reported[g]] == s.reported;
    Recomputed(s, t, g, s.asgs[g], s.reported[g]);
  }

  lemma PartialDone(s: State)
    requires Partial(s, |s.asgs|)
    ensures Inv(s, {}) && Inv(s.(initializing := false), {}) && s.stale == {}
  {
    var t := s.(initializing := false);
    OpenGroups(s, {});
    assert s.stale == {};
    CloseGroups(t, {});
    OpenLinks(s, {});
    CloseLinks(t, {});
    OpenCache(s, {});
    CloseCache(t, {});
  }

  // ---------------------------------------------------------------- a new configuration

  datatype NameList = NameList(name: string, names: seq<string>)

  /** A configuration file that was read without errors: user groups, host groups, and access
      security groups in which nothing has happened yet. */
  datatype Config = Config(uags: seq<NameList>, hags: seq<NameList>, asgs: seq<Asg>)

  ghost predicate ConfigOk(c: Config) {
    && HasDefault(c.asgs)
    && (forall g, h :: 0 <= g < h < |c.asgs| ==> c.asgs[g].name != c.asgs[h].name)
    && (forall g :: 0 <= g < |c.asgs| ==> Untouched(c.asgs[g]))
  }

  predicate Untouched(a: Asg) {
    && a.memberList == [] && a.inpBad == {} && a.inpChanged == {} && a.pavalue == [] && RulesOk(a.rules)
    && (forall k :: 0 <= k < |a.inps| ==> a.inps[k] < ASMAXINP)
    && (forall k :: 0 <= k < |a.rules| ==> !a.rules[k].result)
  }

  function Zeros(): (z: seq<real>)
    ensures |z| == ASMAXINP
  {
    seq(ASMAXINP, _ => 0.0)
  }

  predicate Listed(lists: seq<NameList>, name: string, who: string) {
    exists k :: 0 <= k < |lists| && lists[k].name == name && who in lists[k].names
  }

  /** Whether a user belongs to a user group, or a host to a host group. */
  predicate InHash(c: Config, who: string, g: Group) {
    match g
    case Uag(name) => Listed(c.uags, name, who)
    case Hag(name) => Listed(c.hags, name, who)
  }

  lemma UntouchedFine(a: Asg)
    requires Untouched(a)
    ensures AsgOk(a.(pavalue := Zeros())) && UpToDate(a.(pavalue := Zeros()), {})
  {
  }

  lemma ConfigGroups(c: Config, asgs: seq<Asg>, reported: seq<set<nat>>)
    requires ConfigOk(c) && |asgs| == |reported| == |c.asgs|
    requires forall g :: 0 <= g < |asgs| ==> asgs[g] == c.asgs[g].(pavalue := Zeros()) && reported[g] == {}
    ensures GroupsOk(asgs, reported, {})
  {
    var d :| 0 <= d < |c.asgs| && c.asgs[d].name == DEFAULT;
    assert asgs[d].name == DEFAULT;
    forall g | 0 <= g < |asgs| ensures AsgOk(asgs[g]) && UpToDate(asgs[g], reported[g]) {
      UntouchedFine(c.asgs[g]);
    }
  }

  /** The new configuration is in place and no member has been moved to it yet. */
  lemma Swapped(s: State, t: State, c: Config)
    requires Inv(s, {}) || (s.members == map[] && s.clients == map[])
    requires ConfigOk(c) && |t.asgs| == |t.reported| == |c.asgs|
    requires forall g :: 0 <= g < |t.asgs| ==> t.asgs[g] == c.asgs[g].(pavalue := Zeros()) && t.reported[g] == {}
    requires t == s.(asgs := t.asgs, reported := t.reported, stale := {}, phash := t.phash)
    ensures Inv(t, s.members.Keys)
  {
    var l := s.members.Keys;
    ConfigGroups(c, t.asgs, t.reported);
    CloseGroups(t, l);
    if Inv(s, {}) {
      OpenLinks(s, {});
      OpenCache(s, {});
    }
    CloseLinks(t, l);
    CloseCache(t, l);
  }

  /** What moving members to their new groups leaves alone. */
  ghost predicate Moved(s: State, t: State) {
    && SameRules(s.asgs, t.asgs) && s.members.Keys == t.members.Keys && s.clients.Keys == t.clients.Keys
    && (forall m :: m in s.members ==> t.members[m] == s.members[m].(pasg := t.members[m].pasg))
    && (forall c :: c in s.clients ==>
          t.clients[c] == s.clients[c].(access := t.clients[c].access, trapMask := t.clients[c].trapMask))
    && t == s.(asgs := t.asgs, members := t.members, clients := t.clients, told := t.told)
  }

  lemma MovedTwice(r: State, s: State, t: State)
    requires Moved(r, s) && Moved(s, t)
    ensures Moved(r, t)
  {
  }

  lemma JoiningMoves(s: State, t: State, m: nat, g: nat)
    requires m in s.members && Joining(s, t, m, s.members[m].asgName, g)
    ensures Moved(s, t)
  {
  }

  /** The members of the old groups from `k` on. */
  ghost function From(members: Members, k: nat): set<nat> {
    set m | m in members && members[m].pasg >= k
  }

  lemma OldGroup(s: State, k: nat)
    requires Inv(s, {}) && k < |s.asgs|
    ensures Distinct(s.asgs[k].memberList)
    ensures forall m :: m in s.asgs[k].memberList ==> m in From(s.members, k)
    ensures From(s.members, k) - Elements(s.asgs[k].memberList) == From(s.members, k + 1)
  {
    OpenLinks(s, {});
  }

  lemma OldGroups(s: State)
    requires Inv(s, {})
    ensures From(s.members, 0) == s.members.Keys && From(s.members, |s.asgs|) == {}
  {
    OpenLinks(s, {});
  }

  // ---------------------------------------------------------------- the promise

  /** Whatever has happened: every client belongs to the group its member names, or to DEFAULT if no
      group has that name; unless that group waits for its recalculation, its cached access and
      trap mask are those of an evaluation of the group's rules from scratch on the present inputs;
      and if it has a callback, it was last told exactly the access it has.  Groups wait only while
      inputs are being connected, and only those in which one has changed. */
  lemma Coherence(s: State, c: nat)
    requires Inv(s, {}) && c in s.clients
    ensures s.clients[c].member in s.members && (!s.initializing ==> s.stale == {})
    ensures var m := s.members[s.clients[c].member];
      && GroupFor(s.asgs, m.asgName, m.pasg) && m.pasg < |s.reported| && AsgOk(s.asgs[m.pasg])
      && (s.asgs[m.pasg].name == m.asgName || s.asgs[m.pasg].name == "DEFAULT")
      && ((exists h :: 0 <= h < |s.asgs| && s.asgs[h].name == m.asgName) ==> s.asgs[m.pasg].name == m.asgName)
    ensures var pc := s.clients[c];
      var i := s.members[pc.member].pasg;
      var g := s.asgs[i];
      i in s.stale ||
      Deserved(s.phash, FreshRules(g.rules, g.pavalue, s.reported[i]), g.inpBad, pc.who, pc.access, pc.trapMask)
    ensures s.clients[c].callback ==> c in s.told && s.told[c] == s.clients[c].access
  {
    OpenGroups(s, {});
    OpenLinks(s, {});
    OpenCache(s, {});
    var pc := s.clients[c];
    var i := s.members[pc.member].pasg;
    var g := s.asgs[i];
    if i !in s.stale {
      NothingPending(g, s.reported[i]);
      RightIsDeserved(s.phash, g.rules, g.inpBad, pc.who, pc.access, pc.trapMask);
      assert Cached(s.asgs, s.phash, s.members, pc);
      RightsAreRight(s.phash, g.rules, g.inpBad, pc.who, pc.access, pc.trapMask);
    }
  }

  /** No member is lost or in two groups, no client is lost or in two lists. */
  lemma OneGroupEach(s: State, m: nat)
    requires Inv(s, {}) && m in s.members
    ensures forall g :: 0 <= g < |s.asgs| ==> (m in s.asgs[g].memberList <==> g == s.members[m].pasg)
    ensures forall c :: c in s.members[m].clientList <==> c in s.clients && s.clients[c].member == m
    ensures Distinct(s.members[m].clientList) && forall g :: 0 <= g < |s.asgs| ==> Distinct(s.asgs[g].memberList)
  {
    OpenLinks(s, {});
  }
}
