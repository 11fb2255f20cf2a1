/** `Build` of daemon/policy/index.go as the separate queries it sends: what each of them saw, and when
    the index made from the answers is the one the committed tables call for. */
module Builds {
  import opened Schema
  import opened PolicyIndex

  datatype Query =
    | AllUsers
    | AllUserGroups
    | AllServices
    | AllRules
    | PortsOfService(service: int)
    | MembersOf(group: int)
    | GroupsOfService(service: int)

  /** The committed state each query of one build saw. */
  type Seen = map<Query, Tables>

  function SeenBy(seen: Seen, q: Query): Tables {
    if q in seen then seen[q] else EMPTY
  }

  function ReadsOf(seen: Seen): Reads {
    Reads(SeenBy(seen, AllUsers), SeenBy(seen, AllUserGroups), SeenBy(seen, AllServices),
          (id: int) => SeenBy(seen, PortsOfService(id)), SeenBy(seen, AllRules),
          (id: int) => SeenBy(seen, MembersOf(id)), (id: int) => SeenBy(seen, GroupsOfService(id)))
  }

  /** The queries a build sends: the four lists, then one per group and two per service it found. */
  predicate Sends(seen: Seen, q: Query) {
    match q
    case PortsOfService(id) => AllServices in seen && id in seen[AllServices].services
    case GroupsOfService(id) => AllServices in seen && id in seen[AllServices].services
    case MembersOf(id) => AllUserGroups in seen && id in seen[AllUserGroups].userGroups
    case _ => true
  }

  /** Every query was sent, and no other. */
  ghost predicate Complete(seen: Seen) { forall q :: Sends(seen, q) <==> q in seen }

  /** What a build ends with. */
  datatype BuiltRaw = Built(idx: Index, seen: Seen)
  ghost predicate IsBuild(b: BuiltRaw) { Complete(b.seen) && BuiltFrom(b.idx, ReadsOf(b.seen)) }

  const NOTHING_SEEN: Seen := map[AllUsers := EMPTY, AllUserGroups := EMPTY, AllServices := EMPTY, AllRules := EMPTY]

  type Built = b: BuiltRaw | IsBuild(b) ghost witness BuiltRaw.Built(EMPTY_INDEX, NOTHING_SEEN)

  // ----- answers --------------------------------------------------------------

  /** The query is answered the same on both states. */
  ghost predicate SameAnswer(q: Query, t: Tables, now: Tables) {
    match q
    case AllUsers =>
      t.users.Keys == now.users.Keys && forall id :: id in t.users ==> SameUser(t.users[id], now.users[id])
    case AllUserGroups => t.userGroups == now.userGroups
    case AllServices =>
      t.services.Keys == now.services.Keys
        && forall id :: id in t.services ==> SameService(t.services[id], now.services[id])
    case AllRules => t.rules == now.rules
    case PortsOfService(id) => forall p :: PortRow(id, p) in t.ports <==> PortRow(id, p) in now.ports
    case MembersOf(g) => forall u :: IsMember(t, g, u) <==> IsMember(now, g, u)
    case GroupsOfService(id) => forall g :: Member(g, id) in t.serviceMembers <==> Member(g, id) in now.serviceMembers
  }

  /** The columns of a user that a snapshot shows. */
  predicate SameUser(a: User, b: User) {
    a.name == b.name && a.ip == b.ip && a.publicKey == b.publicKey && a.presharedKey == b.presharedKey
  }

  predicate SameService(a: Service, b: Service) {
    a.name == b.name && a.hostname == b.hostname && a.origin == b.origin && a.ip == b.ip
  }

  predicate IsMember(t: Tables, group: int, user: int) { user in t.users && Member(group, user) in t.userMembers }

  ghost predicate SameAnswers(seen: Seen, now: Tables) { forall q :: q in seen ==> SameAnswer(q, seen[q], now) }

  /** Every query saw this state. */
  ghost predicate AllSaw(seen: Seen, t: Tables) { forall q :: q in seen ==> seen[q] == t }

  // ----- one part of the index at a time --------------------------------------

  ghost predicate UsersFrom(idx: Index, t: Tables) {
    idx.userById.Keys == t.users.Keys && forall id :: id in idx.userById ==> IsUserSnap(t, idx.userById[id])
  }

  ghost predicate GroupsFrom(idx: Index, t: Tables, members: int -> Tables) {
    && idx.userGroups.Keys == t.userGroups.Keys
    && forall id :: id in idx.userGroups ==>
      idx.userGroups[id].id == id && IsGroupSnap(t, members(id), idx.userGroups[id])
  }

  ghost predicate ServicesFrom(idx: Index, t: Tables, ports: int -> Tables) {
    idx.serviceById.Keys == t.services.Keys
      && forall id :: id in idx.serviceById ==> IsServiceSnap(t, ports(id), idx.serviceById[id])
  }

  ghost predicate ServiceGroupsFrom(idx: Index, t: Tables, later: int -> Tables) {
    && idx.groupsByService.Keys == t.services.Keys
    && forall id :: id in idx.groupsByService ==> HoldsGroupIds(later(id), id, idx.groupsByService[id])
  }

  lemma BuiltFromParts(idx: Index, r: Reads)
    ensures BuiltFrom(idx, r) <==>
      && Coherent(idx) && UsersFrom(idx, r.users) && GroupsFrom(idx, r.userGroups, r.members)
      && ServicesFrom(idx, r.services, r.ports) && ServiceGroupsFrom(idx, r.services, r.serviceGroups)
      && IsRuleList(r.rules, idx.rules)
  {
  }

  lemma UsersAgree(idx: Index, t: Tables, now: Tables)
    requires UsersFrom(idx, t) && forall id :: id in idx.userById ==> idx.userById[id].id == id
    ensures UsersFrom(idx, now) <==> SameAnswer(AllUsers, t, now)
  {
    if UsersFrom(idx, now) {
      forall id | id in t.users ensures SameUser(t.users[id], now.users[id]) {
        assert IsUserSnap(t, idx.userById[id]) && IsUserSnap(now, idx.userById[id]);
      }
    }
    if SameAnswer(AllUsers, t, now) {
      forall id | id in idx.userById ensures IsUserSnap(now, idx.userById[id]) {
        assert IsUserSnap(t, idx.userById[id]) && SameUser(t.users[id], now.users[id]);
      }
    }
  }

  lemma RulesAgree(rules: seq<RuleSnapshot>, t: Tables, now: Tables)
    requires IsRuleList(t, rules)
    ensures IsRuleList(now, rules) <==> SameAnswer(AllRules, t, now)
  {
    if IsRuleList(now, rules) {
      forall id | id in t.rules ensures id in now.rules && now.rules[id] == t.rules[id] {
        RuleListed(rules, t, now, id);
      }
      forall id | id in now.rules ensures id in t.rules { RuleListed(rules, now, t, id); }
      assert t.rules.Keys == now.rules.Keys;
    }
    if t.rules == now.rules {
      assert forall id :: id in t.rules ==> RuleSnap(t, id) == RuleSnap(now, id);
    }
  }

  lemma RuleListed(rules: seq<RuleSnapshot>, t: Tables, now: Tables, id: int)
    requires IsRuleList(t, rules) && IsRuleList(now, rules) && id in t.rules
    ensures id in now.rules && now.rules[id] == t.rules[id]
  {
    assert RuleSnap(t, id) in rules;
    var i :| 0 <= i < |rules| && rules[i] == RuleSnap(t, id);
    assert rules[i] == RuleSnap(now, rules[i].id);
  }

  lemma SameMaps<K, V>(a: map<K, V>, b: map<K, V>)
    requires a.Keys == b.Keys && forall k :: k in a ==> a[k] == b[k]
    ensures a == b
  {
  }

  lemma GroupAgrees(snap: UserGroupSnapshot, t: Tables, members: Tables, now: Tables)
    requires IsGroupSnap(t, members, snap)
    ensures IsGroupSnap(now, now, snap) <==>
      && snap.id in now.userGroups && now.userGroups[snap.id] == t.userGroups[snap.id]
      && SameAnswer(MembersOf(snap.id), members, now)
  {
    assert forall u :: u in snap.members <==> IsMember(members, snap.id, u);
    if IsGroupSnap(now, now, snap) {
      assert forall u :: u in snap.members <==> IsMember(now, snap.id, u);
    }
    if SameAnswer(MembersOf(snap.id), members, now) {
      assert forall u :: IsMember(now, snap.id, u) <==> u in now.users && Member(snap.id, u) in now.userMembers;
    }
  }

  /** The groups of an index and their members, against the answers to both kinds of query. */
  lemma GroupsAgree(idx: Index, t: Tables, members: int -> Tables, now: Tables, quiet: int -> Tables)
    requires (forall id :: quiet(id) == now) && GroupsFrom(idx, t, members)
    ensures GroupsFrom(idx, now, quiet) <==>
      SameAnswer(AllUserGroups, t, now) && forall g :: g in t.userGroups ==> SameAnswer(MembersOf(g), members(g), now)
  {
    forall g | g in idx.userGroups
      ensures IsGroupSnap(now, quiet(g), idx.userGroups[g]) <==>
        g in now.userGroups && now.userGroups[g] == t.userGroups[g] && SameAnswer(MembersOf(g), members(g), now)
    {
      GroupAgrees(idx.userGroups[g], t, members(g), now);
    }
    if GroupsFrom(idx, now, quiet) {
      forall g | g in t.userGroups ensures now.userGroups[g] == t.userGroups[g] {
        assert IsGroupSnap(now, quiet(g), idx.userGroups[g]);
      }
      SameMaps(t.userGroups, now.userGroups);
    }
  }

  ghost predicate SameServices(t: Tables, ports: int -> Tables, now: Tables) {
    SameAnswer(AllServices, t, now) && forall id :: id in t.services ==> SameAnswer(PortsOfService(id), ports(id), now)
  }

  lemma CurrentServices(idx: Index, t: Tables, ports: int -> Tables, now: Tables, quiet: int -> Tables)
    requires (forall id :: quiet(id) == now) && ServicesFrom(idx, t, ports) && ServicesFrom(idx, now, quiet)
    requires forall id :: id in idx.serviceById ==> idx.serviceById[id].id == id
    ensures SameServices(t, ports, now)
  {
    forall id | id in t.services
      ensures SameService(t.services[id], now.services[id]) && SameAnswer(PortsOfService(id), ports(id), now)
    {
      assert IsServiceSnap(t, ports(id), idx.serviceById[id]) && IsServiceSnap(now, now, idx.serviceById[id]);
    }
  }

  lemma SameServicesAreCurrent(idx: Index, t: Tables, ports: int -> Tables, now: Tables, quiet: int -> Tables)
    requires (forall id :: quiet(id) == now) && ServicesFrom(idx, t, ports) && SameServices(t, ports, now)
    requires forall id :: id in idx.serviceById ==> idx.serviceById[id].id == id
    ensures ServicesFrom(idx, now, quiet)
  {
    forall id | id in idx.serviceById ensures IsServiceSnap(now, now, idx.serviceById[id]) {
      assert IsServiceSnap(t, ports(id), idx.serviceById[id]) && SameService(t.services[id], now.services[id]);
      assert SameAnswer(PortsOfService(id), ports(id), now);
    }
  }

  lemma ServicesAgree(idx: Index, t: Tables, ports: int -> Tables, now: Tables, quiet: int -> Tables)
    requires (forall id :: quiet(id) == now) && ServicesFrom(idx, t, ports)
    requires forall id :: id in idx.serviceById ==> idx.serviceById[id].id == id
    ensures ServicesFrom(idx, now, quiet) <==> SameServices(t, ports, now)
  {
    if ServicesFrom(idx, now, quiet) { CurrentServices(idx, t, ports, now, quiet); }
    if SameServices(t, ports, now) { SameServicesAreCurrent(idx, t, ports, now, quiet); }
  }

  lemma ServiceGroupsAgree(idx: Index, t: Tables, later: int -> Tables, now: Tables, quiet: int -> Tables)
    requires (forall id :: quiet(id) == now) && ServiceGroupsFrom(idx, t, later) && t.services.Keys == now.services.Keys
    ensures ServiceGroupsFrom(idx, now, quiet) <==>
      forall id :: id in t.services ==> SameAnswer(GroupsOfService(id), later(id), now)
  {
    if ServiceGroupsFrom(idx, now, quiet) {
      forall id | id in t.services ensures SameAnswer(GroupsOfService(id), later(id), now) {
        assert HoldsGroupIds(later(id), id, idx.groupsByService[id]) && HoldsGroupIds(now, id, idx.groupsByService[id]);
      }
    }
    if forall id :: id in t.services ==> SameAnswer(GroupsOfService(id), later(id), now) {
      forall id | id in idx.groupsByService ensures HoldsGroupIds(now, id, idx.groupsByService[id]) {
        assert HoldsGroupIds(later(id), id, idx.groupsByService[id]) && SameAnswer(GroupsOfService(id), later(id), now);
      }
    }
  }

  // ----- the whole index ------------------------------------------------------

  ghost predicate ServicePartsFrom(idx: Index, r: Reads) {
    ServicesFrom(idx, r.services, r.ports) && ServiceGroupsFrom(idx, r.services, r.serviceGroups)
  }

  ghost predicate SameServiceAnswers(seen: Seen, now: Tables) {
    SameAnswer(AllServices, SeenBy(seen, AllServices), now) && forall id :: id in SeenBy(seen, AllServices).services ==>
      SameAnswer(PortsOfService(id), SeenBy(seen, PortsOfService(id)), now)
        && SameAnswer(GroupsOfService(id), SeenBy(seen, GroupsOfService(id)), now)
  }

  lemma ServicePartsAgree(idx: Index, seen: Seen, now: Tables)
    requires ServicePartsFrom(idx, ReadsOf(seen)) && forall id :: id in idx.serviceById ==> idx.serviceById[id].id == id
    ensures ServicePartsFrom(idx, Quiet(now)) <==> SameServiceAnswers(seen, now)
  {
    var r, quiet := ReadsOf(seen), Quiet(now);
    ServicesAgree(idx, r.services, r.ports, now, quiet.ports);
    if r.services.services.Keys == now.services.Keys {
      ServiceGroupsAgree(idx, r.services, r.serviceGroups, now, quiet.serviceGroups);
    }
  }

  ghost predicate SameGroupAnswers(seen: Seen, now: Tables) {
    SameAnswer(AllUserGroups, SeenBy(seen, AllUserGroups), now)
      && forall g :: g in SeenBy(seen, AllUserGroups).userGroups ==>
      SameAnswer(MembersOf(g), SeenBy(seen, MembersOf(g)), now)
  }

  lemma AnswersByPart(seen: Seen, now: Tables)
    requires Complete(seen)
    ensures SameAnswers(seen, now) <==>
      && SameAnswer(AllUsers, SeenBy(seen, AllUsers), now) && SameAnswer(AllRules, SeenBy(seen, AllRules), now)
      && SameGroupAnswers(seen, now) && SameServiceAnswers(seen, now)
  {
    assert AllUsers in seen && AllUserGroups in seen && AllServices in seen && AllRules in seen;
    if SameAnswers(seen, now) {
      forall id | id in seen[AllServices].services
        ensures SameAnswer(PortsOfService(id), seen[PortsOfService(id)], now)
          && SameAnswer(GroupsOfService(id), seen[GroupsOfService(id)], now)
      {
        assert Sends(seen, PortsOfService(id)) && Sends(seen, GroupsOfService(id));
      }
      forall g | g in seen[AllUserGroups].userGroups ensures SameAnswer(MembersOf(g), seen[MembersOf(g)], now) {
        assert Sends(seen, MembersOf(g));
      }
    }
    if SameGroupAnswers(seen, now) && SameServiceAnswers(seen, now) {
      forall q | q in seen && (q.PortsOfService? || q.MembersOf? || q.GroupsOfService?)
        ensures SameAnswer(q, seen[q], now)
      {
        assert Sends(seen, q);
      }
    }
  }

  lemma PartsAgree(idx: Index, seen: Seen, now: Tables)
    requires BuiltFrom(idx, ReadsOf(seen))
    ensures Reflects(idx, now) <==>
      && SameAnswer(AllUsers, SeenBy(seen, AllUsers), now) && SameAnswer(AllRules, SeenBy(seen, AllRules), now)
      && SameGroupAnswers(seen, now) && SameServiceAnswers(seen, now)
  {
    var r, quiet := ReadsOf(seen), Quiet(now);
    BuiltFromParts(idx, r);
    BuiltFromParts(idx, quiet);
    UsersAgree(idx, r.users, now);
    RulesAgree(idx.rules, r.rules, now);
    GroupsAgree(idx, r.userGroups, r.members, now, quiet.members);
    ServicePartsAgree(idx, seen, now);
  }

  /** An index, torn or not, is the one the committed tables call for exactly when they would answer
      every query of its build as it was answered then. */
  lemma CurrentIff(b: Built, now: Tables)
    ensures Reflects(b.idx, now) <==> SameAnswers(b.seen, now)
  {
    PartsAgree(b.idx, b.seen, now);
    AnswersByPart(b.seen, now);
  }

  /** In particular when every query saw them. */
  lemma UntornIsCurrent(b: Built, now: Tables)
    requires AllSaw(b.seen, now)
    ensures Reflects(b.idx, now)
  {
    forall q | q in b.seen ensures SameAnswer(q, b.seen[q], now) {
    }
    CurrentIff(b, now);
  }
}
