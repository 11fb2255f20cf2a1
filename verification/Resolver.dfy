/** Decisions on an index: daemon/policy/resolver.go. */
module Resolver {
  import opened Wrappers
  import opened Schema
  import opened PolicyIndex

  datatype Decision = Deny | Allow

  datatype ServiceVerdict = ServiceVerdict(decision: Decision, user: Option<UserSnapshot>,
                                           service: Option<ServiceSnapshot>)
  datatype PeerVerdict = PeerVerdict(decision: Decision, src: Option<UserSnapshot>, dst: Option<UserSnapshot>)

  predicate PortAllowed(ports: seq<PortSpec>, port: int, protocol: string) {
    ports == [] || PortSpec(port, protocol) in ports
  }

  // ----- specification --------------------------------------------------------

  /** The names under which rules may mean a user, as subject or as object. */
  ghost function UserRefs(idx: Index, user: int): set<Ref> {
    {Ref(UserType, user)} + set g | g in GroupsOf(idx.groupsByUser, user) :: Ref(UserGroupType, g)
  }

  ghost function ServiceRefs(idx: Index, service: int): set<Ref> {
    {Ref(ServiceType, service)} + set g | g in GroupsOf(idx.groupsByService, service) :: Ref(ServiceGroupType, g)
  }

  predicate Covers(r: RuleSnapshot, subjects: set<Ref>, targets: set<Ref>) {
    r.subject in subjects && r.target in targets
  }

  /** The covering rule of greatest id, the first such if ids repeat; negative ids never win. */
  ghost function Winner(rules: seq<RuleSnapshot>, subjects: set<Ref>, targets: set<Ref>): Option<RuleSnapshot> {
    if rules == [] then None else
    var best, last := Winner(rules[..|rules| - 1], subjects, targets), rules[|rules| - 1];
    if Covers(last, subjects, targets) && last.id > (if best.Some? then best.value.id else -1) then Some(last) else best
  }

  lemma {:induction false} WinnerIsGreatest(rules: seq<RuleSnapshot>, subjects: set<Ref>, targets: set<Ref>)
    ensures var w := Winner(rules, subjects, targets);
      && (w.None? ==> forall r :: r in rules && Covers(r, subjects, targets) ==> r.id < 0)
      && (w.Some? ==> w.value in rules && Covers(w.value, subjects, targets) && w.value.id >= 0)
      && (w.Some? ==> forall r :: r in rules && Covers(r, subjects, targets) ==> r.id <= w.value.id)
  {
    if rules == [] {
    } else {
      var init, last := rules[..|rules| - 1], rules[|rules| - 1];
      WinnerIsGreatest(init, subjects, targets);
      assert rules == init + [last];
    }
  }

  function DecisionOf(a: Action): Decision { if a == AllowAction then Allow else Deny }

  ghost function Explicit(rules: seq<RuleSnapshot>, subjects: set<Ref>, targets: set<Ref>): Option<Decision> {
    match Winner(rules, subjects, targets)
    case None => None
    case Some(r) => Some(DecisionOf(r.action))
  }

  /** Some LAN-mode group of the source holds the destination. */
  ghost predicate SharesLan(idx: Index, src: int, dst: int) {
    exists g :: g in GroupsOf(idx.groupsByUser, src) && g in idx.userGroups && idx.userGroups[g].lanMode
      && dst in idx.userGroups[g].members
  }

  ghost function DecideService(idx: Index, srcIp: string, vip: string, port: int, protocol: string): ServiceVerdict {
    if srcIp !in idx.peerByIp then ServiceVerdict(Deny, None, None)
    else if vip !in idx.serviceByVip then ServiceVerdict(Deny, Some(idx.peerByIp[srcIp]), None)
    else
      var user, svc := idx.peerByIp[srcIp], idx.serviceByVip[vip];
      var d := if PortAllowed(svc.ports, port, protocol)
               then Explicit(idx.rules, UserRefs(idx, user.id), ServiceRefs(idx, svc.id)).GetOr(Deny) else Deny;
      ServiceVerdict(d, Some(user), Some(svc))
  }

  ghost function DecidePeer(idx: Index, srcIp: string, dstIp: string): PeerVerdict {
    if srcIp !in idx.peerByIp then PeerVerdict(Deny, None, None)
    else if dstIp !in idx.peerByIp then PeerVerdict(Deny, Some(idx.peerByIp[srcIp]), None)
    else
      var src, dst := idx.peerByIp[srcIp], idx.peerByIp[dstIp];
      var d := Explicit(idx.rules, UserRefs(idx, src.id), UserRefs(idx, dst.id))
               .GetOr(if SharesLan(idx, src.id, dst.id) then Allow else Deny);
      PeerVerdict(d, Some(src), Some(dst))
  }

  /** The verdict names whoever the two addresses belong to, the service only next to a known user. */
  lemma VerdictNamesEnds(idx: Index, srcIp: string, vip: string, port: int, protocol: string)
    requires Coherent(idx)
    ensures var v := DecideService(idx, srcIp, vip, port, protocol);
      && (v.user.Some? <==> exists u :: u in idx.userById && idx.userById[u].ip == srcIp)
      && (v.user.Some? ==>
            && v.user.value.ip == srcIp && v.user.value.id in idx.userById
            && idx.userById[v.user.value.id] == v.user.value)
      && (v.service.Some? ==>
            && v.user.Some? && v.service.value.ip == vip && v.service.value.id in idx.serviceById
            && idx.serviceById[v.service.value.id] == v.service.value)
      && (v.decision == Allow ==> v.service.Some?)
  {
  }

  /** On every index `Build` can return, torn or not, LAN sharing is symmetric. */
  lemma SharesLanSymmetric(idx: Index, a: int, b: int)
    requires Coherent(idx)
    ensures SharesLan(idx, a, b) <==> SharesLan(idx, b, a)
  {
    if g :|
      && g in GroupsOf(idx.groupsByUser, a) && g in idx.userGroups
      && idx.userGroups[g].lanMode && b in idx.userGroups[g].members
    {
      assert a in idx.userGroups[g].members && g in GroupsOf(idx.groupsByUser, b);
    }
    if g :|
      && g in GroupsOf(idx.groupsByUser, b) && g in idx.userGroups
      && idx.userGroups[g].lanMode && a in idx.userGroups[g].members
    {
      assert b in idx.userGroups[g].members && g in GroupsOf(idx.groupsByUser, a);
    }
  }

  // ----- the code -------------------------------------------------------------

  /** `subjectSet`, `userObjectSet` and `serviceObjectSet`: one entity and its groups. */
  method RefSet(own: Ref, groupType: EntityType, groups: seq<int>) returns (refs: seq<Ref>)
    ensures forall r :: r in refs <==> r in {own} + set g | g in groups :: Ref(groupType, g)
  {
    refs := [own];
    for i := 0 to |groups|
      invariant forall r :: r in refs <==> r == own || exists j :: 0 <= j < i && r == Ref(groupType, groups[j])
    {
      refs := refs + [Ref(groupType, groups[i])];
    }
  }

  method MatchesAny(r: Ref, refs: seq<Ref>) returns (found: bool)
    ensures found <==> r in refs
  {
    for i := 0 to |refs|
      invariant r !in refs[..i]
    {
      if refs[i].typ == r.typ && refs[i].id == r.id {
        assert refs[i] == r;
        return true;
      }
      assert refs[..i + 1] == refs[..i] + [refs[i]];
    }
    assert refs[..|refs|] == refs;
    return false;
  }

  method EvaluateExplicit(idx: Index, subjects: seq<Ref>, targets: seq<Ref>) returns (d: Decision, found: bool)
    ensures var e := Explicit(idx.rules, set r | r in subjects, set r | r in targets);
      found == e.Some? && d == e.GetOr(Deny)
  {
    var bestId, bestAction := -1, OtherAction("");
    ghost var ss, ts := set r | r in subjects, set r | r in targets;
    for i := 0 to |idx.rules|
      invariant var w := Winner(idx.rules[..i], ss, ts);
        && (w.None? ==> bestId == -1)
        && (w.Some? ==> bestId == w.value.id >= 0 && bestAction == w.value.action)
    {
      var r := idx.rules[i];
      assert idx.rules[..i + 1][..i] == idx.rules[..i];
      WinnerIsGreatest(idx.rules[..i], ss, ts);
      var subjectMatches := MatchesAny(r.subject, subjects);
      if !subjectMatches { continue; }
      var targetMatches := MatchesAny(r.target, targets);
      if !targetMatches { continue; }
      if r.id > bestId {
        bestId, bestAction := r.id, r.action;
      }
    }
    assert idx.rules[..|idx.rules|] == idx.rules;
    if bestId < 0 {
      return Deny, false;
    }
    return (if bestAction == AllowAction then Allow else Deny), true;
  }

  method CheckService(idx: Index, srcIp: string, vip: string, port: int, protocol: string) returns (v: ServiceVerdict)
    ensures v == DecideService(idx, srcIp, vip, port, protocol)
  {
    if srcIp !in idx.peerByIp { return ServiceVerdict(Deny, None, None); }
    var user := idx.peerByIp[srcIp];
    if vip !in idx.serviceByVip { return ServiceVerdict(Deny, Some(user), None); }
    var svc := idx.serviceByVip[vip];
    if !PortAllowed(svc.ports, port, protocol) { return ServiceVerdict(Deny, Some(user), Some(svc)); }
    var subjects := RefSet(Ref(UserType, user.id), UserGroupType, GroupsOf(idx.groupsByUser, user.id));
    var targets := RefSet(Ref(ServiceType, svc.id), ServiceGroupType, GroupsOf(idx.groupsByService, svc.id));
    assert (set r | r in subjects) == UserRefs(idx, user.id);
    assert (set r | r in targets) == ServiceRefs(idx, svc.id);
    var d, _ := EvaluateExplicit(idx, subjects, targets);
    return ServiceVerdict(d, Some(user), Some(svc));
  }

  method ShareLanGroup(idx: Index, src: int, dst: int) returns (shared: bool)
    ensures shared <==> SharesLan(idx, src, dst)
  {
    var groups := GroupsOf(idx.groupsByUser, src);
    for i := 0 to |groups|
      invariant forall j :: 0 <= j < i ==>
        !(groups[j] in idx.userGroups && idx.userGroups[groups[j]].lanMode && dst in idx.userGroups[groups[j]].members)
    {
      var gid := groups[i];
      if gid !in idx.userGroups || !idx.userGroups[gid].lanMode { continue; }
      if dst in idx.userGroups[gid].members {
        return true;
      }
    }
    return false;
  }

  method CheckPeer(idx: Index, srcIp: string, dstIp: string) returns (v: PeerVerdict)
    ensures v == DecidePeer(idx, srcIp, dstIp)
  {
    if srcIp !in idx.peerByIp { return PeerVerdict(Deny, None, None); }
    var src := idx.peerByIp[srcIp];
    if dstIp !in idx.peerByIp { return PeerVerdict(Deny, Some(src), None); }
    var dst := idx.peerByIp[dstIp];
    var subjects := RefSet(Ref(UserType, src.id), UserGroupType, GroupsOf(idx.groupsByUser, src.id));
    var targets := RefSet(Ref(UserType, dst.id), UserGroupType, GroupsOf(idx.groupsByUser, dst.id));
    assert (set r | r in subjects) == UserRefs(idx, src.id);
    assert (set r | r in targets) == UserRefs(idx, dst.id);
    var d, found := EvaluateExplicit(idx, subjects, targets);
    if found { return PeerVerdict(d, Some(src), Some(dst)); }
    var shared := ShareLanGroup(idx, src.id, dst.id);
    if shared { return PeerVerdict(Allow, Some(src), Some(dst)); }
    return PeerVerdict(Deny, Some(src), Some(dst));
  }
}
