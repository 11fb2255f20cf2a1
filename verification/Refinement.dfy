/** The index speeds up a relational question. This module states the question on the committed
    tables and proves that an index reflecting them gives the same answers. */
module Refinement {
  import opened Wrappers
  import opened Schema
  import opened PolicyIndex
  import opened Resolver

  // ----- decisions on the tables ----------------------------------------------

  ghost function TableUserRefs(t: Tables, user: int): set<Ref> {
    {Ref(UserType, user)} + set m | m in t.userMembers && m.id == user :: Ref(UserGroupType, m.group)
  }

  ghost function TableServiceRefs(t: Tables, service: int): set<Ref> {
    {Ref(ServiceType, service)} + set m | m in t.serviceMembers && m.id == service :: Ref(ServiceGroupType, m.group)
  }

  ghost predicate Applies(rules: map<int, Rule>, id: int, subjects: set<Ref>, targets: set<Ref>) {
    id in rules && rules[id].subject in subjects && rules[id].target in targets
  }

  /** The rule of greatest id among those that apply, directly or through membership. */
  ghost predicate Decides(rules: map<int, Rule>, id: int, subjects: set<Ref>, targets: set<Ref>) {
    Applies(rules, id, subjects, targets) && forall other :: Applies(rules, other, subjects, targets) ==> other <= id
  }

  ghost function TableVerdict(rules: map<int, Rule>, subjects: set<Ref>, targets: set<Ref>): Option<Decision> {
    if id :| Decides(rules, id, subjects, targets) then Some(DecisionOf(rules[id].action)) else None
  }

  ghost predicate TableAllowsService(t: Tables, srcIp: string, vip: string, port: int, protocol: string) {
    exists u, s ::
      && u in t.users && t.users[u].ip == srcIp
      && s in t.services && t.services[s].ip == vip
      && (PortsOf(t, s) == {} || PortSpec(port, protocol) in PortsOf(t, s))
      && TableVerdict(t.rules, TableUserRefs(t, u), TableServiceRefs(t, s)) == Some(Allow)
  }

  ghost predicate TableSharesLan(t: Tables, a: int, b: int) {
    exists g :: g in t.userGroups && t.userGroups[g].lanMode && Member(g, a) in t.userMembers
      && Member(g, b) in t.userMembers
  }

  ghost function TablePeerDecision(t: Tables, src: int, dst: int): Decision {
    var byLan := if TableSharesLan(t, src, dst) then Allow else Deny;
    TableVerdict(t.rules, TableUserRefs(t, src), TableUserRefs(t, dst)).GetOr(byLan)
  }

  ghost predicate TableAllowsPeer(t: Tables, srcIp: string, dstIp: string) {
    exists u, v :: u in t.users && t.users[u].ip == srcIp && v in t.users && t.users[v].ip == dstIp
      && TablePeerDecision(t, u, v) == Allow
  }

  /** When some rule applies, one decides: rule ids are finitely many. */
  lemma {:induction false} SomeRuleDecides(rules: map<int, Rule>, id: int, subjects: set<Ref>, targets: set<Ref>)
    requires Applies(rules, id, subjects, targets)
    ensures exists best :: Decides(rules, best, subjects, targets)
    decreases |set r | r in rules && r > id|
  {
    if next :| Applies(rules, next, subjects, targets) && next > id {
      var above, aboveNext := set r | r in rules && r > id, set r | r in rules && r > next;
      assert next in above && next !in aboveNext && aboveNext <= above;
      assert above == aboveNext + (above - aboveNext) && next in above - aboveNext;
      SomeRuleDecides(rules, next, subjects, targets);
    } else {
      assert Decides(rules, id, subjects, targets);
    }
  }

  lemma VerdictOf(rules: map<int, Rule>, id: int, subjects: set<Ref>, targets: set<Ref>)
    requires Decides(rules, id, subjects, targets)
    ensures TableVerdict(rules, subjects, targets) == Some(DecisionOf(rules[id].action))
  {
    assert forall other :: Decides(rules, other, subjects, targets) ==> other == id;
  }

  // ----- the index gives the same answers -------------------------------------

  /** The loop over the rule list finds the rule that decides on the tables. */
  lemma ExplicitIsTableVerdict(t: Tables, rules: seq<RuleSnapshot>, subjects: set<Ref>, targets: set<Ref>)
    requires IdsBounded(t.rules.Keys, t.lastRule) && IsRuleList(t, rules)
    ensures Explicit(rules, subjects, targets) == TableVerdict(t.rules, subjects, targets)
  {
    WinnerIsGreatest(rules, subjects, targets);
    var w := Winner(rules, subjects, targets);
    forall id | Applies(t.rules, id, subjects, targets) ensures w.Some? && id <= w.value.id {
      assert RuleSnap(t, id) in rules && Covers(RuleSnap(t, id), subjects, targets);
    }
    if w.Some? {
      assert Decides(t.rules, w.value.id, subjects, targets);
      VerdictOf(t.rules, w.value.id, subjects, targets);
    }
  }

  lemma GroupsAgree(idx: Index, t: Tables, g: int, u: int)
    requires ReferencesSound(t) && Reflects(idx, t)
    ensures g in GroupsOf(idx.groupsByUser, u) <==> Member(g, u) in t.userMembers
    ensures g in GroupsOf(idx.groupsByUser, u) ==>
      g in t.userGroups && idx.userGroups[g].lanMode == t.userGroups[g].lanMode
  {
    var m := Member(g, u);
    assert m in t.userMembers ==> m.group in t.userGroups && m.id in t.users;
    if g in idx.userGroups {
      assert idx.userGroups[g].id == g && IsGroupSnap(t, t, idx.userGroups[g]);
    }
  }

  lemma RefsAgree(idx: Index, t: Tables, user: int)
    requires ReferencesSound(t) && Reflects(idx, t)
    ensures UserRefs(idx, user) == TableUserRefs(t, user)
  {
    forall g ensures g in GroupsOf(idx.groupsByUser, user) <==> Member(g, user) in t.userMembers {
      GroupsAgree(idx, t, g, user);
    }
  }

  lemma ServiceRefsAgree(idx: Index, t: Tables, service: int)
    requires Consistent(t) && Reflects(idx, t) && service in t.services
    ensures ServiceRefs(idx, service) == TableServiceRefs(t, service)
  {
    assert HoldsGroupIds(t, service, idx.groupsByService[service]);
  }

  lemma PortsAgree(idx: Index, t: Tables, service: int, port: int, protocol: string)
    requires Reflects(idx, t) && service in idx.serviceById
    ensures PortAllowed(idx.serviceById[service].ports, port, protocol)
       <==> PortsOf(t, service) == {} || PortSpec(port, protocol) in PortsOf(t, service)
  {
    var snap := idx.serviceById[service];
    assert snap.id == service && IsServiceSnap(t, t, snap);
    forall p ensures p in snap.ports <==> p in PortsOf(t, service) {
      if PortRow(service, p) in t.ports {
        assert PortRow(service, p).spec == p;
      }
    }
    if snap.ports != [] {
      assert snap.ports[0] in PortsOf(t, service);
    }
  }

  /** For every source, address, port and protocol the published index decides as the tables do. */
  lemma IndexRefinesTables(idx: Index, t: Tables, srcIp: string, vip: string, port: int, protocol: string)
    requires Consistent(t) && Reflects(idx, t)
    ensures DecideService(idx, srcIp, vip, port, protocol).decision == Allow <==>
      TableAllowsService(t, srcIp, vip, port, protocol)
  {
    if srcIp in idx.peerByIp && vip in idx.serviceByVip {
      var u, s := idx.peerByIp[srcIp].id, idx.serviceByVip[vip].id;
      assert IsUserSnap(t, idx.userById[u]) && IsServiceSnap(t, t, idx.serviceById[s]);
      ExplicitIsTableVerdict(t, idx.rules, TableUserRefs(t, u), TableServiceRefs(t, s));
      RefsAgree(idx, t, u);
      ServiceRefsAgree(idx, t, s);
      PortsAgree(idx, t, s, port, protocol);
      assert forall a :: a in t.users && t.users[a].ip == srcIp ==> a == u;
      assert forall a :: a in t.services && t.services[a].ip == vip ==> a == s;
    } else {
      UnknownAddresses(idx, t, srcIp, vip);
    }
  }

  lemma UnknownAddresses(idx: Index, t: Tables, srcIp: string, vip: string)
    requires Reflects(idx, t)
    ensures srcIp !in idx.peerByIp ==> forall u :: u in t.users ==> t.users[u].ip != srcIp
    ensures vip !in idx.serviceByVip ==> forall s :: s in t.services ==> t.services[s].ip != vip
  {
    forall u | u in t.users ensures t.users[u].ip in idx.peerByIp {
      assert IsUserSnap(t, idx.userById[u]) && idx.userById[u].id == u;
    }
    forall s | s in t.services ensures t.services[s].ip in idx.serviceByVip {
      assert IsServiceSnap(t, t, idx.serviceById[s]) && idx.serviceById[s].id == s;
    }
  }

  lemma LanAgrees(idx: Index, t: Tables, a: int, b: int)
    requires ReferencesSound(t) && Reflects(idx, t)
    ensures SharesLan(idx, a, b) <==> TableSharesLan(t, a, b)
  {
    forall g, u
      ensures g in GroupsOf(idx.groupsByUser, u) <==> Member(g, u) in t.userMembers
      ensures g in GroupsOf(idx.groupsByUser, u) ==>
        g in t.userGroups && idx.userGroups[g].lanMode == t.userGroups[g].lanMode
    {
      GroupsAgree(idx, t, g, u);
    }
    if TableSharesLan(t, a, b) {
      var g :| g in t.userGroups && t.userGroups[g].lanMode && Member(g, a) in t.userMembers
        && Member(g, b) in t.userMembers;
      assert g in GroupsOf(idx.groupsByUser, a) && g in GroupsOf(idx.groupsByUser, b) && b in idx.userGroups[g].members;
    }
  }

  lemma PairAgrees(idx: Index, t: Tables, u: int, v: int)
    requires Consistent(t) && Reflects(idx, t)
    ensures Explicit(idx.rules, UserRefs(idx, u), UserRefs(idx, v)).GetOr(if SharesLan(idx, u, v) then Allow else Deny)
         == TablePeerDecision(t, u, v)
  {
    ExplicitIsTableVerdict(t, idx.rules, TableUserRefs(t, u), TableUserRefs(t, v));
    RefsAgree(idx, t, u);
    RefsAgree(idx, t, v);
    LanAgrees(idx, t, u, v);
  }

  lemma IndexRefinesPeers(idx: Index, t: Tables, srcIp: string, dstIp: string)
    requires Consistent(t) && Reflects(idx, t)
    ensures DecidePeer(idx, srcIp, dstIp).decision == Allow <==> TableAllowsPeer(t, srcIp, dstIp)
  {
    if srcIp in idx.peerByIp && dstIp in idx.peerByIp {
      var u, v := idx.peerByIp[srcIp].id, idx.peerByIp[dstIp].id;
      assert IsUserSnap(t, idx.userById[u]) && IsUserSnap(t, idx.userById[v]);
      PairAgrees(idx, t, u, v);
      assert forall a :: a in t.users && t.users[a].ip == srcIp ==> a == u;
      assert forall a :: a in t.users && t.users[a].ip == dstIp ==> a == v;
    } else {
      UnknownAddresses(idx, t, srcIp, "");
      UnknownAddresses(idx, t, dstIp, "");
    }
  }
}
