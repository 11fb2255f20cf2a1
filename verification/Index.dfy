/** The denormalised policy index and the multi-read `Build` of daemon/policy/index.go. */
module PolicyIndex {
  import opened Wrappers
  import opened Keys
  import opened Schema
  import Origin

  datatype UserSnapshot = UserSnapshot(id: int, name: string, ip: string, publicKey: KeyText, presharedKey: KeyText)
  datatype ServiceSnapshot = ServiceSnapshot(id: int, name: string, hostname: string, origin: Origin.Spec, ip: string,
                                             ports: seq<PortSpec>)
  datatype UserGroupSnapshot = UserGroupSnapshot(id: int, name: string, lanMode: bool, members: seq<int>)
  datatype RuleSnapshot = RuleSnapshot(id: int, subject: Ref, target: Ref, action: Action)

  datatype Index = Index(
    peerByIp: map<string, UserSnapshot>,
    userById: map<int, UserSnapshot>,
    serviceByVip: map<string, ServiceSnapshot>,
    serviceById: map<int, ServiceSnapshot>,
    groupsByUser: map<int, seq<int>>,
    groupsByService: map<int, seq<int>>,
    userGroups: map<int, UserGroupSnapshot>,
    rules: seq<RuleSnapshot>)

  const EMPTY_INDEX := Index(map[], map[], map[], map[], map[], map[], map[], [])

  /** Reading a Go map at a missing key yields the empty slice. */
  function GroupsOf(m: map<int, seq<int>>, id: int): seq<int> {
    if id in m then m[id] else []
  }

  // ----- queries --------------------------------------------------------------

  // The rows of a query come once each; nothing below depends on their order.

  method SelectPorts(t: Tables, service: int) returns (ports: seq<PortSpec>)
    ensures forall p :: p in ports <==> PortRow(service, p) in t.ports
  {
    ports := [];
    var rows := set r | r in t.ports && r.service == service;
    while rows != {}
      invariant rows <= t.ports && forall r :: r in rows ==> r.service == service
      invariant forall p :: PortRow(service, p) in t.ports <==> p in ports || PortRow(service, p) in rows
    {
      var r := Pick(rows);
      ports := ports + [r.spec];
      rows := rows - {r};
    }
  }

  /** `UserGroupMembers`: the users whose id has a membership row for the group. */
  method SelectMembers(t: Tables, group: int) returns (members: seq<int>)
    ensures forall u :: u in members <==> u in t.users && Member(group, u) in t.userMembers
    ensures forall i, j :: 0 <= i < j < |members| ==> members[i] != members[j]
  {
    members := [];
    var rows := set u | u in t.users && Member(group, u) in t.userMembers;
    while rows != {}
      invariant forall u :: u in t.users && Member(group, u) in t.userMembers <==> u in members || u in rows
      invariant forall u :: u in members ==> u !in rows
      invariant forall i, j :: 0 <= i < j < |members| ==> members[i] != members[j]
    {
      var u := Pick(rows);
      members := members + [u];
      rows := rows - {u};
    }
  }

  method SelectServiceGroupIds(t: Tables, service: int) returns (groups: seq<int>)
    ensures forall g :: g in groups <==> Member(g, service) in t.serviceMembers
  {
    groups := [];
    var rows := set m | m in t.serviceMembers && m.id == service;
    while rows != {}
      invariant rows <= t.serviceMembers && forall m :: m in rows ==> m.id == service
      invariant forall g :: Member(g, service) in t.serviceMembers <==> g in groups || Member(g, service) in rows
    {
      var m := Pick(rows);
      groups := groups + [m.group];
      rows := rows - {m};
    }
  }

  predicate IsUserSnap(t: Tables, snap: UserSnapshot) {
    snap.id in t.users &&
    var u := t.users[snap.id];
    snap == UserSnapshot(snap.id, u.name, u.ip, u.publicKey, u.presharedKey)
  }

  /** A service row of one read with the ports that a later read found for it. */
  ghost predicate IsServiceSnap(t: Tables, later: Tables, snap: ServiceSnapshot) {
    snap.id in t.services &&
    var s := t.services[snap.id];
    && snap == ServiceSnapshot(snap.id, s.name, s.hostname, s.origin, s.ip, snap.ports)
    && forall p :: p in snap.ports <==> PortRow(snap.id, p) in later.ports
  }

  ghost predicate HoldsGroupIds(t: Tables, service: int, groups: seq<int>) {
    forall g :: g in groups <==> Member(g, service) in t.serviceMembers
  }

  ghost predicate IsGroupSnap(t: Tables, later: Tables, snap: UserGroupSnapshot) {
    && snap.id in t.userGroups
    && snap.name == t.userGroups[snap.id].name && snap.lanMode == t.userGroups[snap.id].lanMode
    && forall u :: u in snap.members <==> u in later.users && Member(snap.id, u) in later.userMembers
  }

  function RuleSnap(t: Tables, id: int): RuleSnapshot
    requires id in t.rules
  {
    RuleSnapshot(id, t.rules[id].subject, t.rules[id].target, t.rules[id].action)
  }

  /** The rule list holds every rule once. */
  ghost predicate IsRuleList(t: Tables, rules: seq<RuleSnapshot>) {
    && (forall id :: id in t.rules ==> RuleSnap(t, id) in rules)
    && (forall i :: 0 <= i < |rules| ==> rules[i].id in t.rules && rules[i] == RuleSnap(t, rules[i].id))
    && (forall i, j :: 0 <= i < j < |rules| ==> rules[i].id != rules[j].id)
  }

  // ----- coherence ------------------------------------------------------------

  ghost predicate PeersInverse(byIp: map<string, UserSnapshot>, byId: map<int, UserSnapshot>) {
    && (forall ip :: ip in byIp ==> byIp[ip].ip == ip && byIp[ip].id in byId && byId[byIp[ip].id] == byIp[ip])
    && (forall id :: id in byId ==> byId[id].id == id && byId[id].ip in byIp && byIp[byId[id].ip] == byId[id])
  }

  ghost predicate ServicesInverse(byVip: map<string, ServiceSnapshot>, byId: map<int, ServiceSnapshot>) {
    && (forall ip :: ip in byVip ==> byVip[ip].ip == ip && byVip[ip].id in byId && byId[byVip[ip].id] == byVip[ip])
    && (forall id :: id in byId ==> byId[id].id == id && byId[id].ip in byVip && byVip[byId[id].ip] == byId[id])
  }

  ghost predicate GroupsInverse(groupsByUser: map<int, seq<int>>, groups: map<int, UserGroupSnapshot>) {
    forall u, g :: g in GroupsOf(groupsByUser, u) <==> g in groups && u in groups[g].members
  }

  /** What holds of every index `Build` returns, whatever was committed between its reads. */
  ghost predicate Coherent(idx: Index) {
    && PeersInverse(idx.peerByIp, idx.userById)
    && ServicesInverse(idx.serviceByVip, idx.serviceById)
    && GroupsInverse(idx.groupsByUser, idx.userGroups)
  }

  // ----- building -------------------------------------------------------------

  /** The committed state each query of one `Build` saw: the four lists, then one query per service
      for its ports, one per group for its members, one per service for its groups. Nothing ties
      them together: the queries run outside any transaction, and mutations may commit in between. */
  datatype Reads = Reads(users: Tables, userGroups: Tables, services: Tables, ports: int -> Tables,
                         rules: Tables, members: int -> Tables, serviceGroups: int -> Tables)

  /** The lists come from committed states, in which no address repeats. */
  ghost predicate SoundReads(r: Reads) {
    AddressesUnique(r.users.users, r.users.services) && AddressesUnique(r.services.users, r.services.services)
  }

  /** Each part of the index is what the query for it saw. */
  ghost predicate BuiltFrom(idx: Index, r: Reads) {
    && Coherent(idx)
    && idx.userById.Keys == r.users.users.Keys
    && (forall id :: id in idx.userById ==> IsUserSnap(r.users, idx.userById[id]))
    && idx.serviceById.Keys == r.services.services.Keys
    && (forall id :: id in idx.serviceById ==> IsServiceSnap(r.services, r.ports(id), idx.serviceById[id]))
    && idx.groupsByService.Keys == r.services.services.Keys
    && (forall id :: id in idx.groupsByService ==> HoldsGroupIds(r.serviceGroups(id), id, idx.groupsByService[id]))
    && idx.userGroups.Keys == r.userGroups.userGroups.Keys
    && (forall id :: id in idx.userGroups ==>
      idx.userGroups[id].id == id && IsGroupSnap(r.userGroups, r.members(id), idx.userGroups[id]))
    && IsRuleList(r.rules, idx.rules)
  }

  /** Every query sees the same state. */
  function Quiet(t: Tables): Reads { Reads(t, t, t, _ => t, t, _ => t, _ => t) }

  /** The index is the denormalisation of exactly one committed state. */
  ghost predicate Reflects(idx: Index, t: Tables) { BuiltFrom(idx, Quiet(t)) }

  datatype PeerMapsRaw = PeerMaps(byIp: map<string, UserSnapshot>, byId: map<int, UserSnapshot>)
  type PeerMaps = p: PeerMapsRaw | PeersInverse(p.byIp, p.byId) witness PeerMapsRaw.PeerMaps(map[], map[])

  datatype VipMapsRaw = VipMaps(byVip: map<string, ServiceSnapshot>, byId: map<int, ServiceSnapshot>)
  type VipMaps = p: VipMapsRaw | ServicesInverse(p.byVip, p.byId) witness VipMapsRaw.VipMaps(map[], map[])

  datatype GroupMapsRaw = GroupMaps(byUser: map<int, seq<int>>, groups: map<int, UserGroupSnapshot>)
  type GroupMaps = p: GroupMapsRaw | GroupsInverse(p.byUser, p.groups) witness GroupMapsRaw.GroupMaps(map[], map[])

  function AddPeer(p: PeerMaps, snap: UserSnapshot): PeerMaps
    requires snap.id !in p.byId && snap.ip !in p.byIp
  {
    PeerMapsRaw.PeerMaps(p.byIp[snap.ip := snap], p.byId[snap.id := snap])
  }

  function AddVip(p: VipMaps, snap: ServiceSnapshot): VipMaps
    requires snap.id !in p.byId && snap.ip !in p.byVip
  {
    VipMapsRaw.VipMaps(p.byVip[snap.ip := snap], p.byId[snap.id := snap])
  }

  method IndexUsers(t: Tables) returns (p: PeerMaps)
    requires AddressesUnique(t.users, t.services)
    ensures p.byId.Keys == t.users.Keys
    ensures forall id :: id in p.byId ==> IsUserSnap(t, p.byId[id])
  {
    p := PeerMapsRaw.PeerMaps(map[], map[]);
    var todo := t.users.Keys;
    while todo != {}
      invariant todo <= t.users.Keys && p.byId.Keys == t.users.Keys - todo
      invariant forall id :: id in p.byId ==> IsUserSnap(t, p.byId[id])
    {
      var id := Pick(todo);
      var u := t.users[id];
      p := AddPeer(p, UserSnapshot(id, u.name, u.ip, u.publicKey, u.presharedKey));
      todo := todo - {id};
    }
  }

  method IndexServices(t: Tables, ports: int -> Tables) returns (p: VipMaps)
    requires AddressesUnique(t.users, t.services)
    ensures p.byId.Keys == t.services.Keys
    ensures forall id :: id in p.byId ==> IsServiceSnap(t, ports(id), p.byId[id])
  {
    p := VipMapsRaw.VipMaps(map[], map[]);
    var todo := t.services.Keys;
    while todo != {}
      invariant todo <= t.services.Keys && p.byId.Keys == t.services.Keys - todo
      invariant forall id :: id in p.byId ==> IsServiceSnap(t, ports(id), p.byId[id])
    {
      var id := Pick(todo);
      var s := t.services[id];
      var list := SelectPorts(ports(id), id);
      p := AddVip(p, ServiceSnapshot(id, s.name, s.hostname, s.origin, s.ip, list));
      todo := todo - {id};
    }
  }

  /** Appends one group to the membership lists of all its members, then records the group. */
  method AddGroup(g: GroupMaps, snap: UserGroupSnapshot) returns (g': GroupMaps)
    requires snap.id !in g.groups
    ensures g'.groups == g.groups[snap.id := snap]
  {
    var byUser := g.byUser;
    var members := snap.members;
    for i := 0 to |members|
      invariant forall u, x ::
        x in GroupsOf(byUser, u) <==> x in GroupsOf(g.byUser, u) || (x == snap.id && u in members[..i])
    {
      var u := members[i];
      byUser := byUser[u := GroupsOf(byUser, u) + [snap.id]];
      assert members[..i + 1] == members[..i] + [u];
    }
    assert members[..|members|] == members;
    var groups := g.groups[snap.id := snap];
    assert GroupsInverse(byUser, groups);
    g' := GroupMapsRaw.GroupMaps(byUser, groups);
  }

  method IndexGroups(t: Tables, members: int -> Tables) returns (g: GroupMaps)
    ensures g.groups.Keys == t.userGroups.Keys
    ensures forall id :: id in g.groups ==> g.groups[id].id == id && IsGroupSnap(t, members(id), g.groups[id])
  {
    g := GroupMapsRaw.GroupMaps(map[], map[]);
    var todo := t.userGroups.Keys;
    while todo != {}
      invariant todo <= t.userGroups.Keys && g.groups.Keys == t.userGroups.Keys - todo
      invariant forall id :: id in g.groups ==> g.groups[id].id == id && IsGroupSnap(t, members(id), g.groups[id])
    {
      var id := Pick(todo);
      var list := SelectMembers(members(id), id);
      g := AddGroup(g, UserGroupSnapshot(id, t.userGroups[id].name, t.userGroups[id].lanMode, list));
      todo := todo - {id};
    }
  }

  method IndexServiceGroups(services: Tables, later: int -> Tables) returns (groups: map<int, seq<int>>)
    ensures groups.Keys == services.services.Keys
    ensures forall id :: id in groups ==> HoldsGroupIds(later(id), id, groups[id])
  {
    groups := map[];
    var todo := services.services.Keys;
    while todo != {}
      invariant todo <= services.services.Keys && groups.Keys == services.services.Keys - todo
      invariant forall id :: id in groups ==> HoldsGroupIds(later(id), id, groups[id])
    {
      var id := Pick(todo);
      var list := SelectServiceGroupIds(later(id), id);
      groups := groups[id := list];
      todo := todo - {id};
    }
  }

  method IndexRules(t: Tables) returns (rules: seq<RuleSnapshot>)
    ensures IsRuleList(t, rules)
  {
    rules := [];
    var todo := t.rules.Keys;
    while todo != {}
      invariant todo <= t.rules.Keys
      invariant forall id :: id in t.rules && id !in todo ==> RuleSnap(t, id) in rules
      invariant forall i ::
        0 <= i < |rules| ==> rules[i].id in t.rules && rules[i].id !in todo && rules[i] == RuleSnap(t, rules[i].id)
      invariant forall i, j :: 0 <= i < j < |rules| ==> rules[i].id != rules[j].id
    {
      var id := Pick(todo);
      rules := rules + [RuleSnap(t, id)];
      todo := todo - {id};
    }
  }

  /** `Build`. Whatever commits fall between its reads, every part of the index is what its query
      saw and the parts that came from one query agree; when no commit does, the whole index is the
      denormalisation of the committed state. */
  method Build(r: Reads) returns (idx: Index)
    requires SoundReads(r)
    ensures BuiltFrom(idx, r)
  {
    var peers := IndexUsers(r.users);
    var vips := IndexServices(r.services, r.ports);
    var groups := IndexGroups(r.userGroups, r.members);
    var serviceGroups := IndexServiceGroups(r.services, r.serviceGroups);
    var rules := IndexRules(r.rules);
    idx := Index(peers.byIp, peers.byId, vips.byVip, vips.byId, groups.byUser, serviceGroups, groups.groups, rules);
  }
}
