/** The committed state of the SQLite store: one finite map or set per table of
    daemon/store/migrations/0001_initial.sql, plus the AUTOINCREMENT counters. */
module Schema {
  import opened Keys
  import Origin

  datatype EntityType = UserType | UserGroupType | ServiceType | ServiceGroupType | OtherType(text: string)
  datatype Ref = Ref(typ: EntityType, id: int)
  datatype Action = AllowAction | DenyAction | OtherAction(text: string)

  datatype User = User(name: string, email: string, publicKey: KeyText, privateKey: KeyText,
                       presharedKey: KeyText, ip: string, endpoint: string)
  datatype UserGroup = UserGroup(name: string, lanMode: bool)
  datatype Service = Service(name: string, hostname: string, origin: Origin.Spec, ip: string, description: string)
  datatype ServiceGroup = ServiceGroup(name: string)
  datatype PortSpec = PortSpec(port: int, protocol: string)
  datatype PortRow = PortRow(service: int, spec: PortSpec)
  datatype Member = Member(group: int, id: int)
  datatype Rule = Rule(subject: Ref, target: Ref, action: Action)

  datatype Tables = Tables(
    users: map<int, User>,
    userGroups: map<int, UserGroup>,
    userMembers: set<Member>,
    services: map<int, Service>,
    ports: set<PortRow>,
    serviceGroups: map<int, ServiceGroup>,
    serviceMembers: set<Member>,
    rules: map<int, Rule>,
    lastUser: nat, lastUserGroup: nat, lastService: nat, lastServiceGroup: nat, lastRule: nat)

  const EMPTY := Tables(map[], map[], {}, map[], {}, map[], {}, map[], 0, 0, 0, 0, 0)

  predicate Exists(t: Tables, r: Ref) {
    match r.typ
    case UserType => r.id in t.users
    case UserGroupType => r.id in t.userGroups
    case ServiceType => r.id in t.services
    case ServiceGroupType => r.id in t.serviceGroups
    case OtherType(_) => false
  }

  predicate ValidSubject(e: EntityType) { e.UserType? || e.UserGroupType? }
  predicate ValidTarget(e: EntityType) { !e.OtherType? }
  predicate ValidAction(a: Action) { !a.OtherAction? }
  predicate ValidPort(p: PortSpec) { (p.protocol == "tcp" || p.protocol == "udp") && 0 < p.port <= 65535 }

  /** The declared ports of one service. */
  ghost function PortsOf(t: Tables, service: int): set<PortSpec> {
    set r | r in t.ports && r.service == service :: r.spec
  }

  // ----- the store invariant --------------------------------------------------

  /** Users and user groups share one name space. */
  ghost predicate PrincipalNamesUnique(users: map<int, User>, groups: map<int, UserGroup>) {
    && (forall a, b :: a in users && b in users && users[a].name == users[b].name ==> a == b)
    && (forall a, b :: a in groups && b in groups && groups[a].name == groups[b].name ==> a == b)
    && (forall a, b :: a in users && b in groups ==> users[a].name != groups[b].name)
  }

  /** Services and service groups share the other. */
  ghost predicate ObjectNamesUnique(services: map<int, Service>, groups: map<int, ServiceGroup>) {
    && (forall a, b :: a in services && b in services && services[a].name == services[b].name ==> a == b)
    && (forall a, b :: a in groups && b in groups && groups[a].name == groups[b].name ==> a == b)
    && (forall a, b :: a in services && b in groups ==> services[a].name != groups[b].name)
  }

  /** No address is carried twice, by users or services or one of each. */
  ghost predicate AddressesUnique(users: map<int, User>, services: map<int, Service>) {
    && (forall a, b :: a in users && b in users && users[a].ip == users[b].ip ==> a == b)
    && (forall a, b :: a in services && b in services && services[a].ip == services[b].ip ==> a == b)
    && (forall a, b :: a in users && b in services ==> users[a].ip != services[b].ip)
  }

  ghost predicate HostnamesUnique(services: map<int, Service>) {
    forall a, b :: a in services && b in services && services[a].hostname == services[b].hostname ==> a == b
  }

  predicate SameEnds(a: Rule, b: Rule) { a.subject == b.subject && a.target == b.target }

  predicate ValidRule(r: Rule) { ValidSubject(r.subject.typ) && ValidTarget(r.target.typ) && ValidAction(r.action) }

  /** At most one rule per pair. */
  ghost predicate RulesUnique(rules: map<int, Rule>) {
    forall a, b :: a in rules && b in rules && SameEnds(rules[a], rules[b]) ==> a == b
  }

  /** Both ends of every rule exist. */
  ghost predicate RuleEndsExist(t: Tables) {
    forall a :: a in t.rules ==> ValidRule(t.rules[a]) && Exists(t, t.rules[a].subject) && Exists(t, t.rules[a].target)
  }

  /** Both ends of every membership exist. */
  ghost predicate MembersExist(members: set<Member>, groups: set<int>, ids: set<int>) {
    forall m :: m in members ==> m.group in groups && m.id in ids
  }

  ghost predicate PortsSound(ports: set<PortRow>, services: set<int>) {
    forall r :: r in ports ==> r.service in services && ValidPort(r.spec)
  }

  /** Row ids are positive and never beyond their counter. */
  ghost predicate IdsBounded(ids: set<int>, last: nat) {
    forall a :: a in ids ==> 1 <= a <= last
  }

  ghost predicate NamesAndAddressesUnique(t: Tables) {
    && PrincipalNamesUnique(t.users, t.userGroups) && ObjectNamesUnique(t.services, t.serviceGroups)
    && AddressesUnique(t.users, t.services) && HostnamesUnique(t.services)
  }

  ghost predicate ReferencesSound(t: Tables) {
    && MembersExist(t.userMembers, t.userGroups.Keys, t.users.Keys)
    && MembersExist(t.serviceMembers, t.serviceGroups.Keys, t.services.Keys)
    && PortsSound(t.ports, t.services.Keys)
  }

  ghost predicate CountersSound(t: Tables) {
    && IdsBounded(t.users.Keys, t.lastUser) && IdsBounded(t.userGroups.Keys, t.lastUserGroup)
    && IdsBounded(t.services.Keys, t.lastService) && IdsBounded(t.serviceGroups.Keys, t.lastServiceGroup)
    && IdsBounded(t.rules.Keys, t.lastRule)
  }

  ghost predicate Consistent(t: Tables) {
    NamesAndAddressesUnique(t) && RulesUnique(t.rules) && RuleEndsExist(t) && ReferencesSound(t) && CountersSound(t)
  }

  /** Committed states: the only ones the store ever shows. */
  type ConsistentTables = t: Tables | Consistent(t) witness EMPTY
}
