/** What each store operation does to the committed tables, as guards and an effect, and the
    invariants every run of operations keeps. The methods of `StoreModel.Store`, which work row by
    row inside a transaction, are proved against these functions. */
module StoreSpec {
  import opened Wrappers
  import opened Keys
  import opened Schema
  import Origin

  datatype Error = NotFound | NameTaken | IpInUse | InvalidInput | ConstraintFailed
  datatype Commit = Commit(db: Tables, id: int)
  type Outcome = Result<Commit, Error>

  datatype Namespace = PrincipalSpace | ObjectSpace

  datatype UserInput = UserInput(name: string, email: string, publicKey: KeyText, privateKey: KeyText,
                                 presharedKey: KeyText, ip: string, endpoint: string)
  datatype ServiceInput = ServiceInput(name: string, hostname: string, origin: Origin.Spec, ip: string,
                                       description: string, ports: seq<PortSpec>)
  /** None leaves a column alone. */
  datatype ServiceUpdate = ServiceUpdate(name: Option<string>, hostname: Option<string>, origin: Option<Origin.Spec>,
                                         ip: Option<string>, description: Option<string>, ports: Option<seq<PortSpec>>)

  datatype PrincipalOp =
    | CreateUser(user: UserInput)
    | UpdateUser(id: int, name: Option<string>, email: Option<string>, endpoint: Option<string>)
    | DeleteUser(id: int)
    | CreateUserGroup(groupName: string, lanMode: bool)
    | UpdateUserGroup(id: int, name: Option<string>, lan: Option<bool>)
    | DeleteUserGroup(id: int)
    | AddUserToGroup(group: int, member: int)
    | RemoveUserFromGroup(group: int, member: int)

  datatype ObjectOp =
    | CreateService(service: ServiceInput)
    | UpdateService(id: int, update: ServiceUpdate)
    | DeleteService(id: int)
    | CreateServiceGroup(groupName: string)
    | UpdateServiceGroup(id: int, name: Option<string>)
    | DeleteServiceGroup(id: int)
    | AddServiceToGroup(group: int, member: int)
    | RemoveServiceFromGroup(group: int, member: int)

  datatype PolicyOp =
    | CreatePolicy(subject: Ref, target: Ref, action: Action)
    | DeletePolicy(id: int)

  datatype Op = Principals(principal: PrincipalOp) | Objects(obj: ObjectOp) | Policies(policy: PolicyOp)

  // ----- guards ---------------------------------------------------------------

  /** No row of either table of the name space bears the name, but for the row being renamed:
      `first` in the first table, `second` in the second, 0 for none. */
  ghost predicate NameFree(t: Tables, ns: Namespace, name: string, first: int, second: int) {
    match ns
    case PrincipalSpace =>
      && (forall a :: a in t.users && t.users[a].name == name ==> a == first)
      && (forall a :: a in t.userGroups && t.userGroups[a].name == name ==> a == second)
    case ObjectSpace =>
      && (forall a :: a in t.services && t.services[a].name == name ==> a == first)
      && (forall a :: a in t.serviceGroups && t.serviceGroups[a].name == name ==> a == second)
  }

  ghost predicate IpFree(t: Tables, ip: string, exceptService: int) {
    && (forall a :: a in t.users ==> t.users[a].ip != ip)
    && (forall a :: a in t.services && t.services[a].ip == ip ==> a == exceptService)
  }

  ghost predicate HostnameFree(t: Tables, hostname: string, except: int) {
    forall a :: a in t.services && t.services[a].hostname == hostname ==> a == except
  }

  /** The error of the first port that cannot be inserted: out of range, or already there. */
  ghost function PortsError(ports: seq<PortSpec>): (e: Option<Error>)
    ensures e.None? ==> forall p :: p in ports ==> ValidPort(p)
  {
    if ports == [] then None else
    var init, last := ports[..|ports| - 1], ports[|ports| - 1];
    match PortsError(init)
    case Some(e) => Some(e)
    case None =>
      if !ValidPort(last) then Some(InvalidInput)
      else if last in init then Some(ConstraintFailed)
      else
        assert ports == init + [last];
        None
  }

  // ----- effects --------------------------------------------------------------

  ghost predicate Touches(r: Rule, end: Ref) { r.subject == end || r.target == end }

  ghost function WithoutRulesOn(t: Tables, end: Ref): map<int, Rule> {
    map r | r in t.rules && !Touches(t.rules[r], end) :: t.rules[r]
  }

  ghost function WithPorts(rows: set<PortRow>, service: int, ports: seq<PortSpec>): set<PortRow> {
    (set r | r in rows && r.service != service) + (set p | p in ports :: PortRow(service, p))
  }

  /** ON DELETE CASCADE of a member row and of a group row. */
  function WithoutMember(members: set<Member>, id: int): set<Member> { set m | m in members && m.id != id }

  function WithoutGroup(members: set<Member>, group: int): set<Member> { set m | m in members && m.group != group }

  ghost function FindRule(t: Tables, subject: Ref, target: Ref): (r: Option<int>)
    ensures r.Some? ==> r.value in t.rules && t.rules[r.value].subject == subject && t.rules[r.value].target == target
    ensures r.None? ==> forall a :: a in t.rules ==> t.rules[a].subject != subject || t.rules[a].target != target
  {
    if a :| a in t.rules && t.rules[a].subject == subject && t.rules[a].target == target then Some(a) else None
  }

  // ----- users ----------------------------------------------------------------

  ghost function CreateUserOutcome(t: Tables, u: UserInput): Outcome {
    if u.name == "" || u.publicKey.NoKey? || u.privateKey.NoKey? || u.presharedKey.NoKey? || u.ip == ""
      then Failure(InvalidInput)
    else if !NameFree(t, PrincipalSpace, u.name, 0, 0) then Failure(NameTaken)
    else if !IpFree(t, u.ip, 0) then Failure(IpInUse)
    else
      var id := t.lastUser + 1;
      var row := User(u.name, u.email, u.publicKey, u.privateKey, u.presharedKey, u.ip, u.endpoint);
      Success(Commit(t.(users := t.users[id := row], lastUser := id), id))
  }

  ghost function UpdateUserOutcome(t: Tables, id: int, name: Option<string>, email: Option<string>,
                                   endpoint: Option<string>): Outcome {
    if id !in t.users then Failure(NotFound) else
    var cur := t.users[id];
    if name.Some? && name.value != cur.name && !NameFree(t, PrincipalSpace, name.value, id, 0) then Failure(NameTaken)
    else
      var row := cur.(name := name.GetOr(cur.name), email := email.GetOr(cur.email),
                      endpoint := endpoint.GetOr(cur.endpoint));
      Success(Commit(t.(users := t.users[id := row]), id))
  }

  ghost function DeleteUserOutcome(t: Tables, id: int): Outcome {
    if id !in t.users then Failure(NotFound) else
    Success(Commit(t.(users := t.users - {id},
                      userMembers := WithoutMember(t.userMembers, id),
                      rules := WithoutRulesOn(t, Ref(UserType, id))), id))
  }

  // ----- user groups ----------------------------------------------------------

  ghost function CreateUserGroupOutcome(t: Tables, name: string, lanMode: bool): Outcome {
    if name == "" then Failure(InvalidInput)
    else if !NameFree(t, PrincipalSpace, name, 0, 0) then Failure(NameTaken)
    else
      var id := t.lastUserGroup + 1;
      Success(Commit(t.(userGroups := t.userGroups[id := UserGroup(name, lanMode)], lastUserGroup := id), id))
  }

  ghost function UpdateUserGroupOutcome(t: Tables, id: int, name: Option<string>, lan: Option<bool>): Outcome {
    if id !in t.userGroups then Failure(NotFound) else
    var cur := t.userGroups[id];
    if name.Some? && name.value != cur.name && !NameFree(t, PrincipalSpace, name.value, 0, id) then Failure(NameTaken)
    else
      var row := UserGroup(name.GetOr(cur.name), lan.GetOr(cur.lanMode));
      Success(Commit(t.(userGroups := t.userGroups[id := row]), id))
  }

  ghost function DeleteUserGroupOutcome(t: Tables, id: int): Outcome {
    if id !in t.userGroups then Failure(NotFound) else
    Success(Commit(t.(userGroups := t.userGroups - {id},
                      userMembers := WithoutGroup(t.userMembers, id),
                      rules := WithoutRulesOn(t, Ref(UserGroupType, id))), id))
  }

  ghost function AddUserToGroupOutcome(t: Tables, group: int, member: int): Outcome {
    if group !in t.userGroups || member !in t.users then Failure(NotFound) else
    Success(Commit(t.(userMembers := t.userMembers + {Member(group, member)}), group))
  }

  // ----- services -------------------------------------------------------------

  ghost function CreateServiceOutcome(parse: Origin.Parser, t: Tables, s: ServiceInput): Outcome {
    if s.name == "" || s.hostname == "" || s.ip == "" then Failure(InvalidInput)
    else match Origin.Validate(parse, s.origin)
      case None => Failure(InvalidInput)
      case Some(spec) => NewServiceOutcome(t, s, spec)
  }

  ghost function NewServiceOutcome(t: Tables, s: ServiceInput, spec: Origin.Spec): Outcome {
    if !NameFree(t, ObjectSpace, s.name, 0, 0) then Failure(NameTaken)
    else if !IpFree(t, s.ip, 0) then Failure(IpInUse)
    else if !HostnameFree(t, s.hostname, 0) then Failure(NameTaken)
    else match PortsError(s.ports)
      case Some(e) => Failure(e)
      case None => Success(Commit(InsertService(t, s, spec), t.lastService + 1))
  }

  ghost function InsertService(t: Tables, s: ServiceInput, spec: Origin.Spec): Tables {
    var id := t.lastService + 1;
    var row := Service(s.name, s.hostname, spec, s.ip, s.description);
    t.(services := t.services[id := row], ports := WithPorts(t.ports, id, s.ports), lastService := id)
  }

  ghost function UpdateServiceOutcome(parse: Origin.Parser, t: Tables, id: int, u: ServiceUpdate): Outcome {
    if id !in t.services then Failure(NotFound) else
    var cur := t.services[id];
    if u.name.Some? && u.name.value != cur.name && !NameFree(t, ObjectSpace, u.name.value, id, 0)
      then Failure(NameTaken)
    else if u.hostname.Some? && u.hostname.value != cur.hostname && !HostnameFree(t, u.hostname.value, id)
      then Failure(NameTaken)
    else if u.origin.Some? && Origin.Validate(parse, u.origin.value).None? then Failure(InvalidInput)
    else if u.ip.Some? && u.ip.value != cur.ip && !IpFree(t, u.ip.value, id) then Failure(IpInUse)
    else if u.ports.Some? && PortsError(u.ports.value).Some? then Failure(PortsError(u.ports.value).value)
    else
      var spec := if u.origin.Some? then Origin.Validate(parse, u.origin.value).value else cur.origin;
      var row := Service(u.name.GetOr(cur.name), u.hostname.GetOr(cur.hostname), spec, u.ip.GetOr(cur.ip),
        u.description.GetOr(cur.description));
      var ports := if u.ports.Some? then WithPorts(t.ports, id, u.ports.value) else t.ports;
      Success(Commit(t.(services := t.services[id := row], ports := ports), id))
  }

  ghost function DeleteServiceOutcome(t: Tables, id: int): Outcome {
    if id !in t.services then Failure(NotFound) else
    Success(Commit(t.(services := t.services - {id},
                      ports := WithPorts(t.ports, id, []),
                      serviceMembers := WithoutMember(t.serviceMembers, id),
                      rules := WithoutRulesOn(t, Ref(ServiceType, id))), id))
  }

  // ----- service groups -------------------------------------------------------

  ghost function CreateServiceGroupOutcome(t: Tables, name: string): Outcome {
    if name == "" then Failure(InvalidInput)
    else if !NameFree(t, ObjectSpace, name, 0, 0) then Failure(NameTaken)
    else
      var id := t.lastServiceGroup + 1;
      Success(Commit(t.(serviceGroups := t.serviceGroups[id := ServiceGroup(name)], lastServiceGroup := id), id))
  }

  ghost function UpdateServiceGroupOutcome(t: Tables, id: int, name: Option<string>): Outcome {
    if id !in t.serviceGroups then Failure(NotFound) else
    var cur := t.serviceGroups[id];
    if name.Some? && name.value != cur.name && !NameFree(t, ObjectSpace, name.value, 0, id) then Failure(NameTaken)
    else Success(Commit(t.(serviceGroups := t.serviceGroups[id := ServiceGroup(name.GetOr(cur.name))]), id))
  }

  ghost function DeleteServiceGroupOutcome(t: Tables, id: int): Outcome {
    if id !in t.serviceGroups then Failure(NotFound) else
    Success(Commit(t.(serviceGroups := t.serviceGroups - {id},
                      serviceMembers := WithoutGroup(t.serviceMembers, id),
                      rules := WithoutRulesOn(t, Ref(ServiceGroupType, id))), id))
  }

  ghost function AddServiceToGroupOutcome(t: Tables, group: int, member: int): Outcome {
    if group !in t.serviceGroups || member !in t.services then Failure(NotFound) else
    Success(Commit(t.(serviceMembers := t.serviceMembers + {Member(group, member)}), group))
  }

  // ----- policies -------------------------------------------------------------

  /** Re-adding an existing pair keeps its row id. */
  ghost function CreatePolicyOutcome(t: Tables, subject: Ref, target: Ref, action: Action): Outcome {
    if !ValidSubject(subject.typ) || !ValidTarget(target.typ) || !ValidAction(action) then Failure(InvalidInput)
    else if !Exists(t, subject) || !Exists(t, target) then Failure(NotFound)
    else
      var id := RuleId(t, subject, target);
      Success(Commit(StoreRule(t, id, Rule(subject, target, action)), id))
  }

  ghost function RuleId(t: Tables, subject: Ref, target: Ref): int {
    FindRule(t, subject, target).GetOr(t.lastRule + 1)
  }

  ghost function StoreRule(t: Tables, id: int, row: Rule): Tables {
    t.(rules := t.rules[id := row], lastRule := if id > t.lastRule then id else t.lastRule)
  }

  ghost function DeletePolicyOutcome(t: Tables, id: int): Outcome {
    if id !in t.rules then Failure(NotFound)
    else Success(Commit(t.(rules := t.rules - {id}), id))
  }

  // ----- one step and runs ----------------------------------------------------

  ghost function PrincipalOutcome(t: Tables, op: PrincipalOp): Outcome {
    match op
    case CreateUser(u) => CreateUserOutcome(t, u)
    case UpdateUser(id, name, email, endpoint) => UpdateUserOutcome(t, id, name, email, endpoint)
    case DeleteUser(id) => DeleteUserOutcome(t, id)
    case CreateUserGroup(name, lanMode) => CreateUserGroupOutcome(t, name, lanMode)
    case UpdateUserGroup(id, name, lan) => UpdateUserGroupOutcome(t, id, name, lan)
    case DeleteUserGroup(id) => DeleteUserGroupOutcome(t, id)
    case AddUserToGroup(g, m) => AddUserToGroupOutcome(t, g, m)
    case RemoveUserFromGroup(g, m) => Success(Commit(t.(userMembers := t.userMembers - {Member(g, m)}), g))
  }

  ghost function ObjectOutcome(parse: Origin.Parser, t: Tables, op: ObjectOp): Outcome {
    match op
    case CreateService(s) => CreateServiceOutcome(parse, t, s)
    case UpdateService(id, u) => UpdateServiceOutcome(parse, t, id, u)
    case DeleteService(id) => DeleteServiceOutcome(t, id)
    case CreateServiceGroup(name) => CreateServiceGroupOutcome(t, name)
    case UpdateServiceGroup(id, name) => UpdateServiceGroupOutcome(t, id, name)
    case DeleteServiceGroup(id) => DeleteServiceGroupOutcome(t, id)
    case AddServiceToGroup(g, m) => AddServiceToGroupOutcome(t, g, m)
    case RemoveServiceFromGroup(g, m) => Success(Commit(t.(serviceMembers := t.serviceMembers - {Member(g, m)}), g))
  }

  ghost function PolicyOutcome(t: Tables, op: PolicyOp): Outcome {
    match op
    case CreatePolicy(s, o, a) => CreatePolicyOutcome(t, s, o, a)
    case DeletePolicy(id) => DeletePolicyOutcome(t, id)
  }

  ghost function OutcomeOf(parse: Origin.Parser, t: Tables, op: Op): Outcome {
    match op
    case Principals(p) => PrincipalOutcome(t, p)
    case Objects(o) => ObjectOutcome(parse, t, o)
    case Policies(p) => PolicyOutcome(t, p)
  }

  /** A failing operation leaves every table as it was. */
  ghost function After(parse: Origin.Parser, t: Tables, op: Op): Tables {
    match OutcomeOf(parse, t, op)
    case Success(c) => c.db
    case Failure(_) => t
  }

  ghost function Run(parse: Origin.Parser, t: Tables, ops: seq<Op>): Tables
    decreases |ops|
  {
    if ops == [] then t else Run(parse, After(parse, t, ops[0]), ops[1..])
  }

  // ----- every step keeps the invariant ---------------------------------------

  lemma PutUser(users: map<int, User>, groups: map<int, UserGroup>, services: map<int, Service>, id: int, row: User)
    requires PrincipalNamesUnique(users, groups) && AddressesUnique(users, services)
    requires forall a :: a in users && a != id ==> users[a].name != row.name && users[a].ip != row.ip
    requires forall a :: a in groups ==> groups[a].name != row.name
    requires forall a :: a in services ==> services[a].ip != row.ip
    ensures PrincipalNamesUnique(users[id := row], groups) && AddressesUnique(users[id := row], services)
  {
  }

  lemma PutUserGroup(users: map<int, User>, groups: map<int, UserGroup>, id: int, row: UserGroup)
    requires PrincipalNamesUnique(users, groups)
    requires forall a :: a in users ==> users[a].name != row.name
    requires forall a :: a in groups && a != id ==> groups[a].name != row.name
    ensures PrincipalNamesUnique(users, groups[id := row])
  {
  }

  lemma PutService(users: map<int, User>, services: map<int, Service>, groups: map<int, ServiceGroup>, id: int,
                   row: Service)
    requires ObjectNamesUnique(services, groups) && AddressesUnique(users, services) && HostnamesUnique(services)
    requires forall a :: a in services && a != id ==>
      services[a].name != row.name && services[a].ip != row.ip && services[a].hostname != row.hostname
    requires forall a :: a in groups ==> groups[a].name != row.name
    requires forall a :: a in users ==> users[a].ip != row.ip
    ensures ObjectNamesUnique(services[id := row], groups)
    ensures AddressesUnique(users, services[id := row]) && HostnamesUnique(services[id := row])
  {
  }

  lemma PutServiceGroup(services: map<int, Service>, groups: map<int, ServiceGroup>, id: int, row: ServiceGroup)
    requires ObjectNamesUnique(services, groups)
    requires forall a :: a in services ==> services[a].name != row.name
    requires forall a :: a in groups && a != id ==> groups[a].name != row.name
    ensures ObjectNamesUnique(services, groups[id := row])
  {
  }

  /** Rules keep their ends when no entity goes away but `gone`, whose rules went with it. */
  lemma RuleEndsKept(t: Tables, t': Tables, gone: Ref)
    requires RuleEndsExist(t)
    requires forall a :: a in t'.rules ==> a in t.rules && t'.rules[a] == t.rules[a] && !Touches(t.rules[a], gone)
    requires forall e: Ref :: Exists(t, e) && e != gone ==> Exists(t', e)
    ensures RuleEndsExist(t')
  {
  }

  lemma RuleEndsGrow(t: Tables, t': Tables)
    requires RuleEndsExist(t) && t'.rules == t.rules
    requires t.users.Keys <= t'.users.Keys && t.userGroups.Keys <= t'.userGroups.Keys
    requires t.services.Keys <= t'.services.Keys && t.serviceGroups.Keys <= t'.serviceGroups.Keys
    ensures RuleEndsExist(t')
  {
  }

  lemma WithPortsSound(t: Tables, service: int, ports: seq<PortSpec>, services: set<int>)
    requires PortsSound(t.ports, t.services.Keys) && t.services.Keys <= services
    requires PortsError(ports).None? && (service in services || ports == [])
    ensures PortsSound(WithPorts(t.ports, service, ports), services)
  {
  }

  lemma StoreRuleEnds(t: Tables, id: int, row: Rule)
    requires RuleEndsExist(t) && ValidRule(row) && Exists(t, row.subject) && Exists(t, row.target)
    ensures RuleEndsExist(StoreRule(t, id, row))
  {
    var t' := StoreRule(t, id, row);
    assert forall e: Ref :: Exists(t', e) == Exists(t, e);
  }

  lemma StoreRuleUnique(rules: map<int, Rule>, id: int, row: Rule)
    requires RulesUnique(rules) && forall a :: a in rules && a != id ==> !SameEnds(rules[a], row)
    ensures RulesUnique(rules[id := row])
  {
  }

  lemma StoreRuleKeeps(t: Tables, id: int, row: Rule)
    requires Consistent(t) && 1 <= id <= t.lastRule + 1
    requires ValidRule(row) && Exists(t, row.subject) && Exists(t, row.target)
    requires forall a :: a in t.rules && a != id ==> !SameEnds(t.rules[a], row)
    ensures Consistent(StoreRule(t, id, row))
  {
    StoreRuleEnds(t, id, row);
    StoreRuleUnique(t.rules, id, row);
  }

  lemma UserMembersKeep(t: Tables, members: set<Member>)
    requires Consistent(t) && MembersExist(members, t.userGroups.Keys, t.users.Keys)
    ensures Consistent(t.(userMembers := members))
  {
  }

  lemma ServiceMembersKeep(t: Tables, members: set<Member>)
    requires Consistent(t) && MembersExist(members, t.serviceGroups.Keys, t.services.Keys)
    ensures Consistent(t.(serviceMembers := members))
  {
  }

  lemma {:induction false} PrincipalKeeps(t: Tables, op: PrincipalOp)
    requires Consistent(t) && PrincipalOutcome(t, op).Success?
    ensures Consistent(PrincipalOutcome(t, op).value.db)
  {
    match op {
      case CreateUser(u) => CreateUserKeeps(t, u);
      case UpdateUser(id, name, email, endpoint) => UpdateUserKeeps(t, id, name, email, endpoint);
      case DeleteUser(id) => DeleteUserKeeps(t, id);
      case CreateUserGroup(name, lanMode) => CreateUserGroupKeeps(t, name, lanMode);
      case UpdateUserGroup(id, name, lan) => UpdateUserGroupKeeps(t, id, name, lan);
      case DeleteUserGroup(id) => DeleteUserGroupKeeps(t, id);
      case AddUserToGroup(g, m) => UserMembersKeep(t, t.userMembers + {Member(g, m)});
      case RemoveUserFromGroup(g, m) => UserMembersKeep(t, t.userMembers - {Member(g, m)});
    }
  }

  lemma {:induction false} ObjectKeeps(parse: Origin.Parser, t: Tables, op: ObjectOp)
    requires Consistent(t) && ObjectOutcome(parse, t, op).Success?
    ensures Consistent(ObjectOutcome(parse, t, op).value.db)
  {
    match op {
      case CreateService(s) => InsertServiceKeeps(t, s, Origin.Validate(parse, s.origin).value);
      case UpdateService(id, u) => UpdateServiceKeeps(parse, t, id, u);
      case DeleteService(id) => DeleteServiceKeeps(t, id);
      case CreateServiceGroup(name) => CreateServiceGroupKeeps(t, name);
      case UpdateServiceGroup(id, name) => UpdateServiceGroupKeeps(t, id, name);
      case DeleteServiceGroup(id) => DeleteServiceGroupKeeps(t, id);
      case AddServiceToGroup(g, m) => ServiceMembersKeep(t, t.serviceMembers + {Member(g, m)});
      case RemoveServiceFromGroup(g, m) => ServiceMembersKeep(t, t.serviceMembers - {Member(g, m)});
    }
  }

  lemma NewUserNames(t: Tables, row: User)
    requires PrincipalNamesUnique(t.users, t.userGroups) && AddressesUnique(t.users, t.services)
    requires IdsBounded(t.users.Keys, t.lastUser) && IdsBounded(t.userGroups.Keys, t.lastUserGroup)
    requires IdsBounded(t.services.Keys, t.lastService)
    requires NameFree(t, PrincipalSpace, row.name, 0, 0) && IpFree(t, row.ip, 0)
    ensures PrincipalNamesUnique(t.users[t.lastUser + 1 := row], t.userGroups)
    ensures AddressesUnique(t.users[t.lastUser + 1 := row], t.services)
  {
    PutUser(t.users, t.userGroups, t.services, t.lastUser + 1, row);
  }

  lemma InsertUserKeeps(t: Tables, row: User)
    requires Consistent(t) && NameFree(t, PrincipalSpace, row.name, 0, 0) && IpFree(t, row.ip, 0)
    ensures Consistent(t.(users := t.users[t.lastUser + 1 := row], lastUser := t.lastUser + 1))
  {
    NewUserNames(t, row);
    RuleEndsGrow(t, t.(users := t.users[t.lastUser + 1 := row], lastUser := t.lastUser + 1));
  }

  lemma CreateUserKeeps(t: Tables, u: UserInput)
    requires Consistent(t) && CreateUserOutcome(t, u).Success?
    ensures Consistent(CreateUserOutcome(t, u).value.db)
  {
    InsertUserKeeps(t, CreateUserOutcome(t, u).value.db.users[t.lastUser + 1]);
  }

  lemma UpdateUserKeeps(t: Tables, id: int, name: Option<string>, email: Option<string>, endpoint: Option<string>)
    requires Consistent(t) && UpdateUserOutcome(t, id, name, email, endpoint).Success?
    ensures Consistent(UpdateUserOutcome(t, id, name, email, endpoint).value.db)
  {
    var t' := UpdateUserOutcome(t, id, name, email, endpoint).value.db;
    PutUser(t.users, t.userGroups, t.services, id, t'.users[id]);
    RuleEndsGrow(t, t');
  }

  lemma DeleteUserKeeps(t: Tables, id: int)
    requires Consistent(t) && DeleteUserOutcome(t, id).Success?
    ensures Consistent(DeleteUserOutcome(t, id).value.db)
  {
    RuleEndsKept(t, DeleteUserOutcome(t, id).value.db, Ref(UserType, id));
  }

  lemma NewUserGroupNames(t: Tables, row: UserGroup)
    requires PrincipalNamesUnique(t.users, t.userGroups)
    requires IdsBounded(t.users.Keys, t.lastUser) && IdsBounded(t.userGroups.Keys, t.lastUserGroup)
    requires NameFree(t, PrincipalSpace, row.name, 0, 0)
    ensures PrincipalNamesUnique(t.users, t.userGroups[t.lastUserGroup + 1 := row])
  {
    PutUserGroup(t.users, t.userGroups, t.lastUserGroup + 1, row);
  }

  lemma CreateUserGroupKeeps(t: Tables, name: string, lanMode: bool)
    requires Consistent(t) && CreateUserGroupOutcome(t, name, lanMode).Success?
    ensures Consistent(CreateUserGroupOutcome(t, name, lanMode).value.db)
  {
    NewUserGroupNames(t, UserGroup(name, lanMode));
    RuleEndsGrow(t, CreateUserGroupOutcome(t, name, lanMode).value.db);
  }

  lemma UpdateUserGroupKeeps(t: Tables, id: int, name: Option<string>, lan: Option<bool>)
    requires Consistent(t) && UpdateUserGroupOutcome(t, id, name, lan).Success?
    ensures Consistent(UpdateUserGroupOutcome(t, id, name, lan).value.db)
  {
    var t' := UpdateUserGroupOutcome(t, id, name, lan).value.db;
    PutUserGroup(t.users, t.userGroups, id, t'.userGroups[id]);
    RuleEndsGrow(t, t');
  }

  lemma DeleteUserGroupKeeps(t: Tables, id: int)
    requires Consistent(t) && DeleteUserGroupOutcome(t, id).Success?
    ensures Consistent(DeleteUserGroupOutcome(t, id).value.db)
  {
    RuleEndsKept(t, DeleteUserGroupOutcome(t, id).value.db, Ref(UserGroupType, id));
  }

  lemma InsertServiceKeeps(t: Tables, s: ServiceInput, spec: Origin.Spec)
    requires Consistent(t) && PortsError(s.ports).None?
    requires NameFree(t, ObjectSpace, s.name, 0, 0) && IpFree(t, s.ip, 0) && HostnameFree(t, s.hostname, 0)
    ensures Consistent(InsertService(t, s, spec))
  {
    InsertServiceNames(t, s, spec);
    InsertServicePorts(t, s, spec);
    RuleEndsGrow(t, InsertService(t, s, spec));
  }

  lemma InsertServiceNames(t: Tables, s: ServiceInput, spec: Origin.Spec)
    requires NamesAndAddressesUnique(t) && IdsBounded(t.services.Keys, t.lastService)
      && IdsBounded(t.serviceGroups.Keys, t.lastServiceGroup)
    requires NameFree(t, ObjectSpace, s.name, 0, 0) && IpFree(t, s.ip, 0) && HostnameFree(t, s.hostname, 0)
    ensures NamesAndAddressesUnique(InsertService(t, s, spec))
  {
    var t' := InsertService(t, s, spec);
    PutService(t.users, t.services, t.serviceGroups, t.lastService + 1, t'.services[t.lastService + 1]);
  }

  lemma InsertServicePorts(t: Tables, s: ServiceInput, spec: Origin.Spec)
    requires ReferencesSound(t) && PortsError(s.ports).None?
    ensures ReferencesSound(InsertService(t, s, spec))
  {
    WithPortsSound(t, t.lastService + 1, s.ports, InsertService(t, s, spec).services.Keys);
  }

  lemma UpdateServiceKeeps(parse: Origin.Parser, t: Tables, id: int, u: ServiceUpdate)
    requires Consistent(t) && UpdateServiceOutcome(parse, t, id, u).Success?
    ensures Consistent(UpdateServiceOutcome(parse, t, id, u).value.db)
  {
    var t' := UpdateServiceOutcome(parse, t, id, u).value.db;
    PutService(t.users, t.services, t.serviceGroups, id, t'.services[id]);
    if u.ports.Some? {
      WithPortsSound(t, id, u.ports.value, t'.services.Keys);
    }
    RuleEndsGrow(t, t');
  }

  lemma DeleteServiceKeeps(t: Tables, id: int)
    requires Consistent(t) && DeleteServiceOutcome(t, id).Success?
    ensures Consistent(DeleteServiceOutcome(t, id).value.db)
  {
    RuleEndsKept(t, DeleteServiceOutcome(t, id).value.db, Ref(ServiceType, id));
  }

  lemma NewServiceGroupNames(t: Tables, row: ServiceGroup)
    requires ObjectNamesUnique(t.services, t.serviceGroups)
    requires IdsBounded(t.services.Keys, t.lastService) && IdsBounded(t.serviceGroups.Keys, t.lastServiceGroup)
    requires NameFree(t, ObjectSpace, row.name, 0, 0)
    ensures ObjectNamesUnique(t.services, t.serviceGroups[t.lastServiceGroup + 1 := row])
  {
    PutServiceGroup(t.services, t.serviceGroups, t.lastServiceGroup + 1, row);
  }

  lemma CreateServiceGroupKeeps(t: Tables, name: string)
    requires Consistent(t) && CreateServiceGroupOutcome(t, name).Success?
    ensures Consistent(CreateServiceGroupOutcome(t, name).value.db)
  {
    NewServiceGroupNames(t, ServiceGroup(name));
    RuleEndsGrow(t, CreateServiceGroupOutcome(t, name).value.db);
  }

  lemma UpdateServiceGroupKeeps(t: Tables, id: int, name: Option<string>)
    requires Consistent(t) && UpdateServiceGroupOutcome(t, id, name).Success?
    ensures Consistent(UpdateServiceGroupOutcome(t, id, name).value.db)
  {
    var t' := UpdateServiceGroupOutcome(t, id, name).value.db;
    PutServiceGroup(t.services, t.serviceGroups, id, t'.serviceGroups[id]);
    RuleEndsGrow(t, t');
  }

  lemma DeleteServiceGroupKeeps(t: Tables, id: int)
    requires Consistent(t) && DeleteServiceGroupOutcome(t, id).Success?
    ensures Consistent(DeleteServiceGroupOutcome(t, id).value.db)
  {
    RuleEndsKept(t, DeleteServiceGroupOutcome(t, id).value.db, Ref(ServiceGroupType, id));
  }

  lemma CreatePolicyKeeps(t: Tables, subject: Ref, target: Ref, action: Action)
    requires Consistent(t) && CreatePolicyOutcome(t, subject, target, action).Success?
    ensures Consistent(CreatePolicyOutcome(t, subject, target, action).value.db)
  {
    var id := RuleId(t, subject, target);
    if id in t.rules {
      assert forall a :: a in t.rules && SameEnds(t.rules[a], t.rules[id]) ==> a == id;
    }
    StoreRuleKeeps(t, id, Rule(subject, target, action));
  }

  lemma PolicyKeeps(t: Tables, op: PolicyOp)
    requires Consistent(t) && PolicyOutcome(t, op).Success?
    ensures Consistent(PolicyOutcome(t, op).value.db)
  {
    match op {
      case CreatePolicy(subject, target, action) => CreatePolicyKeeps(t, subject, target, action);
      case DeletePolicy(_) =>
    }
  }

  /** Every operation, successful or failing, keeps the store invariant. */
  lemma ConsistentAfter(parse: Origin.Parser, t: Tables, op: Op)
    requires Consistent(t)
    ensures Consistent(After(parse, t, op))
  {
    if OutcomeOf(parse, t, op).Success? {
      match op {
        case Principals(p) => PrincipalKeeps(t, p);
        case Objects(o) => ObjectKeeps(parse, t, o);
        case Policies(p) => PolicyKeeps(t, p);
      }
    }
  }

  /** So every run from the empty store ends in a consistent one. */
  lemma {:induction false} RunConsistent(parse: Origin.Parser, t: Tables, ops: seq<Op>)
    requires Consistent(t)
    ensures Consistent(Run(parse, t, ops))
    decreases |ops|
  {
    if ops == [] {
    } else {
      ConsistentAfter(parse, t, ops[0]);
      RunConsistent(parse, After(parse, t, ops[0]), ops[1..]);
    }
  }

  // ----- committed ids are never reused ---------------------------------------

  datatype Table = Users | UserGroups | Services | ServiceGroups | Rules

  function Ids(t: Tables, table: Table): set<int> {
    match table
    case Users => t.users.Keys
    case UserGroups => t.userGroups.Keys
    case Services => t.services.Keys
    case ServiceGroups => t.serviceGroups.Keys
    case Rules => t.rules.Keys
  }

  function Last(t: Tables, table: Table): nat {
    match table
    case Users => t.lastUser
    case UserGroups => t.lastUserGroup
    case Services => t.lastService
    case ServiceGroups => t.lastServiceGroup
    case Rules => t.lastRule
  }

  /** Rows added between two states got ids beyond every id the counter had passed. */
  ghost predicate Grows(t: Tables, t': Tables, table: Table) {
    && Last(t, table) <= Last(t', table)
    && forall id :: id in Ids(t', table) ==> id in Ids(t, table) || id > Last(t, table)
  }

  /** No user that stays got other keys or another address. */
  ghost predicate CredentialsKept(t: Tables, t': Tables) {
    forall id :: id in t.users && id in t'.users ==>
      && t'.users[id].publicKey == t.users[id].publicKey
      && t'.users[id].presharedKey == t.users[id].presharedKey
      && t'.users[id].ip == t.users[id].ip
  }

  lemma PrincipalGrows(t: Tables, op: PrincipalOp, table: Table)
    requires CountersSound(t) && PrincipalOutcome(t, op).Success?
    ensures Grows(t, PrincipalOutcome(t, op).value.db, table)
  {
    match op {
      case CreateUser(_) =>
      case CreateUserGroup(_, _) =>
      case _ =>
    }
  }

  lemma PrincipalKeepsCredentials(t: Tables, op: PrincipalOp)
    requires CountersSound(t) && PrincipalOutcome(t, op).Success?
    ensures CredentialsKept(t, PrincipalOutcome(t, op).value.db)
  {
    match op {
      case CreateUser(_) =>
      case UpdateUser(_, _, _, _) =>
      case DeleteUser(_) =>
      case _ =>
    }
  }

  lemma ObjectGrows(parse: Origin.Parser, t: Tables, op: ObjectOp, table: Table)
    requires CountersSound(t) && ObjectOutcome(parse, t, op).Success?
    ensures Grows(t, ObjectOutcome(parse, t, op).value.db, table)
  {
    match op {
      case CreateService(_) =>
      case CreateServiceGroup(_) =>
      case _ =>
    }
  }

  lemma ObjectLeavesUsers(parse: Origin.Parser, t: Tables, op: ObjectOp)
    requires ObjectOutcome(parse, t, op).Success?
    ensures ObjectOutcome(parse, t, op).value.db.users == t.users
  {
  }

  lemma PolicyGrows(t: Tables, op: PolicyOp, table: Table)
    requires Consistent(t) && PolicyOutcome(t, op).Success?
    ensures Grows(t, PolicyOutcome(t, op).value.db, table)
    ensures PolicyOutcome(t, op).value.db.users == t.users
  {
  }

  lemma StepGrows(parse: Origin.Parser, t: Tables, op: Op, table: Table)
    requires Consistent(t)
    ensures Grows(t, After(parse, t, op), table) && CredentialsKept(t, After(parse, t, op))
  {
    if OutcomeOf(parse, t, op).Success? {
      match op {
        case Principals(p) =>
          PrincipalGrows(t, p, table);
          PrincipalKeepsCredentials(t, p);
        case Objects(o) =>
          ObjectGrows(parse, t, o, table);
          ObjectLeavesUsers(parse, t, o);
        case Policies(p) => PolicyGrows(t, p, table);
      }
    }
  }

  lemma {:induction false} AbsentStaysAbsent(parse: Origin.Parser, t: Tables, ops: seq<Op>, table: Table, id: int)
    requires Consistent(t) && id <= Last(t, table) && id !in Ids(t, table)
    ensures id !in Ids(Run(parse, t, ops), table)
    decreases |ops|
  {
    if ops == [] {
    } else {
      ConsistentAfter(parse, t, ops[0]);
      StepGrows(parse, t, ops[0], table);
      AbsentStaysAbsent(parse, After(parse, t, ops[0]), ops[1..], table, id);
    }
  }

  lemma {:induction false} LastGrows(parse: Origin.Parser, t: Tables, ops: seq<Op>, table: Table)
    requires Consistent(t)
    ensures Last(t, table) <= Last(Run(parse, t, ops), table)
    decreases |ops|
  {
    if ops == [] {
    } else {
      ConsistentAfter(parse, t, ops[0]);
      StepGrows(parse, t, ops[0], table);
      LastGrows(parse, After(parse, t, ops[0]), ops[1..], table);
    }
  }

  /** A committed row id that a run deletes is not given out again by any later run. */
  lemma CommittedIdNeverReused(parse: Origin.Parser, t: Tables, gone: seq<Op>, later: seq<Op>, table: Table, id: int)
    requires Consistent(t) && id in Ids(t, table)
    requires id !in Ids(Run(parse, t, gone), table)
    ensures id !in Ids(Run(parse, Run(parse, t, gone), later), table)
  {
    RunConsistent(parse, t, gone);
    LastGrows(parse, t, gone, table);
    AbsentStaysAbsent(parse, Run(parse, t, gone), later, table, id);
  }
}
