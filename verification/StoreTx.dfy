/** The bodies that daemon/store runs inside `withTx`, statement by statement, on the working state
    of one transaction. Each is proved to end as its function in `StoreSpec` says: in the specified
    tables with the specified id, or with the specified error, wherever that leaves the working state. */
module StoreTx {
  import opened Wrappers
  import opened Schema
  import opened StoreSpec
  import Origin

  ghost predicate EndsAs(o: Outcome, tx: Tables, r: Result<int, Error>) {
    match o
    case Success(c) => r == Success(c.id) && tx == c.db
    case Failure(e) => r == Failure(e)
  }

  lemma {:induction false} PortsErrorStays(ports: seq<PortSpec>, n: nat)
    requires n <= |ports| && PortsError(ports[..n]).Some?
    ensures PortsError(ports) == PortsError(ports[..n])
  {
    if n < |ports| {
      var init := ports[..|ports| - 1];
      assert init[..n] == ports[..n];
      PortsErrorStays(init, n);
    } else {
      assert ports[..n] == ports;
    }
  }

  lemma WithPortsGrows(rows: set<PortRow>, service: int, ports: seq<PortSpec>, p: PortSpec)
    ensures WithPorts(rows, service, ports + [p]) == WithPorts(rows, service, ports) + {PortRow(service, p)}
    ensures PortRow(service, p) in WithPorts(rows, service, ports) <==> p in ports
  {
  }

  function NamespaceTables(ns: Namespace): (tables: seq<Table>)
    ensures |tables| == 2
  {
    match ns
    case PrincipalSpace => [Users, UserGroups]
    case ObjectSpace => [Services, ServiceGroups]
  }

  ghost predicate NoOtherRowNamed(t: Tables, table: Table, name: string, except: int) {
    match table
    case Users => forall a :: a in t.users && t.users[a].name == name ==> a == except
    case UserGroups => forall a :: a in t.userGroups && t.userGroups[a].name == name ==> a == except
    case Services => forall a :: a in t.services && t.services[a].name == name ==> a == except
    case ServiceGroups => forall a :: a in t.serviceGroups && t.serviceGroups[a].name == name ==> a == except
    case Rules => true
  }

  // ----- checks -------------------------------------------------------------

  ghost predicate RowNamed(t: Tables, table: Table, id: int, name: string) {
    match table
    case Users => id in t.users && t.users[id].name == name
    case UserGroups => id in t.userGroups && t.userGroups[id].name == name
    case Services => id in t.services && t.services[id].name == name
    case ServiceGroups => id in t.serviceGroups && t.serviceGroups[id].name == name
    case Rules => false
  }

  method SelectByName(tx: Tables, table: Table, name: string) returns (hit: Option<int>)
    ensures hit.None? ==> forall except :: NoOtherRowNamed(tx, table, name, except)
    ensures hit.Some? ==> RowNamed(tx, table, hit.value, name)
  {
    match table {
      case Users =>
        if a :| a in tx.users && tx.users[a].name == name { return Some(a); }
      case UserGroups =>
        if a :| a in tx.userGroups && tx.userGroups[a].name == name { return Some(a); }
      case Services =>
        if a :| a in tx.services && tx.services[a].name == name { return Some(a); }
      case ServiceGroups =>
        if a :| a in tx.serviceGroups && tx.serviceGroups[a].name == name { return Some(a); }
      case Rules =>
    }
    return None;
  }

  /** Names are unique in a table, so one row that bears the name decides. */
  lemma NamedRowDecides(t: Tables, table: Table, id: int, name: string)
    requires PrincipalNamesUnique(t.users, t.userGroups) && ObjectNamesUnique(t.services, t.serviceGroups)
    requires CountersSound(t) && RowNamed(t, table, id, name)
    ensures id != 0 && forall except :: NoOtherRowNamed(t, table, name, except) <==> except == id
  {
  }

  /** The row left out of the check of one table: ids start at 1. */
  function Excluded(table: Table, excludeTable: Table, excludeId: int): int {
    if table == excludeTable then excludeId else 0
  }

  lemma FreeInBothTables(t: Tables, ns: Namespace, name: string, first: int, second: int)
    ensures NameFree(t, ns, name, first, second) <==>
      NoOtherRowNamed(t, NamespaceTables(ns)[0], name, first)
        && NoOtherRowNamed(t, NamespaceTables(ns)[1], name, second)
  {
  }

  method CheckNameAvailable(tx: Tables, ns: Namespace, name: string, excludeTable: Table, excludeId: int)
    returns (ok: bool)
    requires Consistent(tx)
    ensures var tables := NamespaceTables(ns);
      ok == NameFree(tx, ns, name, Excluded(tables[0], excludeTable, excludeId),
        Excluded(tables[1], excludeTable, excludeId))
  {
    var tables := NamespaceTables(ns);
    FreeInBothTables(tx, ns, name, Excluded(tables[0], excludeTable, excludeId),
      Excluded(tables[1], excludeTable, excludeId));
    for i := 0 to |tables|
      invariant i > 0 ==> NoOtherRowNamed(tx, tables[0], name, Excluded(tables[0], excludeTable, excludeId))
      invariant i > 1 ==> NoOtherRowNamed(tx, tables[1], name, Excluded(tables[1], excludeTable, excludeId))
    {
      var hit := SelectByName(tx, tables[i], name);
      if hit.Some? {
        NamedRowDecides(tx, tables[i], hit.value, name);
        if !(tables[i] == excludeTable && hit.value == excludeId) { return false; }
      }
    }
    return true;
  }

  method CheckIpAvailable(tx: Tables, ip: string, excludeService: int) returns (ok: bool)
    requires Consistent(tx)
    ensures ok == IpFree(tx, ip, excludeService)
  {
    if a :| a in tx.users && tx.users[a].ip == ip {
      return false;
    }
    if a :| a in tx.services && tx.services[a].ip == ip {
      return a == excludeService;
    }
    return true;
  }

  method CheckHostnameAvailable(tx: Tables, hostname: string, excludeId: int) returns (ok: bool)
    requires Consistent(tx)
    ensures ok == HostnameFree(tx, hostname, excludeId)
  {
    if a :| a in tx.services && tx.services[a].hostname == hostname {
      return a == excludeId;
    }
    return true;
  }

  // ----- shared statements ----------------------------------------------------

  /** DELETE FROM policy_rules where the subject or the object is the given row. */
  method DeleteRulesWithEnd(db: Tables, end: Ref) returns (tx: Tables)
    ensures tx == db.(rules := WithoutRulesOn(db, end))
  {
    tx := db.(rules := map r
      | r in db.rules && !(db.rules[r].subject == end || db.rules[r].target == end) :: db.rules[r]);
    forall r ensures r in tx.rules <==> r in WithoutRulesOn(db, end) {}
    assert tx.rules == WithoutRulesOn(db, end);
  }

  /** DELETE FROM policy_rules where the object is the given row: enough for services and
      service groups, which are never subjects. */
  method DeleteRulesWithTarget(db: Tables, end: Ref) returns (tx: Tables)
    requires RuleEndsExist(db) && !ValidSubject(end.typ)
    ensures tx == db.(rules := WithoutRulesOn(db, end))
  {
    tx := db.(rules := map r | r in db.rules && db.rules[r].target != end :: db.rules[r]);
    forall r | r in db.rules ensures db.rules[r].subject != end {
      assert ValidRule(db.rules[r]);
    }
    forall r ensures r in tx.rules <==> r in WithoutRulesOn(db, end) {}
    assert tx.rules == WithoutRulesOn(db, end);
  }

  // ----- users --------------------------------------------------------------

  method CreateUser(db: Tables, u: UserInput) returns (tx: Tables, r: Result<int, Error>)
    requires Consistent(db)
    ensures EndsAs(CreateUserOutcome(db, u), tx, r)
  {
    tx := db;
    if u.name == "" || u.publicKey.NoKey? || u.privateKey.NoKey? || u.presharedKey.NoKey? || u.ip == "" {
      return tx, Failure(InvalidInput);
    }
    var free := CheckNameAvailable(tx, PrincipalSpace, u.name, Rules, 0);
    if !free { return tx, Failure(NameTaken); }
    free := CheckIpAvailable(tx, u.ip, 0);
    if !free { return tx, Failure(IpInUse); }
    var id := tx.lastUser + 1;
    tx := tx.(users := tx.users[id :=
      User(u.name, u.email, u.publicKey, u.privateKey, u.presharedKey, u.ip, u.endpoint)],
              lastUser := id);
    return tx, Success(id);
  }

  method UpdateUser(db: Tables, id: int, name: Option<string>, email: Option<string>, endpoint: Option<string>)
    returns (tx: Tables, r: Result<int, Error>)
    requires Consistent(db)
    ensures EndsAs(UpdateUserOutcome(db, id, name, email, endpoint), tx, r)
  {
    tx := db;
    if id !in tx.users { return tx, Failure(NotFound); }
    var current := tx.users[id];
    if name.Some? && name.value != current.name {
      var free := CheckNameAvailable(tx, PrincipalSpace, name.value, Users, id);
      if !free { return tx, Failure(NameTaken); }
      current := current.(name := name.value);
    }
    if email.Some? { current := current.(email := email.value); }
    if endpoint.Some? { current := current.(endpoint := endpoint.value); }
    tx := tx.(users := tx.users[id := current]);
    return tx, Success(id);
  }

  method DeleteUser(db: Tables, id: int) returns (tx: Tables, r: Result<int, Error>)
    requires Consistent(db)
    ensures EndsAs(DeleteUserOutcome(db, id), tx, r)
  {
    tx := db;
    if id !in tx.users { return tx, Failure(NotFound); }
    tx := DeleteRulesWithEnd(tx, Ref(UserType, id));
    tx := tx.(users := tx.users - {id}, userMembers := set m | m in tx.userMembers && m.id != id);
    return tx, Success(id);
  }

  // ----- user groups --------------------------------------------------------

  method CreateUserGroup(db: Tables, name: string, lanMode: bool) returns (tx: Tables, r: Result<int, Error>)
    requires Consistent(db)
    ensures EndsAs(CreateUserGroupOutcome(db, name, lanMode), tx, r)
  {
    tx := db;
    if name == "" { return tx, Failure(InvalidInput); }
    var free := CheckNameAvailable(tx, PrincipalSpace, name, Rules, 0);
    if !free { return tx, Failure(NameTaken); }
    var id := tx.lastUserGroup + 1;
    tx := tx.(userGroups := tx.userGroups[id := UserGroup(name, lanMode)], lastUserGroup := id);
    return tx, Success(id);
  }

  method UpdateUserGroup(db: Tables, id: int, name: Option<string>, lan: Option<bool>)
    returns (tx: Tables, r: Result<int, Error>)
    requires Consistent(db)
    ensures EndsAs(UpdateUserGroupOutcome(db, id, name, lan), tx, r)
  {
    tx := db;
    if id !in tx.userGroups { return tx, Failure(NotFound); }
    var current := tx.userGroups[id];
    if name.Some? && name.value != current.name {
      var free := CheckNameAvailable(tx, PrincipalSpace, name.value, UserGroups, id);
      if !free { return tx, Failure(NameTaken); }
      current := current.(name := name.value);
    }
    if lan.Some? { current := current.(lanMode := lan.value); }
    tx := tx.(userGroups := tx.userGroups[id := current]);
    return tx, Success(id);
  }

  method DeleteUserGroup(db: Tables, id: int) returns (tx: Tables, r: Result<int, Error>)
    requires Consistent(db)
    ensures EndsAs(DeleteUserGroupOutcome(db, id), tx, r)
  {
    tx := db;
    if id !in tx.userGroups { return tx, Failure(NotFound); }
    tx := DeleteRulesWithEnd(tx, Ref(UserGroupType, id));
    tx := tx.(userGroups := tx.userGroups - {id}, userMembers := set m | m in tx.userMembers && m.group != id);
    return tx, Success(id);
  }

  method AddUserToGroup(db: Tables, group: int, member: int) returns (tx: Tables, r: Result<int, Error>)
    requires Consistent(db)
    ensures EndsAs(AddUserToGroupOutcome(db, group, member), tx, r)
  {
    tx := db;
    if group !in tx.userGroups { return tx, Failure(NotFound); }
    if member !in tx.users { return tx, Failure(NotFound); }
    if Member(group, member) !in tx.userMembers {
      tx := tx.(userMembers := tx.userMembers + {Member(group, member)});
    } else {
      assert tx.userMembers + {Member(group, member)} == tx.userMembers;
    }
    return tx, Success(group);
  }

  // ----- services -----------------------------------------------------------

  /** One INSERT INTO service_ports with the checks before it and the UNIQUE constraint. */
  method InsertPort(db: Tables, service: int, p: PortSpec) returns (tx: Tables, e: Option<Error>)
    ensures e == if !ValidPort(p) then Some(InvalidInput)
      else if PortRow(service, p) in db.ports then Some(ConstraintFailed) else None
    ensures tx == if e.None? then db.(ports := db.ports + {PortRow(service, p)}) else db
  {
    tx := db;
    if p.protocol != "tcp" && p.protocol != "udp" { return tx, Some(InvalidInput); }
    if p.port <= 0 || p.port > 65535 { return tx, Some(InvalidInput); }
    if PortRow(service, p) in db.ports { return tx, Some(ConstraintFailed); }
    return db.(ports := db.ports + {PortRow(service, p)}), None;
  }

  lemma PortsErrorNext(rows: set<PortRow>, service: int, ports: seq<PortSpec>, i: nat)
    requires i < |ports| && PortsError(ports[..i]).None?
    ensures PortsError(ports[..i + 1]) ==
      if !ValidPort(ports[i]) then Some(InvalidInput)
      else if PortRow(service, ports[i]) in WithPorts(rows, service, ports[..i]) then Some(ConstraintFailed) else None
    ensures WithPorts(rows, service, ports[..i + 1])
      == WithPorts(rows, service, ports[..i]) + {PortRow(service, ports[i])}
  {
    assert ports[..i + 1][..i] == ports[..i];
    assert ports[..i + 1] == ports[..i] + [ports[i]];
    WithPortsGrows(rows, service, ports[..i], ports[i]);
  }

  /** Clears the ports of a service and inserts the new ones row by row; the first bad or
      duplicate row stops it, with the rows before it written. */
  method ReplaceServicePorts(db: Tables, service: int, ports: seq<PortSpec>) returns (tx: Tables, e: Option<Error>)
    ensures e == PortsError(ports)
    ensures e.None? ==> tx == db.(ports := WithPorts(db.ports, service, ports))
  {
    tx, e := db.(ports := set r | r in db.ports && r.service != service), None;
    for i := 0 to |ports|
      invariant PortsError(ports[..i]).None? && e.None?
      invariant tx == db.(ports := WithPorts(db.ports, service, ports[..i]))
    {
      PortsErrorNext(db.ports, service, ports, i);
      tx, e := InsertPort(tx, service, ports[i]);
      if e.Some? {
        PortsErrorStays(ports, i + 1);
        return;
      }
    }
    assert ports[..|ports|] == ports;
  }

  method CreateService(parse: Origin.Parser, db: Tables, s: ServiceInput) returns (tx: Tables, r: Result<int, Error>)
    requires Consistent(db)
    ensures EndsAs(CreateServiceOutcome(parse, db, s), tx, r)
  {
    tx := db;
    if s.name == "" || s.hostname == "" || s.ip == "" { return tx, Failure(InvalidInput); }
    var spec := Origin.Validate(parse, s.origin);
    if spec.None? { return tx, Failure(InvalidInput); }
    tx, r := InsertNewService(db, s, spec.value);
  }

  method InsertNewService(db: Tables, s: ServiceInput, spec: Origin.Spec) returns (tx: Tables, r: Result<int, Error>)
    requires Consistent(db)
    ensures EndsAs(NewServiceOutcome(db, s, spec), tx, r)
  {
    tx := db;
    var free := CheckNameAvailable(tx, ObjectSpace, s.name, Rules, 0);
    if !free { return tx, Failure(NameTaken); }
    free := CheckIpAvailable(tx, s.ip, 0);
    if !free { return tx, Failure(IpInUse); }
    free := CheckHostnameAvailable(tx, s.hostname, 0);
    if !free { return tx, Failure(NameTaken); }
    var id := tx.lastService + 1;
    tx := tx.(services := tx.services[id := Service(s.name, s.hostname, spec, s.ip, s.description)], lastService := id);
    var e;
    tx, e := ReplaceServicePorts(tx, id, s.ports);
    if e.Some? { return tx, Failure(e.value); }
    return tx, Success(id);
  }

  method UpdateService(parse: Origin.Parser, db: Tables, id: int, u: ServiceUpdate)
    returns (tx: Tables, r: Result<int, Error>)
    requires Consistent(db)
    ensures EndsAs(UpdateServiceOutcome(parse, db, id, u), tx, r)
  {
    tx := db;
    if id !in tx.services { return tx, Failure(NotFound); }
    var current := tx.services[id];
    if u.name.Some? && u.name.value != current.name {
      var free := CheckNameAvailable(tx, ObjectSpace, u.name.value, Services, id);
      if !free { return tx, Failure(NameTaken); }
      current := current.(name := u.name.value);
    }
    if u.hostname.Some? && u.hostname.value != current.hostname {
      var free := CheckHostnameAvailable(tx, u.hostname.value, id);
      if !free { return tx, Failure(NameTaken); }
      current := current.(hostname := u.hostname.value);
    }
    if u.origin.Some? {
      var spec := Origin.Validate(parse, u.origin.value);
      if spec.None? { return tx, Failure(InvalidInput); }
      current := current.(origin := spec.value);
    }
    if u.ip.Some? && u.ip.value != current.ip {
      var free := CheckIpAvailable(tx, u.ip.value, id);
      if !free { return tx, Failure(IpInUse); }
      current := current.(ip := u.ip.value);
    }
    if u.description.Some? { current := current.(description := u.description.value); }
    tx := tx.(services := tx.services[id := current]);
    if u.ports.Some? {
      var e;
      tx, e := ReplaceServicePorts(tx, id, u.ports.value);
      if e.Some? { return tx, Failure(e.value); }
    }
    return tx, Success(id);
  }

  method DeleteService(db: Tables, id: int) returns (tx: Tables, r: Result<int, Error>)
    requires Consistent(db)
    ensures EndsAs(DeleteServiceOutcome(db, id), tx, r)
  {
    tx := db;
    if id !in tx.services { return tx, Failure(NotFound); }
    tx := DeleteRulesWithTarget(tx, Ref(ServiceType, id));
    tx := tx.(services := tx.services - {id}, ports := set row | row in tx.ports && row.service != id);
    tx := tx.(serviceMembers := set m | m in tx.serviceMembers && m.id != id);
    assert tx.ports == WithPorts(db.ports, id, []);
    return tx, Success(id);
  }

  // ----- service groups -----------------------------------------------------

  method CreateServiceGroup(db: Tables, name: string) returns (tx: Tables, r: Result<int, Error>)
    requires Consistent(db)
    ensures EndsAs(CreateServiceGroupOutcome(db, name), tx, r)
  {
    tx := db;
    if name == "" { return tx, Failure(InvalidInput); }
    var free := CheckNameAvailable(tx, ObjectSpace, name, Rules, 0);
    if !free { return tx, Failure(NameTaken); }
    var id := tx.lastServiceGroup + 1;
    tx := tx.(serviceGroups := tx.serviceGroups[id := ServiceGroup(name)], lastServiceGroup := id);
    return tx, Success(id);
  }

  method UpdateServiceGroup(db: Tables, id: int, name: Option<string>) returns (tx: Tables, r: Result<int, Error>)
    requires Consistent(db)
    ensures EndsAs(UpdateServiceGroupOutcome(db, id, name), tx, r)
  {
    tx := db;
    if id !in tx.serviceGroups { return tx, Failure(NotFound); }
    var current := tx.serviceGroups[id];
    if name.Some? && name.value != current.name {
      var free := CheckNameAvailable(tx, ObjectSpace, name.value, ServiceGroups, id);
      if !free { return tx, Failure(NameTaken); }
      current := ServiceGroup(name.value);
    }
    tx := tx.(serviceGroups := tx.serviceGroups[id := current]);
    return tx, Success(id);
  }

  method DeleteServiceGroup(db: Tables, id: int) returns (tx: Tables, r: Result<int, Error>)
    requires Consistent(db)
    ensures EndsAs(DeleteServiceGroupOutcome(db, id), tx, r)
  {
    tx := db;
    if id !in tx.serviceGroups { return tx, Failure(NotFound); }
    tx := DeleteRulesWithTarget(tx, Ref(ServiceGroupType, id));
    tx := tx.(serviceGroups := tx.serviceGroups - {id},
              serviceMembers := set m | m in tx.serviceMembers && m.group != id);
    return tx, Success(id);
  }

  method AddServiceToGroup(db: Tables, group: int, member: int) returns (tx: Tables, r: Result<int, Error>)
    requires Consistent(db)
    ensures EndsAs(AddServiceToGroupOutcome(db, group, member), tx, r)
  {
    tx := db;
    if group !in tx.serviceGroups { return tx, Failure(NotFound); }
    if member !in tx.services { return tx, Failure(NotFound); }
    if Member(group, member) !in tx.serviceMembers {
      tx := tx.(serviceMembers := tx.serviceMembers + {Member(group, member)});
    } else {
      assert tx.serviceMembers + {Member(group, member)} == tx.serviceMembers;
    }
    return tx, Success(group);
  }

  // ----- policies -----------------------------------------------------------

  method CreatePolicy(db: Tables, subject: Ref, target: Ref, action: Action) returns (tx: Tables, r: Result<int, Error>)
    requires Consistent(db)
    ensures EndsAs(CreatePolicyOutcome(db, subject, target, action), tx, r)
  {
    tx := db;
    if !ValidSubject(subject.typ) || !ValidTarget(target.typ) || !ValidAction(action) {
      return tx, Failure(InvalidInput);
    }
    if !Exists(tx, subject) { return tx, Failure(NotFound); }
    if !Exists(tx, target) { return tx, Failure(NotFound); }
    var id := tx.lastRule + 1;
    if existing :|
      existing in tx.rules && tx.rules[existing].subject == subject && tx.rules[existing].target == target
    {
      id := existing;
      tx := tx.(rules := tx.rules[existing := tx.rules[existing].(action := action)]);
    } else {
      tx := tx.(rules := tx.rules[id := Rule(subject, target, action)], lastRule := id);
    }
    assert id == RuleId(db, subject, target);
    return tx, Success(id);
  }

  method DeletePolicy(db: Tables, id: int) returns (tx: Tables, r: Result<int, Error>)
    requires Consistent(db)
    ensures EndsAs(DeletePolicyOutcome(db, id), tx, r)
  {
    tx := db;
    var affected := if id in tx.rules then 1 else 0;
    tx := tx.(rules := tx.rules - {id});
    if affected == 0 { return tx, Failure(NotFound); }
    return tx, Success(id);
  }
}
