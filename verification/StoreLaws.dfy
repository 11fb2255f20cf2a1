/** What each store operation does, told by the rows before and after it and by the store invariant
    alone: a deleted entity is nowhere, a written row shows what was asked for, nothing else moves, and
    an operation is refused only for a missing input or to keep the invariant. */
module StoreLaws {
  import opened Wrappers
  import opened Schema
  import opened StoreSpec
  import opened Refinement
  import Origin

  // ----- rows -----------------------------------------------------------------

  datatype Row =
    | UserRow(user: User)
    | UserGroupRow(userGroup: UserGroup)
    | ServiceRow(service: Service)
    | ServiceGroupRow(serviceGroup: ServiceGroup)

  /** The row a reference stands for. */
  function RowOf(t: Tables, r: Ref): Option<Row> {
    match r.typ
    case UserType => if r.id in t.users then Some(UserRow(t.users[r.id])) else None
    case UserGroupType => if r.id in t.userGroups then Some(UserGroupRow(t.userGroups[r.id])) else None
    case ServiceType => if r.id in t.services then Some(ServiceRow(t.services[r.id])) else None
    case ServiceGroupType => if r.id in t.serviceGroups then Some(ServiceGroupRow(t.serviceGroups[r.id])) else None
    case OtherType(_) => None
  }

  ghost predicate OtherRowsKept(t: Tables, t': Tables, r: Ref) {
    forall e :: e != r ==> RowOf(t', e) == RowOf(t, e)
  }

  ghost predicate OtherPortsKept(t: Tables, t': Tables, service: int) {
    forall p: PortRow :: p.service != service ==> (p in t'.ports <==> p in t.ports)
  }

  ghost predicate LinksKept(t: Tables, t': Tables) {
    t'.rules == t.rules && t'.userMembers == t.userMembers && t'.serviceMembers == t.serviceMembers
  }

  ghost predicate CountersKept(t: Tables, t': Tables) {
    && t'.lastUser == t.lastUser && t'.lastUserGroup == t.lastUserGroup && t'.lastService == t.lastService
    && t'.lastServiceGroup == t.lastServiceGroup && t'.lastRule == t.lastRule
  }

  /** One row is written, and no other row, rule, membership or port changes. */
  ghost predicate RowWritten(t: Tables, t': Tables, r: Ref) {
    Exists(t', r) && OtherRowsKept(t, t', r) && LinksKept(t, t') && t'.ports == t.ports
  }

  // ----- deletion -------------------------------------------------------------

  /** The operation that deletes the entity. */
  function Deletion(r: Ref): Op
    requires ValidTarget(r.typ)
  {
    match r.typ
    case UserType => Principals(DeleteUser(r.id))
    case UserGroupType => Principals(DeleteUserGroup(r.id))
    case ServiceType => Objects(DeleteService(r.id))
    case ServiceGroupType => Objects(DeleteServiceGroup(r.id))
  }

  /** The rules that remain are those that do not name the entity, unchanged. */
  ghost predicate RulesForget(t: Tables, t': Tables, r: Ref) {
    && (forall a :: a in t'.rules <==> a in t.rules && t.rules[a].subject != r && t.rules[a].target != r)
    && (forall a :: a in t'.rules ==> t'.rules[a] == t.rules[a])
  }

  ghost predicate MembersForget(t: Tables, t': Tables, r: Ref) {
    && (forall m: Member :: m in t'.userMembers <==>
          m in t.userMembers && Ref(UserType, m.id) != r && Ref(UserGroupType, m.group) != r)
    && (forall m: Member :: m in t'.serviceMembers <==>
          m in t.serviceMembers && Ref(ServiceType, m.id) != r && Ref(ServiceGroupType, m.group) != r)
  }

  ghost predicate PortsForget(t: Tables, t': Tables, r: Ref) {
    forall p: PortRow :: p in t'.ports <==> p in t.ports && Ref(ServiceType, p.service) != r
  }

  /** The entity is in no table, rule, membership or port, and everything that does not name it stays. */
  ghost predicate Forgets(t: Tables, t': Tables, r: Ref) {
    && !Exists(t', r) && OtherRowsKept(t, t', r)
    && RulesForget(t, t', r) && MembersForget(t, t', r) && PortsForget(t, t', r) && CountersKept(t, t')
  }

  lemma UserForgotten(t: Tables, id: int)
    requires id in t.users
    ensures DeleteUserOutcome(t, id).Success? && Forgets(t, DeleteUserOutcome(t, id).value.db, Ref(UserType, id))
  {
  }

  lemma UserGroupForgotten(t: Tables, id: int)
    requires id in t.userGroups
    ensures DeleteUserGroupOutcome(t, id).Success?
    ensures Forgets(t, DeleteUserGroupOutcome(t, id).value.db, Ref(UserGroupType, id))
  {
  }

  lemma ServiceForgotten(t: Tables, id: int)
    requires id in t.services
    ensures DeleteServiceOutcome(t, id).Success?
    ensures Forgets(t, DeleteServiceOutcome(t, id).value.db, Ref(ServiceType, id))
  {
  }

  lemma ServiceGroupForgotten(t: Tables, id: int)
    requires id in t.serviceGroups
    ensures DeleteServiceGroupOutcome(t, id).Success?
    ensures Forgets(t, DeleteServiceGroupOutcome(t, id).value.db, Ref(ServiceGroupType, id))
  {
  }

  /** Deleting a user, a group or a service succeeds exactly when there is one, and then forgets it. */
  lemma DeletedIsForgotten(parse: Origin.Parser, t: Tables, r: Ref)
    requires ValidTarget(r.typ)
    ensures match OutcomeOf(parse, t, Deletion(r))
      case Success(c) => Exists(t, r) && c.id == r.id && Forgets(t, After(parse, t, Deletion(r)), r)
      case Failure(e) => !Exists(t, r) && e == NotFound
  {
    if Exists(t, r) {
      match r.typ {
        case UserType => UserForgotten(t, r.id);
        case UserGroupType => UserGroupForgotten(t, r.id);
        case ServiceType => ServiceForgotten(t, r.id);
        case ServiceGroupType => ServiceGroupForgotten(t, r.id);
      }
    }
  }

  /** Nobody is let in, or reached, at the address a deleted user had. */
  lemma DeletedUserIsCutOff(parse: Origin.Parser, t: Tables, id: int, other: string, port: int, protocol: string)
    requires Consistent(t) && id in t.users
    ensures var t', ip := After(parse, t, Principals(DeleteUser(id))), t.users[id].ip;
      !TableAllowsService(t', ip, other, port, protocol) && !TableAllowsPeer(t', ip, other)
        && !TableAllowsPeer(t', other, ip)
  {
    UserForgotten(t, id);
    var t' := After(parse, t, Principals(DeleteUser(id)));
    forall u | u in t'.users ensures t'.users[u].ip != t.users[id].ip {
      RowKept(t, t', Ref(UserType, id), Ref(UserType, u));
    }
  }

  /** And nobody reaches the address of a deleted service. */
  lemma DeletedServiceIsCutOff(parse: Origin.Parser, t: Tables, id: int, srcIp: string, port: int, protocol: string)
    requires Consistent(t) && id in t.services
    ensures !TableAllowsService(After(parse, t, Objects(DeleteService(id))), srcIp, t.services[id].ip, port, protocol)
  {
    ServiceForgotten(t, id);
    var t' := After(parse, t, Objects(DeleteService(id)));
    forall s | s in t'.services ensures t'.services[s].ip != t.services[id].ip {
      RowKept(t, t', Ref(ServiceType, id), Ref(ServiceType, s));
    }
  }

  lemma RowKept(t: Tables, t': Tables, gone: Ref, r: Ref)
    requires Forgets(t, t', gone) && Exists(t', r)
    ensures r != gone && Exists(t, r) && RowOf(t', r) == RowOf(t, r)
  {
    assert RowOf(t', r) == RowOf(t, r);
    assert Exists(t, r) <==> RowOf(t, r).Some?;
    assert Exists(t', r) <==> RowOf(t', r).Some?;
  }

  // ----- what the name spaces and addresses allow -----------------------------

  /** `except` is the row that is written, or 0 for a new one. */
  predicate Writes(ids: set<int>, id: int, except: int) { 0 !in ids && except == if id in ids then id else 0 }

  /** A name is free for the row exactly when the name space stays unique with the row written. */
  lemma UserNameFits(t: Tables, id: int, except: int, row: User)
    requires PrincipalNamesUnique(t.users, t.userGroups) && Writes(t.users.Keys, id, except) && 0 !in t.userGroups
    ensures NameFree(t, PrincipalSpace, row.name, except, 0) <==> PrincipalNamesUnique(t.users[id := row], t.userGroups)
    ensures id in t.users && t.users[id].name == row.name ==> NameFree(t, PrincipalSpace, row.name, except, 0)
  {
    var users' := t.users[id := row];
    assert users'[id] == row && forall a :: a in t.users && a != id ==> users'[a] == t.users[a];
  }

  lemma UserGroupNameFits(t: Tables, id: int, except: int, row: UserGroup)
    requires PrincipalNamesUnique(t.users, t.userGroups) && Writes(t.userGroups.Keys, id, except) && 0 !in t.users
    ensures NameFree(t, PrincipalSpace, row.name, 0, except) <==> PrincipalNamesUnique(t.users, t.userGroups[id := row])
    ensures id in t.userGroups && t.userGroups[id].name == row.name ==> NameFree(t, PrincipalSpace, row.name, 0, except)
  {
    var groups' := t.userGroups[id := row];
    assert groups'[id] == row && forall a :: a in t.userGroups && a != id ==> groups'[a] == t.userGroups[a];
  }

  lemma ServiceNameFits(t: Tables, id: int, except: int, row: Service)
    requires ObjectNamesUnique(t.services, t.serviceGroups)
    requires Writes(t.services.Keys, id, except) && 0 !in t.serviceGroups
    ensures NameFree(t, ObjectSpace, row.name, except, 0) <==> ObjectNamesUnique(t.services[id := row], t.serviceGroups)
    ensures id in t.services && t.services[id].name == row.name ==> NameFree(t, ObjectSpace, row.name, except, 0)
  {
    var services' := t.services[id := row];
    assert services'[id] == row && forall a :: a in t.services && a != id ==> services'[a] == t.services[a];
  }

  lemma ServiceGroupNameFits(t: Tables, id: int, except: int, row: ServiceGroup)
    requires ObjectNamesUnique(t.services, t.serviceGroups)
    requires Writes(t.serviceGroups.Keys, id, except) && 0 !in t.services
    ensures NameFree(t, ObjectSpace, row.name, 0, except) <==> ObjectNamesUnique(t.services, t.serviceGroups[id := row])
    ensures id in t.serviceGroups && t.serviceGroups[id].name == row.name ==>
      NameFree(t, ObjectSpace, row.name, 0, except)
  {
    var groups' := t.serviceGroups[id := row];
    assert groups'[id] == row && forall a :: a in t.serviceGroups && a != id ==> groups'[a] == t.serviceGroups[a];
  }

  lemma UserAddressFits(t: Tables, id: int, row: User)
    requires AddressesUnique(t.users, t.services) && id !in t.users && 0 !in t.services
    ensures IpFree(t, row.ip, 0) <==> AddressesUnique(t.users[id := row], t.services)
  {
    var users' := t.users[id := row];
    assert users'[id] == row && forall a :: a in t.users ==> users'[a] == t.users[a];
  }

  lemma ServiceAddressFits(t: Tables, id: int, except: int, row: Service)
    requires AddressesUnique(t.users, t.services) && Writes(t.services.Keys, id, except)
    ensures IpFree(t, row.ip, except) <==> AddressesUnique(t.users, t.services[id := row])
    ensures id in t.services && t.services[id].ip == row.ip ==> IpFree(t, row.ip, except)
  {
    var services' := t.services[id := row];
    assert services'[id] == row && forall a :: a in t.services && a != id ==> services'[a] == t.services[a];
  }

  lemma HostnameFits(t: Tables, id: int, except: int, row: Service)
    requires HostnamesUnique(t.services) && Writes(t.services.Keys, id, except)
    ensures HostnameFree(t, row.hostname, except) <==> HostnamesUnique(t.services[id := row])
    ensures id in t.services && t.services[id].hostname == row.hostname ==> HostnameFree(t, row.hostname, except)
  {
    var services' := t.services[id := row];
    assert services'[id] == row && forall a :: a in t.services && a != id ==> services'[a] == t.services[a];
  }

  // ----- users ----------------------------------------------------------------

  predicate ShowsUser(row: User, u: UserInput) {
    && row.name == u.name && row.email == u.email && row.ip == u.ip && row.endpoint == u.endpoint
    && row.publicKey == u.publicKey && row.privateKey == u.privateKey && row.presharedKey == u.presharedKey
  }

  predicate NamesAUser(u: UserInput) {
    u.name != "" && u.ip != "" && !u.publicKey.NoKey? && !u.privateKey.NoKey? && !u.presharedKey.NoKey?
  }

  /** A created user has a new id and shows every input; nothing else moves. */
  ghost predicate UserCreated(t: Tables, t': Tables, id: int, u: UserInput) {
    && id == t.lastUser + 1 == t'.lastUser && id !in t.users && id in t'.users && ShowsUser(t'.users[id], u)
    && RowWritten(t, t', Ref(UserType, id)) && CountersKept(t, t'.(lastUser := t.lastUser))
  }

  lemma CreatedUser(t: Tables, u: UserInput)
    requires CountersSound(t) && CreateUserOutcome(t, u).Success?
    ensures var c := CreateUserOutcome(t, u).value; UserCreated(t, c.db, c.id, u)
  {
  }

  /** It is refused for a missing input, or because the row would break the name space or share an
      address, and for nothing else. */
  lemma UserRefused(t: Tables, u: UserInput, row: User)
    requires NamesAndAddressesUnique(t) && CountersSound(t) && ShowsUser(row, u)
    ensures var users' := t.users[t.lastUser + 1 := row];
      match CreateUserOutcome(t, u)
      case Success(_) =>
        NamesAUser(u) && PrincipalNamesUnique(users', t.userGroups) && AddressesUnique(users', t.services)
      case Failure(e) =>
        e == if !NamesAUser(u) then InvalidInput
             else if !PrincipalNamesUnique(users', t.userGroups) then NameTaken else IpInUse
  {
    UserNameFits(t, t.lastUser + 1, 0, row);
    UserAddressFits(t, t.lastUser + 1, row);
  }

  /** The columns named by an update have their new values, the others their old ones. */
  predicate UserEdited(was: User, row: User, name: Option<string>, email: Option<string>, endpoint: Option<string>) {
    && (if name.Some? then row.name == name.value else row.name == was.name)
    && (if email.Some? then row.email == email.value else row.email == was.email)
    && (if endpoint.Some? then row.endpoint == endpoint.value else row.endpoint == was.endpoint)
    && row.ip == was.ip && row.publicKey == was.publicKey && row.privateKey == was.privateKey
    && row.presharedKey == was.presharedKey
  }

  ghost predicate UserUpdated(t: Tables, t': Tables, id: int, name: Option<string>, email: Option<string>,
                              endpoint: Option<string>) {
    && id in t.users && id in t'.users && UserEdited(t.users[id], t'.users[id], name, email, endpoint)
    && RowWritten(t, t', Ref(UserType, id)) && CountersKept(t, t')
  }

  /** An update is refused when there is no such user, or the edited row would break the name space. */
  lemma UserUpdateRefused(t: Tables, id: int, name: Option<string>, email: Option<string>, endpoint: Option<string>,
                          row: User)
    requires NamesAndAddressesUnique(t) && CountersSound(t)
    requires id in t.users ==> UserEdited(t.users[id], row, name, email, endpoint)
    ensures match UpdateUserOutcome(t, id, name, email, endpoint)
      case Success(_) => id in t.users && PrincipalNamesUnique(t.users[id := row], t.userGroups)
      case Failure(e) =>
        if id !in t.users then e == NotFound
        else e == NameTaken && !PrincipalNamesUnique(t.users[id := row], t.userGroups)
  {
    if id in t.users { UserNameFits(t, id, id, row); }
  }

  // ----- user groups ----------------------------------------------------------

  ghost predicate UserGroupCreated(t: Tables, t': Tables, id: int, name: string, lanMode: bool) {
    && id == t.lastUserGroup + 1 == t'.lastUserGroup && id !in t.userGroups && id in t'.userGroups
    && t'.userGroups[id].name == name && t'.userGroups[id].lanMode == lanMode
    && RowWritten(t, t', Ref(UserGroupType, id)) && CountersKept(t, t'.(lastUserGroup := t.lastUserGroup))
  }

  lemma UserGroupRefused(t: Tables, name: string, lanMode: bool, row: UserGroup)
    requires NamesAndAddressesUnique(t) && CountersSound(t) && row.name == name
    ensures var fits := PrincipalNamesUnique(t.users, t.userGroups[t.lastUserGroup + 1 := row]);
      match CreateUserGroupOutcome(t, name, lanMode)
      case Success(_) => name != "" && fits
      case Failure(e) => if name == "" then e == InvalidInput else e == NameTaken && !fits
  {
    UserGroupNameFits(t, t.lastUserGroup + 1, 0, row);
  }

  predicate UserGroupEdited(was: UserGroup, row: UserGroup, name: Option<string>, lan: Option<bool>) {
    && (if name.Some? then row.name == name.value else row.name == was.name)
    && (if lan.Some? then row.lanMode == lan.value else row.lanMode == was.lanMode)
  }

  ghost predicate UserGroupUpdated(t: Tables, t': Tables, id: int, name: Option<string>, lan: Option<bool>) {
    && id in t.userGroups && id in t'.userGroups && UserGroupEdited(t.userGroups[id], t'.userGroups[id], name, lan)
    && RowWritten(t, t', Ref(UserGroupType, id)) && CountersKept(t, t')
  }

  lemma UserGroupUpdateRefused(t: Tables, id: int, name: Option<string>, lan: Option<bool>, row: UserGroup)
    requires NamesAndAddressesUnique(t) && CountersSound(t)
    requires id in t.userGroups ==> UserGroupEdited(t.userGroups[id], row, name, lan)
    ensures var fits := PrincipalNamesUnique(t.users, t.userGroups[id := row]);
      match UpdateUserGroupOutcome(t, id, name, lan)
      case Success(_) => id in t.userGroups && fits
      case Failure(e) => if id !in t.userGroups then e == NotFound else e == NameTaken && !fits
  {
    if id in t.userGroups { UserGroupNameFits(t, id, id, row); }
  }

  // ----- service groups -------------------------------------------------------

  ghost predicate ServiceGroupCreated(t: Tables, t': Tables, id: int, name: string) {
    && id == t.lastServiceGroup + 1 == t'.lastServiceGroup && id !in t.serviceGroups
    && id in t'.serviceGroups && t'.serviceGroups[id].name == name
    && RowWritten(t, t', Ref(ServiceGroupType, id)) && CountersKept(t, t'.(lastServiceGroup := t.lastServiceGroup))
  }

  lemma ServiceGroupRefused(t: Tables, name: string, row: ServiceGroup)
    requires NamesAndAddressesUnique(t) && CountersSound(t) && row.name == name
    ensures var fits := ObjectNamesUnique(t.services, t.serviceGroups[t.lastServiceGroup + 1 := row]);
      match CreateServiceGroupOutcome(t, name)
      case Success(_) => name != "" && fits
      case Failure(e) => if name == "" then e == InvalidInput else e == NameTaken && !fits
  {
    ServiceGroupNameFits(t, t.lastServiceGroup + 1, 0, row);
  }

  predicate ServiceGroupEdited(was: ServiceGroup, row: ServiceGroup, name: Option<string>) {
    if name.Some? then row.name == name.value else row.name == was.name
  }

  ghost predicate ServiceGroupUpdated(t: Tables, t': Tables, id: int, name: Option<string>) {
    && id in t.serviceGroups && id in t'.serviceGroups
    && ServiceGroupEdited(t.serviceGroups[id], t'.serviceGroups[id], name)
    && RowWritten(t, t', Ref(ServiceGroupType, id)) && CountersKept(t, t')
  }

  lemma ServiceGroupUpdateRefused(t: Tables, id: int, name: Option<string>, row: ServiceGroup)
    requires NamesAndAddressesUnique(t) && CountersSound(t)
    requires id in t.serviceGroups ==> ServiceGroupEdited(t.serviceGroups[id], row, name)
    ensures var fits := ObjectNamesUnique(t.services, t.serviceGroups[id := row]);
      match UpdateServiceGroupOutcome(t, id, name)
      case Success(_) => id in t.serviceGroups && fits
      case Failure(e) => if id !in t.serviceGroups then e == NotFound else e == NameTaken && !fits
  {
    if id in t.serviceGroups { ServiceGroupNameFits(t, id, id, row); }
  }

  // ----- services -------------------------------------------------------------

  /** Every port is proper and none is listed twice. */
  ghost predicate PortsProper(ports: seq<PortSpec>) {
    && (forall i :: 0 <= i < |ports| ==> ValidPort(ports[i]))
    && (forall i, j :: 0 <= i < j < |ports| ==> ports[i] != ports[j])
  }

  /** `i` is the first port that cannot be inserted. */
  ghost predicate FirstBadPort(ports: seq<PortSpec>, i: nat) {
    i < |ports| && PortsProper(ports[..i]) && (ValidPort(ports[i]) ==> ports[i] in ports[..i])
  }

  /** A port list is refused exactly when it is not proper, with the error of its first bad port. */
  lemma {:induction false} PortsRefused(ports: seq<PortSpec>)
    ensures match PortsError(ports)
      case None => PortsProper(ports)
      case Some(e) =>
        exists i: nat :: FirstBadPort(ports, i) && e == if ValidPort(ports[i]) then ConstraintFailed else InvalidInput
    ensures PortsProper(ports) ==> PortsError(ports).None?
  {
    if ports == [] {
    } else {
      var init, n := ports[..|ports| - 1], |ports| - 1;
      PortsRefused(init);
      if PortsError(init).Some? {
        var i: nat :| FirstBadPort(init, i)
          && PortsError(init).value == if ValidPort(init[i]) then ConstraintFailed else InvalidInput;
        assert ports[..i] == init[..i] && FirstBadPort(ports, i);
        NotProper(ports, i);
      } else if PortsError(ports).Some? {
        assert FirstBadPort(ports, n);
        NotProper(ports, n);
      }
    }
  }

  lemma NotProper(ports: seq<PortSpec>, i: nat)
    requires FirstBadPort(ports, i)
    ensures !PortsProper(ports)
  {
    if ValidPort(ports[i]) {
      var j :| 0 <= j < i && ports[..i][j] == ports[i];
      assert ports[j] == ports[i];
    }
  }

  predicate ShowsService(parse: Origin.Parser, row: Service, s: ServiceInput) {
    && row.name == s.name && row.hostname == s.hostname && row.ip == s.ip && row.description == s.description
    && Origin.Validate(parse, s.origin) == Some(row.origin)
  }

  ghost predicate DeclaresPorts(t: Tables, service: int, ports: seq<PortSpec>) {
    forall p :: PortRow(service, p) in t.ports <==> p in ports
  }

  /** A service's row and ports are written, and no other row, port, rule or membership changes. */
  ghost predicate ServiceWritten(t: Tables, t': Tables, id: int) {
    && id in t'.services && OtherRowsKept(t, t', Ref(ServiceType, id)) && OtherPortsKept(t, t', id)
    && LinksKept(t, t')
  }

  /** A created service has a new id, shows every input, its origin as validation leaves it, and exactly
      the listed ports; nothing else moves. */
  ghost predicate ServiceCreated(parse: Origin.Parser, t: Tables, t': Tables, id: int, s: ServiceInput) {
    && id == t.lastService + 1 == t'.lastService && id !in t.services && ServiceWritten(t, t', id)
    && ShowsService(parse, t'.services[id], s) && DeclaresPorts(t', id, s.ports)
    && CountersKept(t, t'.(lastService := t.lastService))
  }

  lemma CreatedService(parse: Origin.Parser, t: Tables, s: ServiceInput)
    requires CountersSound(t) && CreateServiceOutcome(parse, t, s).Success?
    ensures var c := CreateServiceOutcome(parse, t, s).value; ServiceCreated(parse, t, c.db, c.id, s)
  {
    InsertedService(t, s, Origin.Validate(parse, s.origin).value);
  }

  lemma InsertedService(t: Tables, s: ServiceInput, spec: Origin.Spec)
    requires CountersSound(t)
    ensures var t', id := InsertService(t, s, spec), t.lastService + 1;
      id !in t.services && ServiceWritten(t, t', id) && DeclaresPorts(t', id, s.ports)
  {
  }

  predicate NamesAService(parse: Origin.Parser, s: ServiceInput) {
    s.name != "" && s.hostname != "" && s.ip != "" && Origin.Validate(parse, s.origin).Some?
  }

  /** Why a service row cannot be written, in the order of the checks: its name, its address, its
      hostname. */
  ghost function Misfit(t: Tables, id: int, row: Service): Option<Error> {
    if !ObjectNamesUnique(t.services[id := row], t.serviceGroups) then Some(NameTaken)
    else if !AddressesUnique(t.users, t.services[id := row]) then Some(IpInUse)
    else if !HostnamesUnique(t.services[id := row]) then Some(NameTaken) else None
  }

  lemma MisfitIsTaken(t: Tables, id: int, except: int, row: Service)
    requires NamesAndAddressesUnique(t) && Writes(t.services.Keys, id, except) && 0 !in t.serviceGroups
    ensures Misfit(t, id, row)
         == if !NameFree(t, ObjectSpace, row.name, except, 0) then Some(NameTaken)
            else if !IpFree(t, row.ip, except) then Some(IpInUse)
            else if !HostnameFree(t, row.hostname, except) then Some(NameTaken) else None
  {
    ServiceNameFits(t, id, except, row);
    ServiceAddressFits(t, id, except, row);
    HostnameFits(t, id, except, row);
  }

  /** Creating a service is refused for a missing input, an origin that does not validate, a row that
      would break the invariant, or ports that are not proper, in this order, and for nothing else. */
  lemma ServiceRefused(parse: Origin.Parser, t: Tables, s: ServiceInput, row: Service)
    requires NamesAndAddressesUnique(t) && CountersSound(t)
    requires NamesAService(parse, s) ==> ShowsService(parse, row, s)
    ensures var misfit := Misfit(t, t.lastService + 1, row);
      match CreateServiceOutcome(parse, t, s)
      case Success(_) => NamesAService(parse, s) && misfit.None? && PortsProper(s.ports)
      case Failure(e) =>
        if !NamesAService(parse, s) then e == InvalidInput
        else if misfit.Some? then e == misfit.value
        else !PortsProper(s.ports) && PortsError(s.ports) == Some(e)
  {
    PortsRefused(s.ports);
    MisfitIsTaken(t, t.lastService + 1, 0, row);
  }

  predicate ColumnsEdited(was: Service, row: Service, u: ServiceUpdate) {
    && (if u.name.Some? then row.name == u.name.value else row.name == was.name)
    && (if u.hostname.Some? then row.hostname == u.hostname.value else row.hostname == was.hostname)
    && (if u.ip.Some? then row.ip == u.ip.value else row.ip == was.ip)
    && (if u.description.Some? then row.description == u.description.value else row.description == was.description)
  }

  predicate ServiceEdited(parse: Origin.Parser, was: Service, row: Service, u: ServiceUpdate) {
    && ColumnsEdited(was, row, u)
    && (if u.origin.Some? then Origin.Validate(parse, u.origin.value) == Some(row.origin) else row.origin == was.origin)
  }

  ghost predicate ServiceUpdated(parse: Origin.Parser, t: Tables, t': Tables, id: int, u: ServiceUpdate) {
    && id in t.services && ServiceWritten(t, t', id) && ServiceEdited(parse, t.services[id], t'.services[id], u)
    && (if u.ports.Some? then DeclaresPorts(t', id, u.ports.value) else t'.ports == t.ports)
    && CountersKept(t, t')
  }

  lemma UpdatedService(parse: Origin.Parser, t: Tables, id: int, u: ServiceUpdate)
    requires UpdateServiceOutcome(parse, t, id, u).Success?
    ensures ServiceUpdated(parse, t, UpdateServiceOutcome(parse, t, id, u).value.db, id, u)
  {
  }

  predicate OriginReads(parse: Origin.Parser, u: ServiceUpdate) {
    u.origin.Some? ==> Origin.Validate(parse, u.origin.value).Some?
  }

  ghost predicate PortsRead(u: ServiceUpdate) { u.ports.Some? ==> PortsProper(u.ports.value) }

  /** An update is refused when there is no such service, or the edited row would break the invariant, or
      its new origin does not validate, or its new ports are not proper, and for nothing else. */
  lemma ServiceUpdateRefused(parse: Origin.Parser, t: Tables, id: int, u: ServiceUpdate, row: Service)
    requires NamesAndAddressesUnique(t) && CountersSound(t)
    requires id in t.services ==> ColumnsEdited(t.services[id], row, u)
    ensures match UpdateServiceOutcome(parse, t, id, u)
      case Success(_) => id in t.services && OriginReads(parse, u) && Misfit(t, id, row).None? && PortsRead(u)
      case Failure(e) =>
        if id !in t.services then e == NotFound
        else if !ObjectNamesUnique(t.services[id := row], t.serviceGroups) then e == NameTaken
        else if !HostnamesUnique(t.services[id := row]) then e == NameTaken
        else if !OriginReads(parse, u) then e == InvalidInput
        else if !AddressesUnique(t.users, t.services[id := row]) then e == IpInUse
        else !PortsRead(u) && PortsError(u.ports.value) == Some(e)
  {
    if u.ports.Some? { PortsRefused(u.ports.value); }
    if id in t.services {
      ServiceNameFits(t, id, id, row);
      ServiceAddressFits(t, id, id, row);
      HostnameFits(t, id, id, row);
    }
  }

  // ----- memberships and rules ------------------------------------------------

  /** The membership is there afterwards, or not; every other one, and everything else, stays. */
  ghost predicate UserMemberSet(t: Tables, t': Tables, group: int, user: int, present: bool) {
    && (Member(group, user) in t'.userMembers <==> present)
    && (forall m: Member :: m.group != group || m.id != user ==> (m in t'.userMembers <==> m in t.userMembers))
    && t' == t.(userMembers := t'.userMembers)
  }

  ghost predicate ServiceMemberSet(t: Tables, t': Tables, group: int, service: int, present: bool) {
    && (Member(group, service) in t'.serviceMembers <==> present)
    && (forall m: Member :: m.group != group || m.id != service ==> (m in t'.serviceMembers <==> m in t.serviceMembers))
    && t' == t.(serviceMembers := t'.serviceMembers)
  }

  ghost predicate OtherRulesKept(t: Tables, t': Tables, id: int) {
    && (forall a :: a != id ==> (a in t'.rules <==> a in t.rules))
    && (forall a :: a != id && a in t.rules ==> t'.rules[a] == t.rules[a])
    && t' == t.(rules := t'.rules, lastRule := t'.lastRule)
  }

  /** There is exactly one rule between the two ends, with this action: the one that was there, or one
      under a new id; the other rules are the same, under the same ids. */
  ghost predicate RuleSet(t: Tables, t': Tables, id: int, subject: Ref, target: Ref, action: Action) {
    && id in t'.rules && t'.rules[id] == Rule(subject, target, action)
    && (forall a :: a in t'.rules && t'.rules[a].subject == subject && t'.rules[a].target == target ==> a == id)
    && OtherRulesKept(t, t', id)
    && (if id in t.rules then SameEnds(t.rules[id], t'.rules[id]) && t'.lastRule == t.lastRule
        else id == t.lastRule + 1 == t'.lastRule)
  }

  lemma PolicyStored(t: Tables, subject: Ref, target: Ref, action: Action)
    requires RulesUnique(t.rules) && CountersSound(t) && CreatePolicyOutcome(t, subject, target, action).Success?
    ensures var c := CreatePolicyOutcome(t, subject, target, action).value;
      RuleSet(t, c.db, c.id, subject, target, action)
  {
  }

  /** A policy is refused exactly when a type or the action is unknown, or an end is missing. */
  lemma PolicyRefused(t: Tables, subject: Ref, target: Ref, action: Action)
    ensures match CreatePolicyOutcome(t, subject, target, action)
      case Success(_) => ValidRule(Rule(subject, target, action)) && Exists(t, subject) && Exists(t, target)
      case Failure(e) =>
        if !ValidRule(Rule(subject, target, action)) then e == InvalidInput
        else e == NotFound && !(Exists(t, subject) && Exists(t, target))
  {
  }

  /** A membership is refused exactly when the group or the member is missing, a deletion of a rule when
      there is no such rule, and taking a member out never. */
  lemma LinkRefused(parse: Origin.Parser, t: Tables, group: int, member: int)
    ensures OutcomeOf(parse, t, Principals(AddUserToGroup(group, member))) == Failure(NotFound) <==>
      group !in t.userGroups || member !in t.users
    ensures OutcomeOf(parse, t, Principals(AddUserToGroup(group, member))).Success? <==>
      group in t.userGroups && member in t.users
    ensures OutcomeOf(parse, t, Objects(AddServiceToGroup(group, member))) == Failure(NotFound) <==>
      group !in t.serviceGroups || member !in t.services
    ensures OutcomeOf(parse, t, Objects(AddServiceToGroup(group, member))).Success? <==>
      group in t.serviceGroups && member in t.services
    ensures OutcomeOf(parse, t, Principals(RemoveUserFromGroup(group, member))).Success?
    ensures OutcomeOf(parse, t, Objects(RemoveServiceFromGroup(group, member))).Success?
    ensures OutcomeOf(parse, t, Policies(DeletePolicy(group))).Success? <==> group in t.rules
    ensures OutcomeOf(parse, t, Policies(DeletePolicy(group))) == Failure(NotFound) <==> group !in t.rules
  {
  }

  // ----- every operation ------------------------------------------------------

  /** What a successful operation on users and their groups means. */
  ghost predicate PrincipalMeans(t: Tables, op: PrincipalOp, id: int, t': Tables) {
    match op
    case CreateUser(u) => UserCreated(t, t', id, u)
    case UpdateUser(a, name, email, endpoint) => id == a && UserUpdated(t, t', a, name, email, endpoint)
    case DeleteUser(a) => id == a && a in t.users && Forgets(t, t', Ref(UserType, a))
    case CreateUserGroup(name, lanMode) => UserGroupCreated(t, t', id, name, lanMode)
    case UpdateUserGroup(a, name, lan) => id == a && UserGroupUpdated(t, t', a, name, lan)
    case DeleteUserGroup(a) => id == a && a in t.userGroups && Forgets(t, t', Ref(UserGroupType, a))
    case AddUserToGroup(g, m) => g in t.userGroups && m in t.users && UserMemberSet(t, t', g, m, true)
    case RemoveUserFromGroup(g, m) => UserMemberSet(t, t', g, m, false)
  }

  ghost predicate ObjectMeans(parse: Origin.Parser, t: Tables, op: ObjectOp, id: int, t': Tables) {
    match op
    case CreateService(s) => ServiceCreated(parse, t, t', id, s)
    case UpdateService(a, u) => id == a && ServiceUpdated(parse, t, t', a, u)
    case DeleteService(a) => id == a && a in t.services && Forgets(t, t', Ref(ServiceType, a))
    case CreateServiceGroup(name) => ServiceGroupCreated(t, t', id, name)
    case UpdateServiceGroup(a, name) => id == a && ServiceGroupUpdated(t, t', a, name)
    case DeleteServiceGroup(a) => id == a && a in t.serviceGroups && Forgets(t, t', Ref(ServiceGroupType, a))
    case AddServiceToGroup(g, m) => g in t.serviceGroups && m in t.services && ServiceMemberSet(t, t', g, m, true)
    case RemoveServiceFromGroup(g, m) => ServiceMemberSet(t, t', g, m, false)
  }

  ghost predicate PolicyMeans(t: Tables, op: PolicyOp, id: int, t': Tables) {
    match op
    case CreatePolicy(subject, target, action) => RuleSet(t, t', id, subject, target, action)
    case DeletePolicy(a) =>
      id == a && a in t.rules && a !in t'.rules && OtherRulesKept(t, t', a) && t'.lastRule == t.lastRule
  }

  ghost predicate Means(parse: Origin.Parser, t: Tables, op: Op, id: int, t': Tables) {
    match op
    case Principals(p) => PrincipalMeans(t, p, id, t')
    case Objects(o) => ObjectMeans(parse, t, o, id, t')
    case Policies(p) => PolicyMeans(t, p, id, t')
  }

  lemma PrincipalSuccessMeans(t: Tables, op: PrincipalOp)
    requires CountersSound(t) && PrincipalOutcome(t, op).Success?
    ensures var c := PrincipalOutcome(t, op).value; PrincipalMeans(t, op, c.id, c.db)
  {
    match op {
      case CreateUser(u) => CreatedUser(t, u);
      case DeleteUser(a) => UserForgotten(t, a);
      case DeleteUserGroup(a) => UserGroupForgotten(t, a);
      case _ =>
    }
  }

  lemma ObjectSuccessMeans(parse: Origin.Parser, t: Tables, op: ObjectOp)
    requires CountersSound(t) && ObjectOutcome(parse, t, op).Success?
    ensures var c := ObjectOutcome(parse, t, op).value; ObjectMeans(parse, t, op, c.id, c.db)
  {
    match op {
      case CreateService(s) => CreatedService(parse, t, s);
      case UpdateService(a, u) => UpdatedService(parse, t, a, u);
      case DeleteService(a) => ServiceForgotten(t, a);
      case DeleteServiceGroup(a) => ServiceGroupForgotten(t, a);
      case _ =>
    }
  }

  /** Every operation that succeeds does to the rows, rules, memberships and ports exactly what it says,
      and answers with the id of its row; every one that fails changes nothing. */
  lemma SuccessMeans(parse: Origin.Parser, t: Tables, op: Op)
    requires Consistent(t)
    ensures match OutcomeOf(parse, t, op)
      case Success(c) => After(parse, t, op) == c.db && Means(parse, t, op, c.id, c.db)
      case Failure(_) => After(parse, t, op) == t
  {
    if OutcomeOf(parse, t, op).Success? {
      match op {
        case Principals(p) => PrincipalSuccessMeans(t, p);
        case Objects(o) => ObjectSuccessMeans(parse, t, o);
        case Policies(CreatePolicy(subject, target, action)) => PolicyStored(t, subject, target, action);
        case Policies(DeletePolicy(_)) =>
      }
    }
  }
}
