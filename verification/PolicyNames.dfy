/** How a policy request names its two ends: daemon/api/policies.go. */
module PolicyNames {
  import opened Wrappers
  import opened Schema
  import opened StoreSpec

  /** `nameFor`: None when the row is missing. */
  function NameFor(t: Tables, r: Ref): Option<string> {
    match r.typ
    case UserType => if r.id in t.users then Some(t.users[r.id].name) else None
    case UserGroupType => if r.id in t.userGroups then Some(t.userGroups[r.id].name) else None
    case ServiceType => if r.id in t.services then Some(t.services[r.id].name) else None
    case ServiceGroupType => if r.id in t.serviceGroups then Some(t.serviceGroups[r.id].name) else None
    case OtherType(_) => None
  }

  predicate IsPrincipal(e: EntityType) { e.UserType? || e.UserGroupType? }
  predicate IsObject(e: EntityType) { e.ServiceType? || e.ServiceGroupType? }

  function IdsOf(t: Tables, e: EntityType): set<int> {
    match e
    case UserType => t.users.Keys
    case UserGroupType => t.userGroups.Keys
    case ServiceType => t.services.Keys
    case ServiceGroupType => t.serviceGroups.Keys
    case OtherType(_) => {}
  }

  /** Names are unique within a name space. */
  lemma NamesWithinSpace(t: ConsistentTables, a: Ref, b: Ref)
    requires NameFor(t, a).Some? && NameFor(t, a) == NameFor(t, b) && IsPrincipal(a.typ) == IsPrincipal(b.typ)
    ensures a == b
  {
  }

  ghost predicate NoneNamed(t: Tables, e: EntityType, name: string) {
    forall id :: NameFor(t, Ref(e, id)) != Some(name)
  }

  /** `GetUserByName` and its three siblings. */
  method FindByName(t: Tables, e: EntityType, name: string) returns (hit: Option<int>)
    ensures hit.Some? ==> NameFor(t, Ref(e, hit.value)) == Some(name)
    ensures hit.None? ==> NoneNamed(t, e, name)
  {
    var todo := IdsOf(t, e);
    while todo != {}
      invariant forall id :: NameFor(t, Ref(e, id)) == Some(name) ==> id in todo
    {
      var id := Pick(todo);
      if NameFor(t, Ref(e, id)) == Some(name) { return Some(id); }
      todo := todo - {id};
    }
    return None;
  }

  /** The end a name stands for when it names the subject: a principal. */
  ghost predicate NamesSubject(t: Tables, name: string, r: Ref) {
    IsPrincipal(r.typ) && NameFor(t, r) == Some(name)
  }

  /** When it names the object: a service or service group if there is one, or else a principal. */
  ghost predicate NamesObject(t: Tables, name: string, r: Ref) {
    && NameFor(t, r) == Some(name)
    && (IsPrincipal(r.typ) ==> NoneNamed(t, ServiceType, name) && NoneNamed(t, ServiceGroupType, name))
  }

  /** A request that gives both type and id is taken at its word; otherwise the name decides. */
  predicate GivesRef(typ: EntityType, id: int) { id != 0 && typ != OtherType("") }

  method ResolveSubject(t: Tables, typ: EntityType, id: int, name: string) returns (r: Result<Ref, Error>)
    ensures GivesRef(typ, id) ==> r == Success(Ref(typ, id))
    ensures !GivesRef(typ, id) && name == "" ==> r == Failure(InvalidInput)
    ensures !GivesRef(typ, id) && name != "" ==>
      match r
      case Success(e) => NamesSubject(t, name, e)
      case Failure(e) => e == NotFound && forall s :: !NamesSubject(t, name, s)
  {
    if id != 0 && typ != OtherType("") { return Success(Ref(typ, id)); }
    if name == "" { return Failure(InvalidInput); }
    var hit := FindByName(t, UserType, name);
    if hit.Some? { return Success(Ref(UserType, hit.value)); }
    hit := FindByName(t, UserGroupType, name);
    if hit.Some? { return Success(Ref(UserGroupType, hit.value)); }
    return Failure(NotFound);
  }

  method ResolveObject(t: Tables, typ: EntityType, id: int, name: string) returns (r: Result<Ref, Error>)
    ensures GivesRef(typ, id) ==> r == Success(Ref(typ, id))
    ensures !GivesRef(typ, id) && name == "" ==> r == Failure(InvalidInput)
    ensures !GivesRef(typ, id) && name != "" ==>
      match r
      case Success(e) => NamesObject(t, name, e)
      case Failure(e) => e == NotFound && forall s :: !NamesObject(t, name, s)
  {
    if id != 0 && typ != OtherType("") { return Success(Ref(typ, id)); }
    if name == "" { return Failure(InvalidInput); }
    var hit := FindByName(t, ServiceType, name);
    if hit.Some? { return Success(Ref(ServiceType, hit.value)); }
    hit := FindByName(t, ServiceGroupType, name);
    if hit.Some? { return Success(Ref(ServiceGroupType, hit.value)); }
    hit := FindByName(t, UserType, name);
    if hit.Some? { return Success(Ref(UserType, hit.value)); }
    hit := FindByName(t, UserGroupType, name);
    if hit.Some? { return Success(Ref(UserGroupType, hit.value)); }
    return Failure(NotFound);
  }

  /** A name stands for at most one end, and every principal can be named as a subject. */
  lemma SubjectNamesAreExact(t: ConsistentTables, r: Ref, s: Ref)
    requires NameFor(t, r).Some? && IsPrincipal(r.typ)
    ensures NamesSubject(t, NameFor(t, r).value, s) <==> s == r
  {
    if NamesSubject(t, NameFor(t, r).value, s) { NamesWithinSpace(t, r, s); }
  }

  /** As an object everything can be named but a principal whose name a service or service group also
      bears: that name stands for the service. */
  lemma ObjectNamesAreExact(t: ConsistentTables, r: Ref)
    requires NameFor(t, r).Some?
    ensures var name := NameFor(t, r).value;
      && (forall a, b :: NamesObject(t, name, a) && NamesObject(t, name, b) ==> a == b)
      && (NamesObject(t, name, r) <==>
        IsObject(r.typ) || (NoneNamed(t, ServiceType, name) && NoneNamed(t, ServiceGroupType, name)))
  {
    var name := NameFor(t, r).value;
    forall a, b | NamesObject(t, name, a) && NamesObject(t, name, b) ensures a == b {
      assert NameFor(t, Ref(a.typ, a.id)) == Some(name) && NameFor(t, Ref(b.typ, b.id)) == Some(name);
      NamesWithinSpace(t, a, b);
    }
  }

  /** Ends that were looked up by name always exist, so the store never misses them. */
  lemma NamedEndsExist(t: ConsistentTables, subjectName: string, objectName: string, subject: Ref, target: Ref,
                       action: Action)
    requires NamesSubject(t, subjectName, subject) && NamesObject(t, objectName, target)
    ensures CreatePolicyOutcome(t, subject, target, action).Success? <==> ValidAction(action)
  {
  }
}
