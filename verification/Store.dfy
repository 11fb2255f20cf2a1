/** The store object of daemon/store/store.go: every operation runs inside a transaction, all or
    nothing, and each subscriber hears of it once after a commit and never after a failure. */
module StoreModel {
  import opened Wrappers
  import opened Schema
  import opened StoreSpec
  import StoreTx
  import Origin

  datatype ChangeKind =
    | UsersChanged | UserGroupsChanged | ServicesChanged | ServiceGroupsChanged | PoliciesChanged | MembershipChanged

  /** One call of one subscriber. */
  datatype Delivery = Delivery(listener: nat, kind: ChangeKind)

  function KindOf(op: Op): ChangeKind {
    match op
    case Policies(_) => PoliciesChanged
    case Principals(p) =>
      if p.AddUserToGroup? || p.RemoveUserFromGroup? then MembershipChanged
      else if p.CreateUser? || p.UpdateUser? || p.DeleteUser? then UsersChanged else UserGroupsChanged
    case Objects(o) =>
      if o.AddServiceToGroup? || o.RemoveServiceFromGroup? then MembershipChanged
      else if o.CreateService? || o.UpdateService? || o.DeleteService? then ServicesChanged else ServiceGroupsChanged
  }

  /** Every subscriber once, in the order of subscription. */
  function Broadcast(listeners: seq<nat>, kind: ChangeKind): (told: seq<Delivery>)
    ensures |told| == |listeners|
    ensures forall i :: 0 <= i < |told| ==> told[i] == Delivery(listeners[i], kind)
  {
    if listeners == [] then [] else
    Broadcast(listeners[..|listeners| - 1], kind) + [Delivery(listeners[|listeners| - 1], kind)]
  }

  class Store {
    const parse: Origin.Parser
    var db: ConsistentTables
    var listeners: seq<nat>
    var delivered: seq<Delivery>

    /** The store opens whatever database it finds. */
    constructor (parse: Origin.Parser, db: ConsistentTables)
      ensures this.db == db && listeners == [] && delivered == [] && this.parse == parse
    {
      this.parse, this.db := parse, db;
      listeners, delivered := [], [];
    }

    method Subscribe(listener: nat)
      modifies this`listeners
      ensures listeners == old(listeners) + [listener]
    {
      listeners := listeners + [listener];
    }

    method Notify(kind: ChangeKind)
      modifies this`delivered
      ensures delivered == old(delivered) + Broadcast(listeners, kind)
    {
      for i := 0 to |listeners|
        invariant delivered == old(delivered) + Broadcast(listeners[..i], kind)
      {
        delivered := delivered + [Delivery(listeners[i], kind)];
        assert listeners[..i + 1][..i] == listeners[..i];
      }
      assert listeners[..|listeners|] == listeners;
    }

    /** `withTx` around the body of one operation: its working state becomes the committed state, and
        the subscribers are told, when the body succeeds; when it fails the working state is dropped,
        however much had been written to it. */
    method Perform(op: Op) returns (r: Result<int, Error>)
      modifies this`db, this`delivered
      ensures db == After(parse, old(db), op)
      ensures match OutcomeOf(parse, old(db), op)
              case Success(c) => r == Success(c.id) && delivered == old(delivered) + Broadcast(listeners, KindOf(op))
              case Failure(e) => r == Failure(e) && delivered == old(delivered)
    {
      var tx: Tables;
      tx, r := Body(parse, db, op);
      if r.Failure? { return; }
      ConsistentAfter(parse, db, op);
      db := tx;
      Notify(KindOf(op));
    }
  }

  /** The subscribers hear what changed: the tables of the other kinds are as they were, but for links to
      an entity that is gone. */
  ghost predicate ChangedOnly(kind: ChangeKind, t: Tables, t': Tables) {
    && (kind.UsersChanged? || t'.users == t.users) && (kind.UserGroupsChanged? || t'.userGroups == t.userGroups)
    && (kind.ServicesChanged? || (t'.services == t.services && t'.ports == t.ports))
    && (kind.ServiceGroupsChanged? || t'.serviceGroups == t.serviceGroups)
    && (kind.MembershipChanged? ==> t'.rules == t.rules)
    && (kind.MembershipChanged? || (t'.userMembers <= t.userMembers && t'.serviceMembers <= t.serviceMembers))
    && (kind.PoliciesChanged? || t'.rules.Keys <= t.rules.Keys)
    && (kind.PoliciesChanged? ==> t'.userMembers == t.userMembers && t'.serviceMembers == t.serviceMembers)
  }

  lemma ChangeIsOfKind(parse: Origin.Parser, t: Tables, op: Op)
    ensures ChangedOnly(KindOf(op), t, After(parse, t, op))
  {
    if OutcomeOf(parse, t, op).Success? {
      match op {
        case Principals(p) => PrincipalChangeIsOfKind(t, p);
        case Objects(o) => ObjectChangeIsOfKind(parse, t, o);
        case Policies(p) => PolicyChangeIsOfKind(t, p);
      }
    }
  }

  lemma PrincipalChangeIsOfKind(t: Tables, op: PrincipalOp)
    ensures PrincipalOutcome(t, op).Success? ==>
      ChangedOnly(KindOf(Principals(op)), t, PrincipalOutcome(t, op).value.db)
  {
  }

  lemma ObjectChangeIsOfKind(parse: Origin.Parser, t: Tables, op: ObjectOp)
    ensures ObjectOutcome(parse, t, op).Success? ==>
      ChangedOnly(KindOf(Objects(op)), t, ObjectOutcome(parse, t, op).value.db)
  {
    match op {
      case CreateService(s) => CreateChangesServices(parse, t, s);
      case UpdateService(id, u) => UpdateChangesServices(parse, t, id, u);
      case _ =>
    }
  }

  lemma CreateChangesServices(parse: Origin.Parser, t: Tables, s: ServiceInput)
    ensures var o := CreateServiceOutcome(parse, t, s); o.Success? ==> ChangedOnly(ServicesChanged, t, o.value.db)
  {
  }

  lemma UpdateChangesServices(parse: Origin.Parser, t: Tables, id: int, u: ServiceUpdate)
    ensures var o := UpdateServiceOutcome(parse, t, id, u); o.Success? ==> ChangedOnly(ServicesChanged, t, o.value.db)
  {
  }

  lemma PolicyChangeIsOfKind(t: Tables, op: PolicyOp)
    ensures PolicyOutcome(t, op).Success? ==>
      ChangedOnly(PoliciesChanged, t, PolicyOutcome(t, op).value.db)
  {
  }

  method Body(parse: Origin.Parser, db: ConsistentTables, op: Op) returns (tx: Tables, r: Result<int, Error>)
    ensures StoreTx.EndsAs(OutcomeOf(parse, db, op), tx, r)
  {
    match op {
      case Principals(p) => tx, r := PrincipalBody(db, p);
      case Objects(o) => tx, r := ObjectBody(parse, db, o);
      case Policies(CreatePolicy(subject, target, action)) =>
        tx, r := StoreTx.CreatePolicy(db, subject, target, action);
      case Policies(DeletePolicy(id)) => tx, r := StoreTx.DeletePolicy(db, id);
    }
  }

  method PrincipalBody(db: ConsistentTables, op: PrincipalOp) returns (tx: Tables, r: Result<int, Error>)
    ensures StoreTx.EndsAs(PrincipalOutcome(db, op), tx, r)
  {
    match op {
      case CreateUser(u) => tx, r := StoreTx.CreateUser(db, u);
      case UpdateUser(id, name, email, endpoint) => tx, r := StoreTx.UpdateUser(db, id, name, email, endpoint);
      case DeleteUser(id) => tx, r := StoreTx.DeleteUser(db, id);
      case CreateUserGroup(name, lanMode) => tx, r := StoreTx.CreateUserGroup(db, name, lanMode);
      case UpdateUserGroup(id, name, lan) => tx, r := StoreTx.UpdateUserGroup(db, id, name, lan);
      case DeleteUserGroup(id) => tx, r := StoreTx.DeleteUserGroup(db, id);
      case AddUserToGroup(g, m) => tx, r := StoreTx.AddUserToGroup(db, g, m);
      case RemoveUserFromGroup(g, m) => tx, r := db.(userMembers := db.userMembers - {Member(g, m)}), Success(g);
    }
  }

  method ObjectBody(parse: Origin.Parser, db: ConsistentTables, op: ObjectOp)
    returns (tx: Tables, r: Result<int, Error>)
    ensures StoreTx.EndsAs(ObjectOutcome(parse, db, op), tx, r)
  {
    match op {
      case CreateService(s) => tx, r := StoreTx.CreateService(parse, db, s);
      case UpdateService(id, u) => tx, r := StoreTx.UpdateService(parse, db, id, u);
      case DeleteService(id) => tx, r := StoreTx.DeleteService(db, id);
      case CreateServiceGroup(name) => tx, r := StoreTx.CreateServiceGroup(db, name);
      case UpdateServiceGroup(id, name) => tx, r := StoreTx.UpdateServiceGroup(db, id, name);
      case DeleteServiceGroup(id) => tx, r := StoreTx.DeleteServiceGroup(db, id);
      case AddServiceToGroup(g, m) => tx, r := StoreTx.AddServiceToGroup(db, g, m);
      case RemoveServiceFromGroup(g, m) =>
        tx, r := db.(serviceMembers := db.serviceMembers - {Member(g, m)}), Success(g);
    }
  }
}
