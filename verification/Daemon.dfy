/** The control plane put together: the subscriber that daemon/runtime/daemon.go registers with the
    store, and what every run of store operations keeps true of everything it drives. */
module DaemonModel {
  import opened Wrappers
  import opened Text
  import opened Keys
  import opened Schema
  import opened StoreSpec
  import opened StoreModel
  import opened StoreLaws
  import opened PolicyIndex
  import opened Resolver
  import opened Refinement
  import opened Flows
  import opened WgDevice
  import opened WgServerModel
  import opened Listeners
  import Origin

  /** An index and the committed tables it is the denormalisation of. */
  datatype Basis = Basis(idx: Index, db: Tables)
  type CurrentIndex = b: Basis | Reflects(b.idx, b.db) witness Basis(EMPTY_INDEX, EMPTY)

  // ----- what the operations must respect -------------------------------------

  /** A user whose public key decodes has a proper preshared key and a one-line address. */
  ghost predicate Proper(publicKey: KeyText, presharedKey: KeyText, ip: string) {
    publicKey.GoodKey? ==> !presharedKey.BadKey? && OneLine(ip)
  }

  /** Every user is proper, and no two share a public key that decodes. */
  ghost predicate KeysUsable(users: map<int, User>) {
    && (forall a :: a in users ==> Proper(users[a].publicKey, users[a].presharedKey, users[a].ip))
    && (forall a, b ::
          a in users && b in users && users[a].publicKey.GoodKey? && users[a].publicKey == users[b].publicKey ==>
          a == b)
  }

  /** A new user is proper and brings a public key that no current user has. */
  ghost predicate BringsProperKeys(t: Tables, op: Op) {
    op.Principals? && op.principal.CreateUser? ==>
      var u := op.principal.user;
      && Proper(u.publicKey, u.presharedKey, u.ip)
      && forall b :: b in t.users ==> t.users[b].publicKey != u.publicKey
  }

  /** No service gets another address. */
  predicate KeepsAddresses(t: Tables, op: Op) {
    op.Objects? && op.obj.UpdateService? && op.obj.id in t.services && op.obj.update.ip.Some? ==>
      op.obj.update.ip.value == t.services[op.obj.id].ip
  }

  // ----- users ----------------------------------------------------------------

  /** Whoever is new has a key of its own. */
  ghost predicate NewKeysFresh(before: map<int, User>, after: map<int, User>) {
    forall a, b :: a in after && a !in before && b in before ==> after[a].publicKey != before[b].publicKey
  }

  lemma OnlyCreateAddsUsers(t: Tables, op: PrincipalOp)
    requires PrincipalOutcome(t, op).Success?
    ensures op.CreateUser? || PrincipalOutcome(t, op).value.db.users.Keys <= t.users.Keys
  {
  }

  lemma CreatedUser(t: Tables, u: UserInput)
    requires CreateUserOutcome(t, u).Success? && KeysUsable(t.users) && BringsProperKeys(t, Principals(CreateUser(u)))
    requires IdsBounded(t.users.Keys, t.lastUser)
    ensures KeysUsable(CreateUserOutcome(t, u).value.db.users)
      && NewKeysFresh(t.users, CreateUserOutcome(t, u).value.db.users)
  {
  }

  lemma FewerUsers(t: Tables, t': Tables)
    requires KeysUsable(t.users) && CredentialsKept(t, t') && t'.users.Keys <= t.users.Keys
    ensures KeysUsable(t'.users) && NewKeysFresh(t.users, t'.users)
  {
  }

  lemma UsersStayUsable(parse: Origin.Parser, t: Tables, op: Op)
    requires Consistent(t) && KeysUsable(t.users) && BringsProperKeys(t, op)
    ensures KeysUsable(After(parse, t, op).users) && NewKeysFresh(t.users, After(parse, t, op).users)
  {
    var t' := After(parse, t, op);
    if OutcomeOf(parse, t, op).Success? && op.Principals? && op.principal.CreateUser? {
      CreatedUser(t, op.principal.user);
    } else {
      StepGrows(parse, t, op, Users);
      NoNewUsers(parse, t, op);
      FewerUsers(t, t');
    }
  }

  lemma NoNewUsers(parse: Origin.Parser, t: Tables, op: Op)
    requires Consistent(t) && (OutcomeOf(parse, t, op).Success? ==> !(op.Principals? && op.principal.CreateUser?))
    ensures After(parse, t, op).users.Keys <= t.users.Keys
  {
    if OutcomeOf(parse, t, op).Success? {
      match op {
        case Principals(p) => OnlyCreateAddsUsers(t, p);
        case Objects(o) => ObjectLeavesUsers(parse, t, o);
        case Policies(p) => PolicyGrows(t, p, Users);
      }
    }
  }

  /** The users of an index are the rows of a table. */
  ghost predicate SameUsers(snaps: map<int, UserSnapshot>, users: map<int, User>) {
    && snaps.Keys == users.Keys
    && forall a :: a in snaps ==>
      snaps[a].ip == users[a].ip && snaps[a].publicKey == users[a].publicKey
        && snaps[a].presharedKey == users[a].presharedKey
  }

  lemma UsersOf(b: CurrentIndex)
    ensures SameUsers(b.idx.userById, b.db.users)
  {
    var snaps, users := b.idx.userById, b.db.users;
    forall a | a in snaps
      ensures snaps[a].ip == users[a].ip && snaps[a].publicKey == users[a].publicKey
        && snaps[a].presharedKey == users[a].presharedKey
    {
      assert IsUserSnap(b.db, snaps[a]) && snaps[a].id == a;
    }
  }

  lemma UsableIsWellFormed(snaps: map<int, UserSnapshot>, t: Tables)
    requires SameUsers(snaps, t.users) && KeysUsable(t.users) && AddressesUnique(t.users, t.services)
    ensures WellFormed(snaps) && forall known :: NewPsksDecode(known, snaps)
  {
  }

  /** What the device carries for the old users is right for every user that stays. */
  lemma CarriedPeersAgree(device: map<Key, PeerConf>, before: map<int, UserSnapshot>, after: map<int, UserSnapshot>,
                          t: Tables, t': Tables)
    requires SameUsers(before, t.users) && SameUsers(after, t'.users) && Carries(device, before)
    requires KeysUsable(t.users) && CredentialsKept(t, t') && NewKeysFresh(t.users, t'.users)
    ensures WgServerModel.KeptAgree(device, after)
  {
    forall a | a in after && after[a].publicKey.GoodKey? && after[a].publicKey.key in device
      ensures device[after[a].publicKey.key] == Conf(after[a])
    {
      var b :| b in before && before[b].publicKey == after[a].publicKey;
      assert a in t.users && t.users[a].publicKey == t.users[b].publicKey;
      assert a == b;
    }
  }

  // ----- services -------------------------------------------------------------

  ghost predicate SameIps(services: map<int, Service>, services': map<int, Service>) {
    forall id :: id in services && id in services' ==> services'[id].ip == services[id].ip
  }

  lemma AddressesKept(parse: Origin.Parser, t: Tables, op: Op)
    requires CountersSound(t) && KeepsAddresses(t, op)
    ensures SameIps(t.services, After(parse, t, op).services)
  {
    match op {
      case Objects(UpdateService(id, u)) => UpdateKeepsAddresses(parse, t, id, u);
      case Objects(o) => ObjectsKeepAddresses(parse, t, o);
      case Principals(o) => PrincipalsKeepAddresses(t, o);
      case Policies(_) =>
    }
  }

  lemma PrincipalsKeepAddresses(t: Tables, op: PrincipalOp)
    ensures PrincipalOutcome(t, op).Success? ==> SameIps(t.services, PrincipalOutcome(t, op).value.db.services)
  {
  }

  lemma UpdateKeepsAddresses(parse: Origin.Parser, t: Tables, id: int, u: ServiceUpdate)
    requires KeepsAddresses(t, Objects(UpdateService(id, u)))
    ensures var o := UpdateServiceOutcome(parse, t, id, u); o.Success? ==> SameIps(t.services, o.value.db.services)
  {
  }

  lemma ObjectsKeepAddresses(parse: Origin.Parser, t: Tables, op: ObjectOp)
    requires CountersSound(t) && !op.UpdateService?
    ensures ObjectOutcome(parse, t, op).Success? ==> SameIps(t.services, ObjectOutcome(parse, t, op).value.db.services)
  {
  }

  lemma SameVips(before: CurrentIndex, after: CurrentIndex)
    requires SameIps(before.db.services, after.db.services)
    ensures SameAddresses(before.idx.serviceById, after.idx.serviceById)
  {
    VipsOf(before);
    VipsOf(after);
  }

  lemma VipsOf(b: CurrentIndex)
    ensures forall id :: id in b.idx.serviceById ==>
      id in b.db.services && b.idx.serviceById[id].ip == b.db.services[id].ip
  {
    forall id | id in b.idx.serviceById
      ensures id in b.db.services && b.idx.serviceById[id].ip == b.db.services[id].ip
    {
      assert IsServiceSnap(b.db, b.db, b.idx.serviceById[id]) && b.idx.serviceById[id].id == id;
    }
  }

  /** After one proper operation the new users are well-formed and those that stay are right already. */
  lemma PeersFollow(parse: Origin.Parser, t: ConsistentTables, op: Op, before: CurrentIndex, after: CurrentIndex,
                    device: map<Key, PeerConf>)
    requires before.db == t && after.db == After(parse, t, op)
    requires KeysUsable(t.users) && BringsProperKeys(t, op) && Carries(device, before.idx.userById)
    ensures KeysUsable(after.db.users) && WellFormed(after.idx.userById)
    ensures WgServerModel.KeptAgree(device, after.idx.userById)
      && forall known :: NewPsksDecode(known, after.idx.userById)
  {
    ConsistentAfter(parse, t, op);
    UsersStayUsable(parse, t, op);
    StepGrows(parse, t, op, Users);
    UsersOf(before);
    UsersOf(after);
    UsableIsWellFormed(after.idx.userById, after.db);
    CarriedPeersAgree(device, before.idx.userById, after.idx.userById, t, after.db);
  }

  // ----- the subscriber -------------------------------------------------------

  /** The device after `ApplyPeers`, which skips peers it already recorded. */
  ghost predicate PeersPushed(users: map<int, UserSnapshot>, peers: set<Key>, device: map<Key, PeerConf>,
                              peers': set<Key>, device': map<Key, PeerConf>) {
    WellFormed(users) && InStep(peers, device) ==>
      && (InStep(peers', device') <==> NewPsksDecode(peers, users))
      && (Carries(device', users) <==> NewPsksDecode(peers, users) && WgServerModel.KeptAgree(device, users))
  }

  /** The stack after `reconcile`, which skips services it already recorded. */
  ghost predicate VipsPushed(net: Netstack, services: Services, current: Recorded, current': Recorded,
                             stack': set<Addr>) {
    && (Agrees(net, current', services) <==> Listeners.KeptAgree(net, current, services))
    && (Serves(net, stack', services) <==> WillServe(net, current, services))
  }

  /** Everything the control plane holds. */
  datatype Plane = Plane(db: ConsistentTables, published: CurrentIndex, flows: map<nat, Flow>,
                         peers: set<Key>, device: map<Key, PeerConf>, current: Recorded, stack: set<Addr>)

  /** What `Daemon.OnChange` does after a commit. */
  ghost predicate Notified(net: Netstack, s: Plane, s': Plane) {
    var idx := s'.published.idx;
    && s'.published.db == s'.db
    && s'.flows == s.flows - DeniedIds(idx, s.flows)
    && PeersPushed(idx.userById, s.peers, s.device, s'.peers, s'.device)
    && VipsPushed(net, idx.serviceById, s.current, s'.current, s'.stack)
  }

  method BuildCurrent(t: ConsistentTables) returns (idx: Index)
    ensures Reflects(idx, t)
  {
    idx := Build(Quiet(t));
  }

  class Daemon {
    const store: Store
    const flows: FlowTable
    const wg: WgServer
    const listeners: ListenerManager
    /** The published index. */
    var holder: Index
    /** What it was built from. */
    ghost var published: CurrentIndex

    constructor (store: Store, net: Netstack)
      ensures this.store == store && fresh(flows) && fresh(wg) && fresh(listeners)
      ensures published == Basis(holder, store.db)
      ensures flows.Valid() && !flows.locked && flows.flows == map[]
      ensures wg.peers == {} && wg.device == map[]
      ensures listeners.Valid() && listeners.net == net && listeners.current == map[]
    {
      this.store := store;
      flows := new FlowTable();
      wg := new WgServer();
      listeners := new ListenerManager(net);
      new;
      Publish();
    }

    ghost function View(): Plane
      reads this, store, flows, wg, listeners
    {
      Plane(store.db, published, flows.flows, wg.peers, wg.device, listeners.current, listeners.stack)
    }

    /** Build the index of the committed state and publish it. */
    method Publish()
      modifies this`holder, this`published
      ensures published == Basis(holder, store.db)
    {
      holder := BuildCurrent(store.db);
      published := Basis(holder, store.db);
    }

    /** The subscriber: rebuild, publish, reap, then bring peers and addresses in step. */
    method OnChange()
      requires flows.Valid() && !flows.locked && listeners.Valid()
      modifies this`holder, this`published, flows, wg, listeners`stack, listeners`current
      ensures published.idx == holder && flows.Valid() && !flows.locked && listeners.Valid()
      ensures Notified(listeners.net, old(View()), View())
    {
      Publish();
      Drive();
    }

    /** Close what the published index denies, and bring peers and addresses in step with it. */
    method Drive()
      requires flows.Valid() && !flows.locked && listeners.Valid()
      modifies flows, wg, listeners`stack, listeners`current
      ensures flows.Valid() && !flows.locked && listeners.Valid()
      ensures flows.flows == old(flows.flows) - DeniedIds(holder, old(flows.flows))
      ensures PeersPushed(holder.userById, old(wg.peers), old(wg.device), wg.peers, wg.device)
      ensures VipsPushed(listeners.net, holder.serviceById, old(listeners.current), listeners.current, listeners.stack)
    {
      ReapDenied();
      PushPeers();
      PushVips();
    }

    method ReapDenied()
      requires flows.Valid() && !flows.locked
      modifies flows
      ensures flows.Valid() && !flows.locked
      ensures flows.flows == old(flows.flows) - DeniedIds(holder, old(flows.flows))
    {
      var _ := flows.Reap(holder, map[]);
    }

    method PushPeers()
      modifies wg
      ensures PeersPushed(holder.userById, old(wg.peers), old(wg.device), wg.peers, wg.device)
    {
      var _ := wg.ApplyPeers(holder.userById);
    }

    method PushVips()
      requires listeners.Valid()
      modifies listeners`stack, listeners`current
      ensures listeners.Valid()
      ensures VipsPushed(listeners.net, holder.serviceById, old(listeners.current), listeners.current, listeners.stack)
    {
      listeners.Reconcile(holder.serviceById);
    }

    /** A store operation with its notification: the commit step of the runs below. */
    method Commit(op: Op) returns (r: Result<int, Error>)
      requires flows.Valid() && !flows.locked && listeners.Valid()
      modifies this`holder, this`published, store`db, store`delivered, flows, wg, listeners`stack, listeners`current
      ensures flows.Valid() && !flows.locked && listeners.Valid()
      ensures Step(store.parse, listeners.net, old(View()), Event.Commit(op), View())
    {
      r := store.Perform(op);
      if r.Success? { OnChange(); }
    }
  }

  // ----- runs -----------------------------------------------------------------

  datatype Event =
    | Commit(op: Op)
    | Connect(srcIp: string, vip: string, port: int, protocol: string)
    | Disconnect(id: nat)

  /** The flow a connection opens if the published index allows it. */
  ghost function Opened(idx: Index, srcIp: string, vip: string, port: int, protocol: string): Option<Flow> {
    var v := DecideService(idx, srcIp, vip, port, protocol);
    if v.decision == Allow && v.user.Some? && v.service.Some?
    then Some(Flow(v.user.value.id, Ref(ServiceType, v.service.value.id), port, protocol)) else None
  }

  ghost predicate Step(parse: Origin.Parser, net: Netstack, s: Plane, e: Event, s': Plane) {
    match e
    case Commit(op) =>
      s'.db == After(parse, s.db, op) && if OutcomeOf(parse, s.db, op).Success? then Notified(net, s, s') else s' == s
    case Connect(srcIp, vip, port, protocol) =>
      (match Opened(s.published.idx, srcIp, vip, port, protocol)
       case Some(f) => exists id: nat :: id !in s.flows && s' == s.(flows := s.flows[id := f])
       case None => s' == s)
    case Disconnect(id) => s' == s.(flows := s.flows - {id})
  }

  /** A run of events, one state more than events. */
  ghost predicate IsRun<S(!new), E(!new)>(step: (S, E, S) -> bool, states: seq<S>, events: seq<E>) {
    |states| == |events| + 1
      && forall i {:trigger events[i]} :: 0 <= i < |events| ==> step(states[i], events[i], states[i + 1])
  }

  /** What holds in one state and is kept by every step holds in every later state. */
  lemma {:induction false} InvariantFrom<S(!new), E(!new)>(step: (S, E, S) -> bool, inv: S -> bool,
                                                            states: seq<S>, events: seq<E>, n: nat, m: nat)
    requires IsRun(step, states, events) && n <= m <= |events| && inv(states[n])
    requires forall s, e, s' :: step(s, e, s') && inv(s) ==> inv(s')
    ensures inv(states[m])
    decreases m
  {
    if n == m {
    } else {
      InvariantFrom(step, inv, states, events, n, m - 1);
      var e := events[m - 1];
      assert step(states[m - 1], e, states[m]);
    }
  }

  lemma Invariant<S(!new), E(!new)>(step: (S, E, S) -> bool, inv: S -> bool, states: seq<S>, events: seq<E>, n: nat)
    requires IsRun(step, states, events) && n <= |events| && inv(states[0])
    requires forall s, e, s' :: step(s, e, s') && inv(s) ==> inv(s')
    ensures inv(states[n])
  {
    InvariantFrom(step, inv, states, events, 0, n);
  }

  /** What one event establishes and every step keeps holds in every state after that event. */
  lemma InvariantSince<S(!new), E(!new)>(step: (S, E, S) -> bool, inv: S -> bool, states: seq<S>, events: seq<E>,
                                         n: nat, m: nat, e: E)
    requires IsRun(step, states, events) && n < m <= |events| && events[n] == e
    requires forall s' :: step(states[n], e, s') ==> inv(s')
    requires forall s, e, s' :: step(s, e, s') && inv(s) ==> inv(s')
    ensures inv(states[m])
  {
    StepOfRun(step, states, events, n, e);
    InvariantFrom(step, inv, states, events, n + 1, m);
  }

  /** What one event establishes between two states that have the invariant holds around each such event. */
  lemma StepWithin<S(!new), E(!new)>(step: (S, E, S) -> bool, inv: S -> bool, post: (S, S) -> bool,
                                     states: seq<S>, events: seq<E>, n: nat, e: E)
    requires IsRun(step, states, events) && n < |events| && events[n] == e && inv(states[0])
    requires forall s, e, s' :: step(s, e, s') && inv(s) ==> inv(s')
    requires forall s, s' :: step(s, e, s') && inv(s) && inv(s') ==> post(s, s')
    ensures post(states[n], states[n + 1])
  {
    Invariant(step, inv, states, events, n);
    StepOfRun(step, states, events, n, e);
  }

  lemma StepOfRun<S(!new), E(!new)>(step: (S, E, S) -> bool, states: seq<S>, events: seq<E>, n: nat, e: E)
    requires IsRun(step, states, events) && n < |events| && e == events[n]
    ensures step(states[n], e, states[n + 1])
  {
  }

  ghost predicate AllAllowed(idx: Index, flows: map<nat, Flow>) {
    forall id :: id in flows ==> FlowAllowed(idx, flows[id])
  }

  /** The published index is that of the committed state, and it allows every live flow. */
  ghost predicate InSync(s: Plane) {
    s.published.db == s.db && AllAllowed(s.published.idx, s.flows)
  }

  /** The device carries exactly the users. */
  ghost predicate PeersInSync(s: Plane) {
    KeysUsable(s.db.users) && InStep(s.peers, s.device) && Carries(s.device, s.published.idx.userById)
  }

  /** The stack carries exactly the service addresses. */
  ghost predicate VipsInSync(net: Netstack, s: Plane) {
    Agrees(net, s.current, s.published.idx.serviceById) && Serves(net, s.stack, s.published.idx.serviceById)
  }

  /** The daemon as it starts on whatever database it finds: its first peers and addresses are pushed
      into an empty device and a bare stack, and nobody is connected. */
  ghost predicate Started(net: Netstack, s: Plane) {
    Notified(net, Plane(s.db, s.published, map[], {}, map[], map[], net.base), s)
  }

  lemma NothingToPush(net: Netstack)
    ensures PeersPushed(map[], {}, map[], {}, map[]) && VipsPushed(net, map[], map[], map[], net.base)
  {
  }

  /** On a database without users and services the daemon starts with nothing to push. */
  lemma BareStart(net: Netstack, db: ConsistentTables, b: CurrentIndex)
    requires b.db == db && b.idx.userById == map[] && b.idx.serviceById == map[]
    ensures Started(net, Plane(db, b, map[], {}, map[], map[], net.base))
  {
    NothingToPush(net);
    var none: map<nat, Flow> := map[];
    assert none - DeniedIds(b.idx, none) == none;
  }

  lemma FreshPeers(users: map<int, UserSnapshot>, peers': set<Key>, device': map<Key, PeerConf>)
    requires PeersPushed(users, {}, map[], peers', device') && WellFormed(users) && NewPsksDecode({}, users)
    ensures InStep(peers', device') && Carries(device', users)
  {
  }

  lemma StartsInSync(net: Netstack, s: Plane)
    requires Started(net, s)
    ensures InSync(s) && VipsInSync(net, s)
  {
  }

  lemma StartsWithPeers(net: Netstack, s: Plane)
    requires Started(net, s) && KeysUsable(s.db.users)
    ensures PeersInSync(s)
  {
    UsersOf(s.published);
    UsableIsWellFormed(s.published.idx.userById, s.db);
    FreshPeers(s.published.idx.userById, s.peers, s.device);
  }

  lemma OpenedIsAllowed(b: CurrentIndex, srcIp: string, vip: string, port: int, protocol: string)
    ensures var f := Opened(b.idx, srcIp, vip, port, protocol); f.Some? ==> FlowAllowed(b.idx, f.value)
  {
    if Opened(b.idx, srcIp, vip, port, protocol).Some? {
      AdmittedPassesRecheck(b.idx, srcIp, vip, port, protocol);
    }
  }

  lemma FlowsStayAllowed(idx: Index, idx': Index, flows: map<nat, Flow>, id: nat, f: Flow)
    requires AllAllowed(idx, flows)
    ensures AllAllowed(idx', flows - DeniedIds(idx', flows)) && AllAllowed(idx, flows - {id})
    ensures FlowAllowed(idx, f) ==> AllAllowed(idx, flows[id := f])
  {
  }

  lemma StepInSync(parse: Origin.Parser, net: Netstack, s: Plane, e: Event, s': Plane)
    requires InSync(s) && Step(parse, net, s, e, s')
    ensures InSync(s')
  {
    var f := Flow(0, Ref(UserType, 0), 0, "");
    match e {
      case Commit(_) =>
        FlowsStayAllowed(s.published.idx, s'.published.idx, s.flows, 0, f);
      case Connect(srcIp, vip, port, protocol) =>
        var found := Opened(s.published.idx, srcIp, vip, port, protocol);
        OpenedIsAllowed(s.published, srcIp, vip, port, protocol);
        if found.Some? {
          var id: nat :| id !in s.flows && s' == s.(flows := s.flows[id := found.value]);
          FlowsStayAllowed(s.published.idx, s'.published.idx, s.flows, id, found.value);
        }
      case Disconnect(id) =>
        FlowsStayAllowed(s.published.idx, s'.published.idx, s.flows, id, f);
    }
  }

  lemma StepPeers(parse: Origin.Parser, net: Netstack, s: Plane, e: Event, s': Plane)
    requires InSync(s) && PeersInSync(s) && Step(parse, net, s, e, s')
    requires e.Commit? ==> BringsProperKeys(s.db, e.op)
    ensures PeersInSync(s')
  {
    if e.Commit? && s' != s {
      PeersFollow(parse, s.db, e.op, s.published, s'.published, s.device);
    }
  }

  lemma StepVips(parse: Origin.Parser, net: Netstack, s: Plane, e: Event, s': Plane)
    requires InSync(s) && VipsInSync(net, s) && Step(parse, net, s, e, s')
    requires e.Commit? ==> KeepsAddresses(s.db, e.op)
    ensures VipsInSync(net, s')
  {
    if e.Commit? && s' != s {
      AddressesKept(parse, s.db, e.op);
      SameVips(s.published, s'.published);
      SteadyKept(net, s.current, s.published.idx.serviceById, s'.published.idx.serviceById);
    }
  }

  /** Steps in general; those whose new users bring proper keys; those that keep service addresses. */
  ghost function AnyStep(parse: Origin.Parser, net: Netstack): (Plane, Event, Plane) -> bool {
    (s: Plane, e: Event, s': Plane) => Step(parse, net, s, e, s')
  }

  ghost function ProperStep(parse: Origin.Parser, net: Netstack): (Plane, Event, Plane) -> bool {
    (s: Plane, e: Event, s': Plane) => Step(parse, net, s, e, s') && (e.Commit? ==> BringsProperKeys(s.db, e.op))
  }

  ghost function SteadyStep(parse: Origin.Parser, net: Netstack): (Plane, Event, Plane) -> bool {
    (s: Plane, e: Event, s': Plane) => Step(parse, net, s, e, s') && (e.Commit? ==> KeepsAddresses(s.db, e.op))
  }

  /** In every state of every run the published index is that of the committed state, and it allows
      every live flow. */
  lemma RunInSync(parse: Origin.Parser, net: Netstack, states: seq<Plane>, events: seq<Event>, n: nat)
    requires IsRun(AnyStep(parse, net), states, events) && Started(net, states[0]) && n <= |events|
    ensures InSync(states[n])
  {
    var inv := (s: Plane) => InSync(s);
    StartsInSync(net, states[0]);
    forall s, e, s' | AnyStep(parse, net)(s, e, s') && inv(s) ensures inv(s') {
      StepInSync(parse, net, s, e, s');
    }
    Invariant(AnyStep(parse, net), inv, states, events, n);
  }

  lemma ProperStepKeeps(parse: Origin.Parser, net: Netstack)
    ensures forall s, e, s' :: ProperStep(parse, net)(s, e, s') && InSync(s) && PeersInSync(s) ==>
      InSync(s') && PeersInSync(s')
  {
    forall s, e, s' | ProperStep(parse, net)(s, e, s') && InSync(s) && PeersInSync(s)
      ensures InSync(s') && PeersInSync(s')
    {
      StepInSync(parse, net, s, e, s');
      StepPeers(parse, net, s, e, s');
    }
  }

  /** As long as every new user brings proper keys, the device carries exactly the users. */
  lemma RunKeepsPeers(parse: Origin.Parser, net: Netstack, states: seq<Plane>, events: seq<Event>, n: nat)
    requires IsRun(ProperStep(parse, net), states, events) && Started(net, states[0]) && n <= |events|
    requires KeysUsable(states[0].db.users)
    ensures InSync(states[n]) && PeersInSync(states[n])
  {
    var inv := (s: Plane) => InSync(s) && PeersInSync(s);
    StartsInSync(net, states[0]);
    StartsWithPeers(net, states[0]);
    ProperStepKeeps(parse, net);
    Invariant(ProperStep(parse, net), inv, states, events, n);
  }

  /** As long as no service changes its address, the stack carries exactly the service addresses. */
  lemma RunKeepsVips(parse: Origin.Parser, net: Netstack, states: seq<Plane>, events: seq<Event>, n: nat)
    requires IsRun(SteadyStep(parse, net), states, events) && Started(net, states[0]) && n <= |events|
    ensures VipsInSync(net, states[n])
  {
    var inv := (s: Plane) => InSync(s) && VipsInSync(net, s);
    StartsInSync(net, states[0]);
    forall s, e, s' | SteadyStep(parse, net)(s, e, s') && inv(s) ensures inv(s') {
      StepInSync(parse, net, s, e, s');
      StepVips(parse, net, s, e, s');
    }
    Invariant(SteadyStep(parse, net), inv, states, events, n);
  }

  /** After every commit of every run, whatever it changed: the stack carries exactly the service addresses
      if and only if the record it started from allowed that. */
  lemma RunServesIff(parse: Origin.Parser, net: Netstack, states: seq<Plane>, events: seq<Event>, n: nat)
    requires IsRun(AnyStep(parse, net), states, events) && n < |events|
    requires events[n].Commit? && OutcomeOf(parse, states[n].db, events[n].op).Success?
    ensures var services := states[n + 1].published.idx.serviceById;
      Serves(net, states[n + 1].stack, services) <==> WillServe(net, states[n].current, services)
  {
    assert AnyStep(parse, net)(states[n], events[n], states[n + 1]);
  }

  /** In every state of every run, for every source, address, port and protocol, the published index
      decides as the committed tables do. */
  lemma RunDecidesByTables(parse: Origin.Parser, net: Netstack, states: seq<Plane>, events: seq<Event>, n: nat,
                           srcIp: string, vip: string, port: int, protocol: string)
    requires IsRun(AnyStep(parse, net), states, events) && Started(net, states[0]) && n <= |events|
    ensures DecideService(states[n].published.idx, srcIp, vip, port, protocol).decision == Allow
       <==> TableAllowsService(states[n].db, srcIp, vip, port, protocol)
  {
    RunInSync(parse, net, states, events, n);
    IndexDecidesByTables(states[n].db, states[n].published, srcIp, vip, port, protocol);
  }

  /** And between users. */
  lemma RunDecidesPeersByTables(parse: Origin.Parser, net: Netstack, states: seq<Plane>, events: seq<Event>, n: nat,
                                srcIp: string, dstIp: string)
    requires IsRun(AnyStep(parse, net), states, events) && Started(net, states[0]) && n <= |events|
    ensures DecidePeer(states[n].published.idx, srcIp, dstIp).decision == Allow <==>
      TableAllowsPeer(states[n].db, srcIp, dstIp)
  {
    RunInSync(parse, net, states, events, n);
    IndexDecidesPeersByTables(states[n].db, states[n].published, srcIp, dstIp);
  }

  lemma IndexDecidesPeersByTables(t: ConsistentTables, b: CurrentIndex, srcIp: string, dstIp: string)
    requires b.db == t
    ensures DecidePeer(b.idx, srcIp, dstIp).decision == Allow <==> TableAllowsPeer(t, srcIp, dstIp)
  {
    IndexRefinesPeers(b.idx, t, srcIp, dstIp);
  }

  lemma IndexDecidesByTables(t: ConsistentTables, b: CurrentIndex, srcIp: string, vip: string, port: int,
                             protocol: string)
    requires b.db == t
    ensures DecideService(b.idx, srcIp, vip, port, protocol).decision == Allow <==>
      TableAllowsService(t, srcIp, vip, port, protocol)
  {
    IndexRefinesTables(b.idx, t, srcIp, vip, port, protocol);
  }

  // ----- a deleted user -------------------------------------------------------

  ghost predicate UserGone(t: Tables, id: int) { id !in t.users && id <= t.lastUser }

  lemma GoneAfter(parse: Origin.Parser, t: Tables, op: Op, id: int)
    requires Consistent(t) && UserGone(t, id)
    ensures UserGone(After(parse, t, op), id)
  {
    StepGrows(parse, t, op, Users);
    GrowsWithout(t, After(parse, t, op), id);
  }

  lemma GrowsWithout(t: Tables, t': Tables, id: int)
    requires Grows(t, t', Users) && UserGone(t, id)
    ensures UserGone(t', id)
  {
    assert id in Ids(t', Users) <==> id in t'.users;
  }

  lemma StepTables(parse: Origin.Parser, net: Netstack, s: Plane, e: Event, s': Plane)
    requires Step(parse, net, s, e, s')
    ensures s'.db == if e.Commit? then After(parse, s.db, e.op) else s.db
  {
  }

  ghost function WithoutUser(id: int): Plane -> bool { (s: Plane) => UserGone(s.db, id) }

  lemma DeletedUserIsGone(parse: Origin.Parser, t: Tables, id: int)
    requires Consistent(t) && id in t.users
    ensures UserGone(After(parse, t, Principals(DeleteUser(id))), id)
  {
    UserForgotten(t, id);
    assert Exists(t, Ref(UserType, id)) && !Exists(DeleteUserOutcome(t, id).value.db, Ref(UserType, id));
  }

  lemma GoneAfterDeletion(parse: Origin.Parser, net: Netstack, s: Plane, s': Plane, id: int)
    requires Step(parse, net, s, Event.Commit(Principals(DeleteUser(id))), s') && id in s.db.users
    ensures WithoutUser(id)(s')
  {
    StepTables(parse, net, s, Event.Commit(Principals(DeleteUser(id))), s');
    DeletedUserIsGone(parse, s.db, id);
  }

  lemma FlowsOfUsers(b: CurrentIndex, f: Flow)
    requires FlowAllowed(b.idx, f)
    ensures f.srcUser in b.db.users && (f.target.typ == UserType ==> f.target.id in b.db.users)
  {
    UsersOf(b);
  }

  lemma LiveFlowsOfUsers(s: Plane, flow: nat, id: int)
    requires InSync(s) && flow in s.flows && UserGone(s.db, id)
    ensures s.flows[flow].srcUser != id && s.flows[flow].target != Ref(UserType, id)
  {
    FlowsOfUsers(s.published, s.flows[flow]);
  }

  /** However a run goes on after a user is deleted: no flow from or to that user is ever live again. */
  lemma DeletedUserStaysOut(parse: Origin.Parser, net: Netstack, states: seq<Plane>, events: seq<Event>,
                            n: nat, m: nat, id: int, flow: nat)
    requires IsRun(AnyStep(parse, net), states, events) && Started(net, states[0]) && n < m <= |events|
    requires events[n] == Event.Commit(Principals(DeleteUser(id))) && id in states[n].db.users
    requires flow in states[m].flows
    ensures states[m].flows[flow].srcUser != id && states[m].flows[flow].target != Ref(UserType, id)
  {
    DeletedStaysGone(parse, net, states, events, n, m, id);
    RunInSync(parse, net, states, events, m);
    LiveFlowsOfUsers(states[m], flow, id);
  }

  lemma DeletedStaysGone(parse: Origin.Parser, net: Netstack, states: seq<Plane>, events: seq<Event>,
                         n: nat, m: nat, id: int)
    requires IsRun(AnyStep(parse, net), states, events) && n < m <= |events|
    requires events[n] == Event.Commit(Principals(DeleteUser(id))) && id in states[n].db.users
    ensures WithoutUser(id)(states[m])
  {
    var step, inv, deletion := AnyStep(parse, net), WithoutUser(id), Event.Commit(Principals(DeleteUser(id)));
    forall s' | step(states[n], deletion, s') ensures inv(s') {
      GoneAfterDeletion(parse, net, states[n], s', id);
    }
    forall s, e, s' | step(s, e, s') && inv(s) ensures inv(s') {
      StepTables(parse, net, s, e, s');
      if e.Commit? { GoneAfter(parse, s.db, e.op, id); }
    }
    InvariantSince(step, inv, states, events, n, m, deletion);
  }

  /** And the device drops the peer with the notification, when the keys of the users are proper. */
  lemma DeletedUserLosesPeer(parse: Origin.Parser, net: Netstack, states: seq<Plane>, events: seq<Event>, n: nat,
                             id: int)
    requires IsRun(ProperStep(parse, net), states, events) && Started(net, states[0]) && n < |events|
    requires KeysUsable(states[0].db.users)
    requires events[n] == Event.Commit(Principals(DeleteUser(id))) && id in states[n].db.users
    ensures LosesPeer(states[n], states[n + 1], id)
  {
    var step, deletion := ProperStep(parse, net), Event.Commit(Principals(DeleteUser(id)));
    var inv := (s: Plane) => InSync(s) && PeersInSync(s);
    var loses := (s: Plane, s': Plane) => LosesPeer(s, s', id);
    StartsInSync(net, states[0]);
    StartsWithPeers(net, states[0]);
    ProperStepKeeps(parse, net);
    forall s, s' | step(s, deletion, s') && inv(s) && inv(s') ensures loses(s, s') {
      PeerDropped(parse, net, s, s', id);
    }
    StepWithin(step, inv, loses, states, events, n, deletion);
  }

  /** The user's peer was on the device and is no more. */
  ghost predicate LosesPeer(s: Plane, s': Plane, id: int) {
    id in s.db.users && s.db.users[id].publicKey.GoodKey? ==>
      s.db.users[id].publicKey.key in s.device && s.db.users[id].publicKey.key !in s'.device
  }

  lemma PeerDropped(parse: Origin.Parser, net: Netstack, s: Plane, s': Plane, id: int)
    requires Step(parse, net, s, Event.Commit(Principals(DeleteUser(id))), s')
    requires PeersInSync(s) && PeersInSync(s') && s.published.db == s.db && s'.published.db == s'.db
    ensures LosesPeer(s, s', id)
  {
    StepTables(parse, net, s, Event.Commit(Principals(DeleteUser(id))), s');
    UsersOf(s.published);
    UsersOf(s'.published);
    if id in s.db.users {
      assert s'.db == After(parse, s.db, Principals(DeleteUser(id)));
      KeyDropped(parse, s.db, s.published.idx.userById, s'.published.idx.userById, s.device, s'.device, id);
    }
  }

  lemma KeyDropped(parse: Origin.Parser, t: Tables, users: map<int, UserSnapshot>, users': map<int, UserSnapshot>,
                   device: map<Key, PeerConf>, device': map<Key, PeerConf>, id: int)
    requires id in t.users && KeysUsable(t.users) && SameUsers(users, t.users)
    requires SameUsers(users', After(parse, t, Principals(DeleteUser(id))).users)
    requires Carries(device, users) && Carries(device', users')
    ensures t.users[id].publicKey.GoodKey? ==>
      t.users[id].publicKey.key in device && t.users[id].publicKey.key !in device'
  {
    UserForgotten(t, id);
    KeyGone(t, DeleteUserOutcome(t, id).value.db, users, users', device, device', id);
  }

  lemma KeyGone(t: Tables, t': Tables, users: map<int, UserSnapshot>, users': map<int, UserSnapshot>,
                device: map<Key, PeerConf>, device': map<Key, PeerConf>, id: int)
    requires id in t.users && Forgets(t, t', Ref(UserType, id))
    requires KeysUsable(t.users) && SameUsers(users, t.users) && SameUsers(users', t'.users)
    requires Carries(device, users) && Carries(device', users')
    ensures t.users[id].publicKey.GoodKey? ==>
      t.users[id].publicKey.key in device && t.users[id].publicKey.key !in device'
  {
    if t.users[id].publicKey.GoodKey? {
      assert IsPeer(users, id);
      var k := t.users[id].publicKey.key;
      if k in device' {
        var a :| a in users' && users'[a].publicKey == GoodKey(k);
        RowKept(t, t', Ref(UserType, id), Ref(UserType, a));
      }
    }
  }
}
