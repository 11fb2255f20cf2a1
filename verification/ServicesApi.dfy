/** `createService` and `updateService` of daemon/api/services.go: what a request makes of the service
    row and its ports, and why a host service never ends up without declared ports. */
module ServicesApi {
  import opened Wrappers
  import opened Schema
  import opened StoreSpec
  import opened StoreModel
  import opened StoreLaws
  import opened PolicyIndex
  import opened Resolver
  import opened ApiAddresses
  import Origin
  import Ports

  datatype CreateReq = CreateReq(name: string, hostname: string, kind: string, value: string, network: string,
                                 ip: string, description: string, ports: string)
  /** None leaves a field alone. */
  datatype UpdateReq = UpdateReq(name: Option<string>, hostname: Option<string>, kind: Option<string>,
                                 value: Option<string>, network: Option<string>, ip: Option<string>,
                                 description: Option<string>, ports: Option<string>)

  datatype ApiError = BadRequest | AddressesExhausted | StoreRefused(error: Error)

  // ----- what a request asks of the store -------------------------------------

  /** The row a create request asks for, once its address is known. */
  function CreateInput(parse: Origin.Parser, domain: string, req: CreateReq, ip: string): Option<ServiceInput> {
    match (Origin.Validate(parse, Origin.Spec(req.kind, req.value, req.network)), Ports.ParsedPorts(req.ports))
    case (Some(spec), Some(ports)) =>
      if req.name == "" || (spec.kind == "host" && ports == []) then None
      else
        var hostname := if req.hostname == "" then req.name + "." + domain else req.hostname;
        Some(ServiceInput(req.name, hostname, spec, ip, req.description, ports))
    case _ => None
  }

  predicate ChangesOrigin(req: UpdateReq) { req.kind.Some? || req.value.Some? || req.network.Some? }

  /** The origin as it would be with the changes: another kind starts from scratch. */
  function EffectiveOrigin(cur: Origin.Spec, req: UpdateReq): Origin.Spec {
    var base := if req.kind.Some? && req.kind.value != cur.kind then Origin.Spec(req.kind.value, "", "") else cur;
    Origin.Spec(base.kind, req.value.GetOr(base.value), req.network.GetOr(base.network))
  }

  function SettledOrigin(parse: Origin.Parser, cur: Origin.Spec, req: UpdateReq): Option<Origin.Spec> {
    if ChangesOrigin(req) then Origin.Validate(parse, EffectiveOrigin(cur, req)) else Some(cur)
  }

  ghost predicate Portless(t: Tables, id: int) { forall p :: PortRow(id, p) !in t.ports }

  /** The update a request asks for: None when it is refused before the store sees it. */
  ghost function UpdateInput(parse: Origin.Parser, t: Tables, id: int, req: UpdateReq)
    : Result<ServiceUpdate, ApiError>
  {
    var ports := match req.ports case Some(text) => Ports.ParsedPorts(text) case None => None;
    var plain := ServiceUpdate(req.name, req.hostname, None, req.ip, req.description, ports);
    if req.ports.Some? && ports.None? then Failure(BadRequest)
    else if !ChangesOrigin(req) && req.ports.None? then Success(plain)
    else if id !in t.services then Failure(StoreRefused(NotFound))
    else
      var spec := SettledOrigin(parse, t.services[id].origin, req);
      if spec.None? then Failure(BadRequest)
      else if spec.value.kind == "host" && (if ports.Some? then ports.value == [] else Portless(t, id))
        then Failure(BadRequest)
      else Success(plain.(origin := if ChangesOrigin(req) then spec else None))
  }

  // ----- the invariant --------------------------------------------------------

  /** Every host service declares a port. */
  ghost predicate HostPorts(services: map<int, Service>, ports: set<PortRow>) {
    forall id :: id in services && services[id].origin.kind == "host" ==> exists p :: PortRow(id, p) in ports
  }

  ghost predicate OriginsValidated(parse: Origin.Parser, services: map<int, Service>) {
    forall id :: id in services ==> Origin.Validated(parse, services[id].origin)
  }

  predicate WritesService(op: Op) { op.Objects? && (op.obj.CreateService? || op.obj.UpdateService?) }

  /** What services there are after, were there before with the same row and ports. */
  ghost predicate ServicesKept(t: Tables, t': Tables) {
    forall id :: id in t'.services ==>
      && id in t.services && t'.services[id] == t.services[id]
      && (forall p :: PortRow(id, p) in t'.ports <==> PortRow(id, p) in t.ports)
  }

  lemma OthersKeepServices(parse: Origin.Parser, t: Tables, op: Op)
    requires !WritesService(op)
    ensures ServicesKept(t, After(parse, t, op))
  {
    match op {
      case Objects(o) => ObjectsKeepServices(parse, t, o);
      case Principals(o) => PrincipalsKeepServices(t, o);
      case Policies(_) =>
    }
  }

  lemma PrincipalsKeepServices(t: Tables, op: PrincipalOp)
    ensures PrincipalOutcome(t, op).Success? ==> ServicesKept(t, PrincipalOutcome(t, op).value.db)
  {
  }

  lemma ObjectsKeepServices(parse: Origin.Parser, t: Tables, op: ObjectOp)
    requires !op.CreateService? && !op.UpdateService?
    ensures ObjectOutcome(parse, t, op).Success? ==> ServicesKept(t, ObjectOutcome(parse, t, op).value.db)
  {
  }

  lemma KeptHostPorts(t: Tables, t': Tables)
    requires ServicesKept(t, t') && HostPorts(t.services, t.ports)
    ensures HostPorts(t'.services, t'.ports)
  {
    forall id | id in t'.services && t'.services[id].origin.kind == "host"
      ensures exists p :: PortRow(id, p) in t'.ports
    {
      var p :| PortRow(id, p) in t.ports;
      assert PortRow(id, p) in t'.ports;
    }
  }

  /** Rewriting one service keeps the invariant when that service itself meets it. */
  lemma OneServiceWritten(t: Tables, t': Tables, id: int)
    requires HostPorts(t.services, t.ports)
    requires t'.services.Keys == t.services.Keys + {id}
    requires forall k :: k in t.services && k != id ==> t'.services[k] == t.services[k]
    requires forall k, p :: k != id ==> (PortRow(k, p) in t'.ports <==> PortRow(k, p) in t.ports)
    requires t'.services[id].origin.kind == "host" ==> exists p :: PortRow(id, p) in t'.ports
    ensures HostPorts(t'.services, t'.ports)
  {
    forall k | k in t'.services && t'.services[k].origin.kind == "host" ensures exists p :: PortRow(k, p) in t'.ports {
      if k != id {
        var p :| PortRow(k, p) in t.ports;
        assert PortRow(k, p) in t'.ports;
      }
    }
  }

  lemma CreateKeepsHostPorts(parse: Origin.Parser, domain: string, t: Tables, req: CreateReq, ip: string)
    requires CreateInput(parse, domain, req, ip).Some? && HostPorts(t.services, t.ports)
    ensures var t' := After(parse, t, Objects(CreateService(CreateInput(parse, domain, req, ip).value)));
      HostPorts(t'.services, t'.ports)
  {
    var input := CreateInput(parse, domain, req, ip).value;
    Origin.ValidateIdempotent(parse, Origin.Spec(req.kind, req.value, req.network));
    InsertKeepsHostPorts(t, input, input.origin);
    CreatedOrRefused(parse, t, input);
  }

  lemma CreatedOrRefused(parse: Origin.Parser, t: Tables, s: ServiceInput)
    requires Origin.Validated(parse, s.origin)
    ensures var t' := After(parse, t, Objects(CreateService(s))); t' == t || t' == InsertService(t, s, s.origin)
  {
  }

  lemma InsertKeepsHostPorts(t: Tables, s: ServiceInput, spec: Origin.Spec)
    requires HostPorts(t.services, t.ports) && (spec.kind == "host" ==> s.ports != [])
    ensures HostPorts(InsertService(t, s, spec).services, InsertService(t, s, spec).ports)
  {
    var t' := InsertService(t, s, spec);
    if s.ports != [] {
      assert PortRow(t.lastService + 1, s.ports[0]) in t'.ports;
    }
    OneServiceWritten(t, t', t.lastService + 1);
  }

  lemma UpdateKeepsHostPorts(parse: Origin.Parser, t: Tables, id: int, req: UpdateReq)
    requires UpdateInput(parse, t, id, req).Success? && HostPorts(t.services, t.ports)
    ensures var t' := After(parse, t, Objects(UpdateService(id, UpdateInput(parse, t, id, req).value)));
      HostPorts(t'.services, t'.ports)
  {
    var u := UpdateInput(parse, t, id, req).value;
    if UpdateServiceOutcome(parse, t, id, u).Success? {
      var t' := UpdateServiceOutcome(parse, t, id, u).value.db;
      UpdatedServicePorts(parse, t, id, req);
      OneServiceWritten(t, t', id);
    }
  }

  lemma UpdatedServicePorts(parse: Origin.Parser, t: Tables, id: int, req: UpdateReq)
    requires UpdateInput(parse, t, id, req).Success? && HostPorts(t.services, t.ports)
    requires UpdateServiceOutcome(parse, t, id, UpdateInput(parse, t, id, req).value).Success?
    ensures var t' := UpdateServiceOutcome(parse, t, id, UpdateInput(parse, t, id, req).value).value.db;
      t'.services[id].origin.kind == "host" ==> exists p :: PortRow(id, p) in t'.ports
  {
    var u := UpdateInput(parse, t, id, req).value;
    var t' := UpdateServiceOutcome(parse, t, id, u).value.db;
    if ChangesOrigin(req) {
      Origin.ValidateIdempotent(parse, EffectiveOrigin(t.services[id].origin, req));
    }
    UpdatedRow(parse, t, id, u);
    if t'.services[id].origin.kind == "host" {
      if u.ports.Some? {
        assert PortRow(id, u.ports.value[0]) in t'.ports;
      } else {
        assert t'.ports == t.ports;
      }
    }
  }

  // ----- runs of requests -----------------------------------------------------

  /** A create request with its address settled, an update request, or any other store operation. */
  datatype Request = Create(create: CreateReq, ip: string) | Update(id: int, update: UpdateReq) | Other(op: Op)

  ghost function Served(parse: Origin.Parser, domain: string, t: Tables, r: Request): Tables {
    match r
    case Create(req, ip) =>
      (match CreateInput(parse, domain, req, ip)
       case Some(input) => After(parse, t, Objects(CreateService(input)))
       case None => t)
    case Update(id, req) =>
      (match UpdateInput(parse, t, id, req)
       case Success(u) => After(parse, t, Objects(UpdateService(id, u)))
       case Failure(_) => t)
    case Other(op) => if WritesService(op) then t else After(parse, t, op)
  }

  ghost function ServedAll(parse: Origin.Parser, domain: string, t: Tables, rs: seq<Request>): Tables
    decreases |rs|
  {
    if rs == [] then t else ServedAll(parse, domain, Served(parse, domain, t, rs[0]), rs[1..])
  }

  lemma ServedKeepsHostPorts(parse: Origin.Parser, domain: string, t: Tables, r: Request)
    requires HostPorts(t.services, t.ports)
    ensures var t' := Served(parse, domain, t, r); HostPorts(t'.services, t'.ports)
  {
    match r {
      case Create(req, ip) =>
        if CreateInput(parse, domain, req, ip).Some? { CreateKeepsHostPorts(parse, domain, t, req, ip); }
      case Update(id, req) =>
        if UpdateInput(parse, t, id, req).Success? { UpdateKeepsHostPorts(parse, t, id, req); }
      case Other(op) =>
        if !WritesService(op) {
          OthersKeepServices(parse, t, op);
          KeptHostPorts(t, After(parse, t, op));
        }
    }
  }

  lemma {:induction false} RunKeepsHostPorts(parse: Origin.Parser, domain: string, t: Tables, rs: seq<Request>)
    requires HostPorts(t.services, t.ports)
    ensures var t' := ServedAll(parse, domain, t, rs); HostPorts(t'.services, t'.ports)
    decreases |rs|
  {
    if rs == [] {
    } else {
      ServedKeepsHostPorts(parse, domain, t, rs[0]);
      RunKeepsHostPorts(parse, domain, Served(parse, domain, t, rs[0]), rs[1..]);
    }
  }

  /** After any run of requests from the empty store, an up-to-date index lets nobody reach a port of a
      host service that the service does not declare: the empty list never acts as a wildcard there. */
  lemma HostServicesNeverOpen(parse: Origin.Parser, domain: string, rs: seq<Request>, idx: Index,
                              srcIp: string, vip: string, port: int, protocol: string)
    requires var t := ServedAll(parse, domain, EMPTY, rs); Reflects(idx, t)
    requires DecideService(idx, srcIp, vip, port, protocol).decision == Allow
    ensures var s := idx.serviceByVip[vip]; s.origin.kind == "host" ==> PortSpec(port, protocol) in s.ports
  {
    var t := ServedAll(parse, domain, EMPTY, rs);
    RunKeepsHostPorts(parse, domain, EMPTY, rs);
    var s := idx.serviceByVip[vip];
    assert IsServiceSnap(t, t, idx.serviceById[s.id]);
    if s.origin.kind == "host" {
      var p :| PortRow(s.id, p) in t.ports;
      assert p in s.ports;
    }
  }

  // ----- the handlers ---------------------------------------------------------

  /** The store takes the row the request asks for at this address. */
  ghost predicate Accepts(parse: Origin.Parser, domain: string, t: Tables, req: CreateReq, ip: string) {
    match CreateInput(parse, domain, req, ip)
    case Some(input) => CreateServiceOutcome(parse, t, input).Success?
    case None => false
  }

  /** `createService` before it writes: the row the request asks for at the address it settles on, or a
      refusal exactly when there is no such row. */
  method DecideCreate(net: Net, t: Tables, domain: string, req: CreateReq)
    returns (r: Result<(ServiceInput, string), ApiError>)
    requires SearchEnds(net, TakenServiceIps(t))
    ensures match r
      case Success((input, ip)) =>
        Settled(net, TakenServiceIps(t), req.ip, ip) && CreateInput(net.parse, domain, req, ip) == Some(input)
      case Failure(_) =>
        forall ip :: Settled(net, TakenServiceIps(t), req.ip, ip) ==> CreateInput(net.parse, domain, req, ip).None?
  {
    if req.name == "" { return Failure(BadRequest); }
    var spec := Origin.Validate(net.parse, Origin.Spec(req.kind, req.value, req.network));
    if spec.None? { return Failure(BadRequest); }
    var hostname := req.hostname;
    if hostname == "" { hostname := req.name + "." + domain; }
    var address := SettleAddress(net, TakenServiceIps(t), req.ip);
    if address.Failure? { return Failure(if req.ip == "" then AddressesExhausted else BadRequest); }
    var ports := Ports.ParsePorts(req.ports);
    if ports.None? { return Failure(BadRequest); }
    if spec.value.kind == "host" && |ports.value| == 0 { return Failure(BadRequest); }
    var row := ServiceInput(req.name, hostname, spec.value, address.value, req.description, ports.value);
    return Success((row, address.value));
  }

  /** `createService` succeeds exactly when there is an address to settle on and the store takes the row
      at that address; then it is served there, and otherwise nothing changes. */
  method HandleCreate(store: Store, net: Net, domain: string, req: CreateReq) returns (r: Result<int, ApiError>)
    requires store.parse == net.parse && SearchEnds(net, TakenServiceIps(store.db))
    modifies store`db, store`delivered
    ensures r.Success? <==> CanServe(net, domain, old(store.db), req)
    ensures r.Success? ==> ServedSomewhere(net, domain, old(store.db), req, store.db)
    ensures r.Success? ==> ShowsCreate(net, domain, old(store.db), store.db, r.value, req)
    ensures r.Failure? ==> store.db == old(store.db) && store.delivered == old(store.delivered)
  {
    ghost var t := store.db;
    var input := DecideCreate(net, store.db, domain, req);
    if input.Failure? {
      NothingToServe(net, domain, t, req);
      return Failure(input.error);
    }
    var (row, ip) := input.value;
    ServedThere(net, domain, t, req, row, ip);
    var done := store.Perform(Objects(CreateService(row)));
    if done.Failure? { return Failure(StoreRefused(done.error)); }
    CreateShown(net, domain, t, req, row, ip);
    return Success(done.value);
  }

  /** The new row shows the request: its own name and description, the host name asked for or name and
      domain, the origin as validation leaves it, exactly the ports the text lists, and an address that
      was asked for or picked; nothing else moves. */
  ghost predicate ShowsCreate(net: Net, domain: string, t: Tables, t': Tables, id: int, req: CreateReq) {
    && id !in t.services && ServiceWritten(t, t', id)
    && var row := t'.services[id];
    && row.name == req.name != "" && row.description == req.description
    && row.hostname == (if req.hostname != "" then req.hostname else req.name + "." + domain)
    && Origin.Validate(net.parse, Origin.Spec(req.kind, req.value, req.network)) == Some(row.origin)
    && Settled(net, TakenServiceIps(t), req.ip, row.ip)
    && Ports.ParsedPorts(req.ports).Some? && DeclaresPorts(t', id, Ports.ParsedPorts(req.ports).value)
  }

  lemma CreateShown(net: Net, domain: string, t: Tables, req: CreateReq, row: ServiceInput, ip: string)
    requires Settled(net, TakenServiceIps(t), req.ip, ip) && CreateInput(net.parse, domain, req, ip) == Some(row)
    requires CountersSound(t) && CreateServiceOutcome(net.parse, t, row).Success?
    ensures var c := CreateServiceOutcome(net.parse, t, row).value; ShowsCreate(net, domain, t, c.db, c.id, req)
  {
    CreatedService(net.parse, t, row);
    Origin.ValidateIdempotent(net.parse, Origin.Spec(req.kind, req.value, req.network));
  }

  ghost predicate CanServe(net: Net, domain: string, t: Tables, req: CreateReq) {
    exists ip :: Settled(net, TakenServiceIps(t), req.ip, ip) && Accepts(net.parse, domain, t, req, ip)
  }

  ghost predicate ServedSomewhere(net: Net, domain: string, t: Tables, req: CreateReq, t': Tables) {
    exists ip :: Settled(net, TakenServiceIps(t), req.ip, ip) && t' == Served(net.parse, domain, t, Create(req, ip))
  }

  lemma NothingToServe(net: Net, domain: string, t: Tables, req: CreateReq)
    requires forall ip :: Settled(net, TakenServiceIps(t), req.ip, ip) ==> CreateInput(net.parse, domain, req, ip).None?
    ensures !CanServe(net, domain, t, req)
  {
  }

  /** The address settled on is the only one, so the store's word on its row is the last word. */
  lemma ServedThere(net: Net, domain: string, t: Tables, req: CreateReq, row: ServiceInput, ip: string)
    requires Settled(net, TakenServiceIps(t), req.ip, ip) && CreateInput(net.parse, domain, req, ip) == Some(row)
    ensures CanServe(net, domain, t, req) <==> CreateServiceOutcome(net.parse, t, row).Success?
    ensures ServedSomewhere(net, domain, t, req, After(net.parse, t, Objects(CreateService(row))))
  {
    assert Served(net.parse, domain, t, Create(req, ip)) == After(net.parse, t, Objects(CreateService(row)));
    if other :| Settled(net, TakenServiceIps(t), req.ip, other) && Accepts(net.parse, domain, t, req, other) {
      SettledUnique(net, TakenServiceIps(t), req.ip, ip, other);
    }
    if CreateServiceOutcome(net.parse, t, row).Success? {
      assert Accepts(net.parse, domain, t, req, ip);
    }
  }

  /** `updateService` before it writes: the row read once decides what the changes amount to. */
  method DecideUpdate(parse: Origin.Parser, db: Tables, id: int, req: UpdateReq)
    returns (r: Result<ServiceUpdate, ApiError>)
    ensures r == UpdateInput(parse, db, id, req)
  {
    var update := ServiceUpdate(req.name, req.hostname, None, req.ip, req.description, None);
    if req.ports.Some? {
      var ports := Ports.ParsePorts(req.ports.value);
      if ports.None? { return Failure(BadRequest); }
      update := update.(ports := ports);
    }
    if ChangesOrigin(req) || req.ports.Some? {
      if id !in db.services { return Failure(StoreRefused(NotFound)); }
      var effOrigin := SettleOrigin(parse, db.services[id].origin, req);
      if effOrigin.None? { return Failure(BadRequest); }
      if ChangesOrigin(req) { update := update.(origin := effOrigin); }
      var effPorts := SelectPorts(db, id);
      DeclaresNone(db, id, effPorts);
      if req.ports.Some? { effPorts := update.ports.value; }
      if effOrigin.value.kind == "host" && |effPorts| == 0 { return Failure(BadRequest); }
    }
    return Success(update);
  }

  /** The changes laid over the current origin one by one, then validated. */
  method SettleOrigin(parse: Origin.Parser, cur: Origin.Spec, req: UpdateReq) returns (spec: Option<Origin.Spec>)
    ensures spec == SettledOrigin(parse, cur, req)
  {
    if !ChangesOrigin(req) { return Some(cur); }
    var effOrigin := cur;
    if req.kind.Some? && req.kind.value != effOrigin.kind {
      effOrigin := Origin.Spec(req.kind.value, "", "");
    }
    if req.value.Some? { effOrigin := effOrigin.(value := req.value.value); }
    if req.network.Some? { effOrigin := effOrigin.(network := req.network.value); }
    spec := Origin.Validate(parse, effOrigin);
  }

  /** The origin shows the request: what it leaves out stays, unless it asks for another kind, which
      starts from nothing; then it is validated. */
  predicate ShowsOrigin(parse: Origin.Parser, was: Origin.Spec, now: Origin.Spec, req: UpdateReq) {
    if req.kind.None? && req.value.None? && req.network.None? then now == was
    else
      var kind := if req.kind.Some? then req.kind.value else was.kind;
      var value := if req.value.Some? then req.value.value else if kind == was.kind then was.value else "";
      var network := if req.network.Some? then req.network.value else if kind == was.kind then was.network else "";
      Origin.Validate(parse, Origin.Spec(kind, value, network)) == Some(now)
  }

  /** Every column the request names has its new value, and every other one its old value. */
  predicate ShowsUpdate(parse: Origin.Parser, was: Service, row: Service, req: UpdateReq) {
    && row.name == (if req.name.Some? then req.name.value else was.name)
    && row.hostname == (if req.hostname.Some? then req.hostname.value else was.hostname)
    && row.ip == (if req.ip.Some? then req.ip.value else was.ip)
    && row.description == (if req.description.Some? then req.description.value else was.description)
    && ShowsOrigin(parse, was.origin, row.origin, req)
  }

  /** The request may be served with this row: the row shows it and keeps the store invariant, its ports
      read and are proper, and if it touches origin or ports a host service keeps some port. */
  ghost predicate CanUpdate(parse: Origin.Parser, t: Tables, id: int, req: UpdateReq, row: Service) {
    var ports := if req.ports.Some? then Ports.ParsedPorts(req.ports.value) else None;
    && id in t.services && ShowsUpdate(parse, t.services[id], row, req) && Misfit(t, id, row).None?
    && (req.ports.Some? ==> ports.Some? && PortsProper(ports.value))
    && ((ChangesOrigin(req) || req.ports.Some?) && row.origin.kind == "host" ==>
          if req.ports.Some? then ports.value != [] else !Portless(t, id))
  }

  /** The service as the request leaves it. */
  ghost predicate ServesUpdate(parse: Origin.Parser, t: Tables, t': Tables, id: int, req: UpdateReq) {
    && id in t.services && ServiceWritten(t, t', id) && ShowsUpdate(parse, t.services[id], t'.services[id], req)
    && (if req.ports.Some? then
          Ports.ParsedPorts(req.ports.value).Some? && DeclaresPorts(t', id, Ports.ParsedPorts(req.ports.value).value)
        else t'.ports == t.ports)
  }

  lemma UpdateAccepted(parse: Origin.Parser, t: Tables, id: int, req: UpdateReq, row: Service)
    requires NamesAndAddressesUnique(t) && CountersSound(t) && CanUpdate(parse, t, id, req, row)
    ensures UpdateInput(parse, t, id, req).Success?
    ensures UpdateServiceOutcome(parse, t, id, UpdateInput(parse, t, id, req).value).Success?
  {
    InputAccepted(parse, t, id, req, row);
    InputShows(parse, t, id, req, row);
    ServiceUpdateRefused(parse, t, id, UpdateInput(parse, t, id, req).value, row);
  }

  lemma InputAccepted(parse: Origin.Parser, t: Tables, id: int, req: UpdateReq, row: Service)
    requires CanUpdate(parse, t, id, req, row)
    ensures UpdateInput(parse, t, id, req).Success?
  {
    OriginShown(parse, t.services[id].origin, row.origin, req);
  }

  /** The update the store is asked for edits the row as the request says. */
  lemma InputShows(parse: Origin.Parser, t: Tables, id: int, req: UpdateReq, row: Service)
    requires UpdateInput(parse, t, id, req).Success? && id in t.services
    ensures var u := UpdateInput(parse, t, id, req).value;
      && u.ports == (if req.ports.Some? then Ports.ParsedPorts(req.ports.value) else None)
      && (u.origin.Some? ==> Origin.Validate(parse, u.origin.value) == u.origin)
      && (ShowsUpdate(parse, t.services[id], row, req) <==> ServiceEdited(parse, t.services[id], row, u))
  {
    OriginShown(parse, t.services[id].origin, row.origin, req);
    OriginSettled(parse, t, id, req);
  }

  lemma OriginShown(parse: Origin.Parser, was: Origin.Spec, now: Origin.Spec, req: UpdateReq)
    ensures ShowsOrigin(parse, was, now, req) <==> SettledOrigin(parse, was, req) == Some(now)
  {
  }

  lemma OriginSettled(parse: Origin.Parser, t: Tables, id: int, req: UpdateReq)
    requires UpdateInput(parse, t, id, req).Success? && id in t.services
    ensures var u := UpdateInput(parse, t, id, req).value;
      && u.name == req.name && u.hostname == req.hostname && u.ip == req.ip && u.description == req.description
      && u.ports == (if req.ports.Some? then Ports.ParsedPorts(req.ports.value) else None)
      && u.origin == (if ChangesOrigin(req) then SettledOrigin(parse, t.services[id].origin, req) else None)
      && (u.origin.Some? ==> Origin.Validate(parse, u.origin.value) == u.origin)
      && SettledOrigin(parse, t.services[id].origin, req).Some?
  {
    if ChangesOrigin(req) { Origin.ValidateIdempotent(parse, EffectiveOrigin(t.services[id].origin, req)); }
  }

  lemma UpdateServed(parse: Origin.Parser, t: Tables, id: int, req: UpdateReq)
    requires NamesAndAddressesUnique(t) && CountersSound(t) && UpdateInput(parse, t, id, req).Success?
    requires UpdateServiceOutcome(parse, t, id, UpdateInput(parse, t, id, req).value).Success?
    ensures var c := UpdateServiceOutcome(parse, t, id, UpdateInput(parse, t, id, req).value).value;
      c.id == id && ServesUpdate(parse, t, c.db, id, req) && CanUpdate(parse, t, id, req, c.db.services[id])
  {
    var u := UpdateInput(parse, t, id, req).value;
    var t' := UpdateServiceOutcome(parse, t, id, u).value.db;
    UpdatedService(parse, t, id, u);
    InputShows(parse, t, id, req, t'.services[id]);
    ServiceUpdateRefused(parse, t, id, u, t'.services[id]);
  }

  /** `updateService` succeeds exactly when there is a row the request may be served with; then the
      service shows the request, and otherwise nothing changes. */
  method HandleUpdate(store: Store, id: int, req: UpdateReq) returns (r: Result<int, ApiError>)
    modifies store`db, store`delivered
    ensures store.db == Served(store.parse, "", old(store.db), Update(id, req))
    ensures r.Success? <==> exists row :: CanUpdate(store.parse, old(store.db), id, req, row)
    ensures r.Success? ==> r.value == id && ServesUpdate(store.parse, old(store.db), store.db, id, req)
    ensures r.Failure? ==> store.db == old(store.db) && store.delivered == old(store.delivered)
  {
    ghost var t: Tables := store.db;
    forall row | CanUpdate(store.parse, t, id, req, row)
      ensures UpdateInput(store.parse, t, id, req).Success?
      ensures UpdateServiceOutcome(store.parse, t, id, UpdateInput(store.parse, t, id, req).value).Success?
    {
      UpdateAccepted(store.parse, t, id, req, row);
    }
    var update := DecideUpdate(store.parse, store.db, id, req);
    if update.Failure? { return Failure(update.error); }
    var done := store.Perform(Objects(UpdateService(id, update.value)));
    if done.Failure? { return Failure(StoreRefused(done.error)); }
    UpdateServed(store.parse, t, id, req);
    return Success(done.value);
  }

  lemma DeclaresNone(t: Tables, id: int, declared: seq<PortSpec>)
    requires forall p :: p in declared <==> PortRow(id, p) in t.ports
    ensures Portless(t, id) <==> declared == []
  {
    if declared != [] { assert declared[0] in declared; }
  }

  // ----- stored origins -------------------------------------------------------

  /** Every origin in the store is one that validation accepts as it stands, after any operation. */
  lemma OriginsStayValidated(parse: Origin.Parser, t: Tables, op: Op)
    requires OriginsValidated(parse, t.services)
    ensures OriginsValidated(parse, After(parse, t, op).services)
  {
    if !WritesService(op) {
      OthersKeepServices(parse, t, op);
    } else {
      match op.obj {
        case CreateService(s) =>
          if CreateServiceOutcome(parse, t, s).Success? { CreatedOriginValidated(parse, t, s); }
        case UpdateService(id, u) =>
          if UpdateServiceOutcome(parse, t, id, u).Success? { UpdatedOriginValidated(parse, t, id, u); }
      }
    }
  }

  lemma CreatedOriginValidated(parse: Origin.Parser, t: Tables, s: ServiceInput)
    requires OriginsValidated(parse, t.services) && CreateServiceOutcome(parse, t, s).Success?
    ensures OriginsValidated(parse, CreateServiceOutcome(parse, t, s).value.db.services)
  {
    CreatedRow(parse, t, s);
    Origin.ValidateIdempotent(parse, s.origin);
    OneMoreValidated(parse, t.services, CreateServiceOutcome(parse, t, s).value.db.services, t.lastService + 1);
  }

  lemma CreatedRow(parse: Origin.Parser, t: Tables, s: ServiceInput)
    requires CreateServiceOutcome(parse, t, s).Success?
    ensures var services := CreateServiceOutcome(parse, t, s).value.db.services; var id := t.lastService + 1;
      id in services && services == t.services[id := services[id]]
        && Some(services[id].origin) == Origin.Validate(parse, s.origin)
  {
    NewServiceRow(t, s, Origin.Validate(parse, s.origin).value);
  }

  lemma NewServiceRow(t: Tables, s: ServiceInput, spec: Origin.Spec)
    requires NewServiceOutcome(t, s, spec).Success?
    ensures var services := NewServiceOutcome(t, s, spec).value.db.services; var id := t.lastService + 1;
      id in services && services == t.services[id := services[id]] && services[id].origin == spec
  {
  }

  lemma UpdatedRow(parse: Origin.Parser, t: Tables, id: int, u: ServiceUpdate)
    requires UpdateServiceOutcome(parse, t, id, u).Success?
    ensures var services := UpdateServiceOutcome(parse, t, id, u).value.db.services;
      && id in t.services && id in services && services == t.services[id := services[id]]
      && Some(services[id].origin)
        == if u.origin.Some? then Origin.Validate(parse, u.origin.value) else Some(t.services[id].origin)
  {
  }

  lemma OneMoreValidated(parse: Origin.Parser, services: map<int, Service>, services': map<int, Service>, id: int)
    requires OriginsValidated(parse, services) && id in services' && services' == services[id := services'[id]]
    requires Origin.Validated(parse, services'[id].origin)
    ensures OriginsValidated(parse, services')
  {
  }

  lemma UpdatedOriginValidated(parse: Origin.Parser, t: Tables, id: int, u: ServiceUpdate)
    requires OriginsValidated(parse, t.services) && UpdateServiceOutcome(parse, t, id, u).Success?
    ensures OriginsValidated(parse, UpdateServiceOutcome(parse, t, id, u).value.db.services)
  {
    UpdatedRow(parse, t, id, u);
    if u.origin.Some? { Origin.ValidateIdempotent(parse, u.origin.value); }
    OneMoreValidated(parse, t.services, UpdateServiceOutcome(parse, t, id, u).value.db.services, id);
  }

  lemma {:induction false} RunKeepsOrigins(parse: Origin.Parser, t: Tables, ops: seq<Op>)
    requires OriginsValidated(parse, t.services)
    ensures OriginsValidated(parse, Run(parse, t, ops).services)
    decreases |ops|
  {
    if ops == [] {
    } else {
      OriginsStayValidated(parse, t, ops[0]);
      RunKeepsOrigins(parse, After(parse, t, ops[0]), ops[1..]);
    }
  }
}
