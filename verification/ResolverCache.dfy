/** The caching backend resolver: daemon/proxy/resolver.go. Name lookups, the container runtime, probes
    and the clock are what one call happens to see of the world. */
module ResolverCache {
  import opened Wrappers
  import opened Text
  import opened Origin

  datatype Target = Target(host: string, network: string, detail: string)
  datatype Entry = Entry(target: Target, expires: int)
  datatype Endpoint = Endpoint(ip: string, network: string)
  datatype ResolveError = Unreachable | Refused

  const SECOND := 1_000_000_000
  const NAME_TTL := 30 * SECOND
  const ADDR_TTL := 10 * SECOND
  const HOSTNAME_TTL := 60 * SECOND

  /** What one call sees: the time on entry and at the end, names, containers and open ports. */
  datatype World = World(
    now: int, done: int,
    lookup: string -> Option<seq<string>>,
    containers: (string, string) -> Option<seq<Endpoint>>,
    probe: (string, int) -> bool)

  /** One answer that was worked out rather than read from the cache. */
  datatype Resolution = Resolution(spec: Spec, target: Target, at: int, ttl: int)

  // ----- what an uncached resolution answers ----------------------------------

  /** The first endpoint that meets a condition. */
  function First(endpoints: seq<Endpoint>, p: Endpoint -> bool): (r: Option<Endpoint>)
    ensures r.Some? ==> r.value in endpoints && p(r.value)
    ensures r.None? ==> forall e :: e in endpoints ==> !p(e)
  {
    if endpoints == [] then None
    else
      var init := endpoints[..|endpoints| - 1];
      var before := First(init, p);
      assert endpoints == init + [endpoints[|endpoints| - 1]];
      if before.Some? then before
      else if p(endpoints[|endpoints| - 1]) then Some(endpoints[|endpoints| - 1]) else None
  }

  predicate Probing(port: int, proto: string) { proto == "tcp" && port > 0 }

  function IsSafe(parse: Parser): Endpoint -> bool { (e: Endpoint) => SafeBackendIp(parse, e.ip) }

  function Answers(parse: Parser, probe: (string, int) -> bool, port: int, proto: string): Endpoint -> bool {
    (e: Endpoint) => SafeBackendIp(parse, e.ip) && Probing(port, proto) && probe(e.ip, port)
  }

  /** The first safe address that answers the probe, or else the first safe one. */
  function Selected(parse: Parser, w: World, endpoints: seq<Endpoint>, port: int, proto: string)
    : Result<Target, ResolveError>
  {
    match First(endpoints, Answers(parse, w.probe, port, proto))
    case Some(e) => Success(Target(e.ip, e.network, "runtime socket, probe confirmed"))
    case None =>
      match First(endpoints, IsSafe(parse))
      case Some(e) =>
        Success(Target(e.ip, e.network,
          if Probing(port, proto) then "runtime socket, no candidate answered probe"
          else "runtime socket, deterministic pick"))
      case None => Failure(Unreachable)
  }

  function FreshHostname(parse: Parser, w: World, spec: Spec): Result<(Target, int), ResolveError> {
    match w.lookup(spec.value)
    case None => Failure(Unreachable)
    case Some(addrs) =>
      if addrs == [] then Failure(Unreachable)
      else if exists i :: 0 <= i < |addrs| && !SafeBackendIp(parse, addrs[i]) then Failure(Refused)
      else Success((Target(spec.value, "", "dns name"), HOSTNAME_TTL))
  }

  predicate ResolvesByName(w: World, spec: Spec) {
    spec.network == "" && w.lookup(spec.value).Some? && w.lookup(spec.value).value != []
  }

  function FreshContainer(parse: Parser, docker: bool, w: World, spec: Spec, port: int, proto: string)
    : Result<(Target, int), ResolveError>
  {
    if ResolvesByName(w, spec) then Success((Target(spec.value, "", "runtime dns (shared network)"), NAME_TTL))
    else if !docker then Failure(Unreachable)
    else match w.containers(spec.value, spec.network)
      case None => Failure(Unreachable)
      case Some(endpoints) =>
        match Selected(parse, w, endpoints, port, proto)
        case Success(t) => Success((t, ADDR_TTL))
        case Failure(e) => Failure(e)
  }

  /** The answer and how long it may be kept. */
  function Fresh(parse: Parser, docker: bool, w: World, spec: Spec, port: int, proto: string)
    : Result<(Target, int), ResolveError>
  {
    if spec.kind == "hostname" then FreshHostname(parse, w, spec)
    else FreshContainer(parse, docker, w, spec, port, proto)
  }

  /** A backend the proxy may dial for a spec: its own name, or a safe address. */
  predicate Dialable(parse: Parser, spec: Spec, t: Target) {
    t.host == spec.value || SafeBackendIp(parse, t.host)
  }

  lemma FreshIsDialable(parse: Parser, docker: bool, w: World, spec: Spec, port: int, proto: string)
    ensures match Fresh(parse, docker, w, spec, port, proto)
      case Success(p) => Dialable(parse, spec, p.0) && 0 < p.1 <= HOSTNAME_TTL
      case Failure(_) => true
  {
  }

  // ----- what an answer means -------------------------------------------------

  ghost predicate FirstAt(endpoints: seq<Endpoint>, p: Endpoint -> bool, i: int) {
    0 <= i < |endpoints| && p(endpoints[i]) && forall j :: 0 <= j < i ==> !p(endpoints[j])
  }

  lemma {:induction false} FirstIsFirst(endpoints: seq<Endpoint>, p: Endpoint -> bool) returns (i: int)
    requires First(endpoints, p).Some?
    ensures FirstAt(endpoints, p, i) && endpoints[i] == First(endpoints, p).value
  {
    var init, n := endpoints[..|endpoints| - 1], |endpoints| - 1;
    if First(init, p).Some? {
      i := FirstIsFirst(init, p);
      assert endpoints[i] == init[i] && forall j :: 0 <= j < i ==> endpoints[j] == init[j];
    } else {
      i := n;
      assert forall j :: 0 <= j < n ==> endpoints[j] == init[j] && init[j] in init;
    }
  }

  predicate SafeAt(parse: Parser, endpoints: seq<Endpoint>, i: int) {
    0 <= i < |endpoints| && SafeText(parse, endpoints[i].ip)
  }

  /** A TCP port was asked for, and the safe endpoint answers on it. */
  predicate AnswersAt(parse: Parser, w: World, endpoints: seq<Endpoint>, port: int, proto: string, i: int) {
    SafeAt(parse, endpoints, i) && proto == "tcp" && port > 0 && w.probe(endpoints[i].ip, port)
  }

  /** The first safe endpoint that answers, or the first safe one when none does. */
  ghost predicate Chosen(parse: Parser, w: World, endpoints: seq<Endpoint>, port: int, proto: string, i: int) {
    && SafeAt(parse, endpoints, i)
    && if AnswersAt(parse, w, endpoints, port, proto, i)
       then forall j :: 0 <= j < i ==> !AnswersAt(parse, w, endpoints, port, proto, j)
       else (forall j :: !AnswersAt(parse, w, endpoints, port, proto, j))
            && forall j :: 0 <= j < i ==> !SafeAt(parse, endpoints, j)
  }

  /** An endpoint that answers wins, else the first safe one; the choice fails exactly when none is safe. */
  lemma SelectedIsChosen(parse: Parser, w: World, endpoints: seq<Endpoint>, port: int, proto: string)
    ensures match Selected(parse, w, endpoints, port, proto)
      case Success(t) => exists i ::
        Chosen(parse, w, endpoints, port, proto, i) && t.host == endpoints[i].ip && t.network == endpoints[i].network
      case Failure(e) => e == Unreachable && forall i :: !SafeAt(parse, endpoints, i)
  {
    var safe, answers := IsSafe(parse), Answers(parse, w.probe, port, proto);
    forall i | 0 <= i < |endpoints|
      ensures safe(endpoints[i]) == SafeAt(parse, endpoints, i)
      ensures answers(endpoints[i]) == AnswersAt(parse, w, endpoints, port, proto, i)
    {
      var e := endpoints[i];
      assert answers(e) == (SafeBackendIp(parse, e.ip) && Probing(port, proto) && w.probe(e.ip, port));
      SafeTextIff(parse, e.ip);
    }
    if First(endpoints, answers).Some? {
      var i := FirstIsFirst(endpoints, answers);
      assert Chosen(parse, w, endpoints, port, proto, i);
    } else {
      NoneMeets(endpoints, answers);
      if First(endpoints, safe).Some? {
        var i := FirstIsFirst(endpoints, safe);
        assert Chosen(parse, w, endpoints, port, proto, i);
      } else {
        NoneMeets(endpoints, safe);
      }
    }
  }

  lemma NoneMeets(endpoints: seq<Endpoint>, p: Endpoint -> bool)
    requires First(endpoints, p).None?
    ensures forall j :: 0 <= j < |endpoints| ==> !p(endpoints[j])
  {
    forall j | 0 <= j < |endpoints| ensures !p(endpoints[j]) {
      assert endpoints[j] in endpoints;
    }
  }

  /** Some name lookup came back with addresses. */
  predicate Resolves(w: World, name: string) { w.lookup(name).Some? && w.lookup(name).value != [] }

  ghost predicate AllSafe(parse: Parser, addrs: seq<string>) {
    forall i :: 0 <= i < |addrs| ==> SafeText(parse, addrs[i])
  }

  /** A host name is dialled by its name exactly when all its addresses are safe, and for 60 seconds. */
  lemma HostnameAnswer(parse: Parser, w: World, spec: Spec)
    ensures match FreshHostname(parse, w, spec)
      case Success(p) =>
        && Resolves(w, spec.value) && AllSafe(parse, w.lookup(spec.value).value)
        && p.0.host == spec.value && p.1 == 60 * SECOND
      case Failure(e) =>
        if !Resolves(w, spec.value) then e == Unreachable
        else e == Refused && !AllSafe(parse, w.lookup(spec.value).value)
  {
    if Resolves(w, spec.value) {
      var addrs := w.lookup(spec.value).value;
      forall i | 0 <= i < |addrs| ensures SafeBackendIp(parse, addrs[i]) <==> SafeText(parse, addrs[i]) {
        SafeTextIff(parse, addrs[i]);
      }
    }
  }

  /** A container without network is dialled by its name, for 30 seconds, when that resolves; any other at
      the endpoint chosen among those the runtime knows, for 10 seconds, and it fails exactly when the
      runtime is off, does not know the container, or no endpoint is safe. */
  lemma ContainerAnswer(parse: Parser, docker: bool, w: World, spec: Spec, port: int, proto: string)
    ensures var byName := spec.network == "" && Resolves(w, spec.value);
      var endpoints := w.containers(spec.value, spec.network);
      match FreshContainer(parse, docker, w, spec, port, proto)
      case Success(p) =>
        if byName then p.0.host == spec.value && p.1 == 30 * SECOND
        else docker && endpoints.Some? && p.1 == 10 * SECOND && exists i ::
          Chosen(parse, w, endpoints.value, port, proto, i)
            && p.0.host == endpoints.value[i].ip && p.0.network == endpoints.value[i].network
      case Failure(e) =>
        && e == Unreachable && !byName
        && (docker && endpoints.Some? ==> forall i :: !SafeAt(parse, endpoints.value, i))
  {
    if w.containers(spec.value, spec.network).Some? {
      SelectedIsChosen(parse, w, w.containers(spec.value, spec.network).value, port, proto);
    }
  }

  // ----- the resolver ---------------------------------------------------------

  /** The cache entry is what some resolution put there. */
  ghost predicate Justified(key: string, e: Entry, history: seq<Resolution>) {
    exists i :: 0 <= i < |history| && CacheKey(history[i].spec) == key
      && e == Entry(history[i].target, history[i].at + history[i].ttl)
  }

  lemma StaysJustified(cache: map<string, Entry>, history: seq<Resolution>, r: Resolution)
    requires forall key :: key in cache ==> Justified(key, cache[key], history)
    ensures var cache' := cache[CacheKey(r.spec) := Entry(r.target, r.at + r.ttl)];
      forall key :: key in cache' ==> Justified(key, cache'[key], history + [r])
  {
    var cache' := cache[CacheKey(r.spec) := Entry(r.target, r.at + r.ttl)];
    var more := history + [r];
    forall key | key in cache' ensures Justified(key, cache'[key], more) {
      if key == CacheKey(r.spec) {
        assert more[|history|] == r;
      } else {
        var i :| 0 <= i < |history| && CacheKey(history[i].spec) == key
          && cache[key] == Entry(history[i].target, history[i].at + history[i].ttl);
        assert more[i] == history[i];
      }
    }
  }

  /** A cached answer for the spec is still good. */
  predicate LiveIn(cache: map<string, Entry>, spec: Spec, now: int) {
    CacheKey(spec) in cache && now < cache[CacheKey(spec)].expires
  }

  class BackendResolver {
    const parse: Parser
    var docker: bool
    var cache: map<string, Entry>
    ghost var history: seq<Resolution>

    /** Every spec that was ever resolved, as validation left it. */
    ghost var vetted: set<Spec>

    /** Each entry is what a resolution of a vetted spec put there. */
    ghost predicate Sound() reads this {
      && (forall key :: key in cache ==> Justified(key, cache[key], history))
      && (forall i :: 0 <= i < |history| ==> history[i].spec in vetted)
      && (forall i :: 0 <= i < |history| ==>
        Dialable(parse, history[i].spec, history[i].target) && history[i].ttl <= HOSTNAME_TTL)
    }

    ghost predicate AllValidated() reads this`vetted {
      forall s :: s in vetted ==> Validated(parse, s)
    }

    ghost predicate Valid() reads this { Sound() && AllValidated() }

    predicate Live(spec: Spec, now: int) reads this`cache { LiveIn(cache, spec, now) }

    /** The target was worked out for a spec of this key less than its time to live ago. */
    ghost predicate Recent(spec: Spec, t: Target, now: int) reads this`history {
      exists i :: 0 <= i < |history| && CacheKey(history[i].spec) == CacheKey(spec) && history[i].target == t
        && now < history[i].at + history[i].ttl
    }

    /** A recent answer under the key of an unambiguous accepted spec was worked out for that spec. */
    lemma RecentIsDialable(spec: Spec, t: Target, now: int)
      requires Valid() && spec in vetted && !Ambiguous(spec) && Recent(spec, t, now)
      ensures Dialable(parse, spec, t)
    {
      var i :| 0 <= i < |history| && CacheKey(history[i].spec) == CacheKey(spec) && history[i].target == t
        && now < history[i].at + history[i].ttl;
      HitIsForSameSpec(parse, history, spec, i);
    }

    constructor (parse: Parser, docker: bool)
      ensures Valid() && cache == map[] && history == [] && this.parse == parse && this.docker == docker
    {
      this.parse, this.docker := parse, docker;
      cache, history, vetted := map[], [], {};
    }

    method Cached(spec: Spec, now: int) returns (t: Option<Target>)
      requires Sound()
      ensures t.Some? == Live(spec, now)
      ensures t.Some? ==> t.value == cache[CacheKey(spec)].target && Recent(spec, t.value, now)
    {
      if CacheKey(spec) !in cache || !(now < cache[CacheKey(spec)].expires) { return None; }
      assert Justified(CacheKey(spec), cache[CacheKey(spec)], history);
      return Some(cache[CacheKey(spec)].target);
    }

    method StoreEntry(spec: Spec, t: Target, ttl: int, now: int)
      requires Sound() && spec in vetted && Dialable(parse, spec, t) && ttl <= HOSTNAME_TTL
      modifies this`cache, this`history
      ensures Sound() && cache == old(cache)[CacheKey(spec) := Entry(t, now + ttl)]
      ensures history == old(history) + [Resolution(spec, t, now, ttl)]
    {
      ghost var r := Resolution(spec, t, now, ttl);
      StaysJustified(cache, history, r);
      cache := cache[CacheKey(spec) := Entry(t, now + ttl)];
      history := history + [r];
      assert cache == old(cache)[CacheKey(r.spec) := Entry(r.target, r.at + r.ttl)];
    }

    /** Drops the entry under the key of the spec as it is given. */
    method Invalidate(spec: Spec)
      requires Valid()
      modifies this`cache
      ensures Valid() && cache == old(cache) - {CacheKey(spec)}
    {
      cache := cache - {CacheKey(spec)};
    }

    method SetDocker(docker: bool)
      requires Valid()
      modifies this`docker, this`cache
      ensures Valid() && cache == map[] && this.docker == docker
    {
      this.docker := docker;
      cache := map[];
    }

    method SelectEndpoint(w: World, endpoints: seq<Endpoint>, port: int, proto: string)
      returns (r: Result<Target, ResolveError>)
      ensures r == Selected(parse, w, endpoints, port, proto)
    {
      var firstSafe: Option<Endpoint> := None;
      ghost var safe, answers := IsSafe(parse), Answers(parse, w.probe, port, proto);
      for i := 0 to |endpoints|
        invariant firstSafe == First(endpoints[..i], safe)
        invariant First(endpoints[..i], answers).None?
      {
        FirstSnoc(endpoints, i, safe);
        FirstSnoc(endpoints, i, answers);
        var ep := endpoints[i];
        assert safe(ep) == SafeBackendIp(parse, ep.ip);
        assert answers(ep) == (safe(ep) && Probing(port, proto) && w.probe(ep.ip, port));
        if !SafeBackendIp(parse, ep.ip) { continue; }
        if firstSafe.None? { firstSafe := Some(ep); }
        if proto != "tcp" || port <= 0 { continue; }
        if w.probe(ep.ip, port) {
          FirstOfPrefix(endpoints, i + 1, answers);
          return Success(Target(ep.ip, ep.network, "runtime socket, probe confirmed"));
        }
      }
      assert endpoints[..|endpoints|] == endpoints;
      if firstSafe.None? { return Failure(Unreachable); }
      var detail := "runtime socket, deterministic pick";
      if proto == "tcp" && port > 0 { detail := "runtime socket, no candidate answered probe"; }
      return Success(Target(firstSafe.value.ip, firstSafe.value.network, detail));
    }

    /** `resolveHostname` and `resolveContainer` past their cache check: the answer is worked out, and
        kept if there is one. */
    method ResolveFresh(spec: Spec, w: World, port: int, proto: string) returns (r: Result<Target, ResolveError>)
      requires Sound() && spec in vetted
      modifies this`cache, this`history
      ensures Sound()
      ensures match Fresh(parse, docker, w, spec, port, proto)
        case Success(p) => r == Success(p.0) && cache == old(cache)[CacheKey(spec) := Entry(p.0, w.done + p.1)]
          && history == old(history) + [Resolution(spec, p.0, w.done, p.1)]
        case Failure(e) => r == Failure(e) && cache == old(cache) && history == old(history)
    {
      FreshIsDialable(parse, docker, w, spec, port, proto);
      if spec.kind == "hostname" {
        r := ResolveHostname(spec, w);
      } else {
        r := ResolveContainer(spec, w, port, proto);
      }
    }

    method ResolveHostname(spec: Spec, w: World) returns (r: Result<Target, ResolveError>)
      requires Sound() && spec in vetted
      modifies this`cache, this`history
      ensures Sound()
      ensures match FreshHostname(parse, w, spec)
        case Success(p) => r == Success(p.0) && cache == old(cache)[CacheKey(spec) := Entry(p.0, w.done + p.1)]
          && history == old(history) + [Resolution(spec, p.0, w.done, p.1)]
        case Failure(e) => r == Failure(e) && cache == old(cache) && history == old(history)
    {
      var addrs := w.lookup(spec.value);
      if addrs.None? || |addrs.value| == 0 { return Failure(Unreachable); }
      for i := 0 to |addrs.value|
        invariant forall j :: 0 <= j < i ==> SafeBackendIp(parse, addrs.value[j])
        invariant cache == old(cache) && history == old(history)
      {
        if !SafeBackendIp(parse, addrs.value[i]) { return Failure(Refused); }
      }
      var t := Target(spec.value, "", "dns name");
      StoreEntry(spec, t, HOSTNAME_TTL, w.done);
      return Success(t);
    }

    method ResolveContainer(spec: Spec, w: World, port: int, proto: string) returns (r: Result<Target, ResolveError>)
      requires Sound() && spec in vetted
      modifies this`cache, this`history
      ensures Sound()
      ensures match FreshContainer(parse, docker, w, spec, port, proto)
        case Success(p) => r == Success(p.0) && cache == old(cache)[CacheKey(spec) := Entry(p.0, w.done + p.1)]
          && history == old(history) + [Resolution(spec, p.0, w.done, p.1)]
        case Failure(e) => r == Failure(e) && cache == old(cache) && history == old(history)
    {
      if spec.network == "" {
        var addrs := w.lookup(spec.value);
        if addrs.Some? && |addrs.value| > 0 {
          var t := Target(spec.value, "", "runtime dns (shared network)");
          StoreEntry(spec, t, NAME_TTL, w.done);
          return Success(t);
        }
      }
      r := FindEndpoint(spec, w, port, proto);
      if r.Failure? { return; }
      StoreEntry(spec, r.value, ADDR_TTL, w.done);
    }

    /** The containers behind a spec that no name resolves. */
    method FindEndpoint(spec: Spec, w: World, port: int, proto: string) returns (r: Result<Target, ResolveError>)
      requires !ResolvesByName(w, spec)
      ensures match FreshContainer(parse, docker, w, spec, port, proto)
        case Success(p) => r == Success(p.0) && p.1 == ADDR_TTL && SafeBackendIp(parse, p.0.host)
        case Failure(e) => r == Failure(e)
    {
      if !docker { return Failure(Unreachable); }
      var endpoints := w.containers(spec.value, spec.network);
      if endpoints.None? { return Failure(Unreachable); }
      r := SelectEndpoint(w, endpoints.value, port, proto);
    }

    /** `resolveHostname` and `resolveContainer` with the cache check they both begin with. */
    method ResolveRemote(spec: Spec, w: World, port: int, proto: string) returns (r: Result<Target, ResolveError>)
      requires Sound() && spec in vetted
      modifies this`cache, this`history
      ensures Sound()
      ensures if old(Live(spec, w.now)) then
          r == Success(old(cache)[CacheKey(spec)].target) && Recent(spec, r.value, w.now) && cache == old(cache)
        else match Fresh(parse, docker, w, spec, port, proto)
          case Success(p) => r == Success(p.0) && cache == old(cache)[CacheKey(spec) := Entry(p.0, w.done + p.1)]
          case Failure(e) => r == Failure(e) && cache == old(cache)
      ensures r.Success? ==> Recent(spec, r.value, w.now) || Dialable(parse, spec, r.value)
    {
      var hit := Cached(spec, w.now);
      if hit.Some? { return Success(hit.value); }
      FreshIsDialable(parse, docker, w, spec, port, proto);
      r := ResolveFresh(spec, w, port, proto);
    }

    method Vet(spec: Spec) returns (checked: Option<Spec>)
      requires Valid()
      modifies this`vetted
      ensures Valid() && checked == Validate(parse, spec)
      ensures checked.Some? ==>
        checked.value in vetted && (checked.value.kind == "ip" ==> SafeBackendIp(parse, checked.value.value))
    {
      checked := Validate(parse, spec);
      if checked.Some? {
        ValidateIdempotent(parse, spec);
        vetted := vetted + {checked.value};
      }
    }

    /** The answer for a spec as validation left it. */
    ghost predicate AnswersAs(n: Spec, w: World, port: int, proto: string, was: map<string, Entry>,
                              r: Result<Target, ResolveError>)
      reads this
    {
      if n.kind == "host" then r == Success(Target("127.0.0.1", "", "gateway loopback")) && cache == was
      else if n.kind == "ip" then
        r == Success(Target(n.value, "", "literal address")) && SafeBackendIp(parse, n.value) && cache == was
      else if LiveIn(was, n, w.now) then
        r == Success(was[CacheKey(n)].target) && Recent(n, r.value, w.now) && cache == was
      else match Fresh(parse, docker, w, n, port, proto)
        case Success(p) => r == Success(p.0) && cache == was[CacheKey(n) := Entry(p.0, w.done + p.1)]
        case Failure(e) => r == Failure(e) && cache == was
    }

    method ResolveVetted(n: Spec, w: World, port: int, proto: string) returns (r: Result<Target, ResolveError>)
      requires Sound() && n in vetted && (n.kind == "ip" ==> SafeBackendIp(parse, n.value))
      modifies this`cache, this`history
      ensures Sound() && AnswersAs(n, w, port, proto, old(cache), r)
      ensures r.Success? && n.kind != "host" ==> Recent(n, r.value, w.now) || Dialable(parse, n, r.value)
    {
      if n.kind == "host" { return Success(Target("127.0.0.1", "", "gateway loopback")); }
      if n.kind == "ip" {
        if !SafeBackendIp(parse, n.value) { return Failure(Refused); }
        return Success(Target(n.value, "", "literal address"));
      }
      r := ResolveRemote(n, w, port, proto);
    }

    /** `Resolve`. Loopback is dialled for host origins only; anything else is the name the spec
        gives or a safe address, unless its cache key can be cut in another place, and a cached answer
        is one that was worked out for the same cache key less than its time to live ago. */
    method Resolve(spec: Spec, w: World, port: int, proto: string) returns (r: Result<Target, ResolveError>)
      requires Valid()
      modifies this`cache, this`history, this`vetted
      ensures Valid()
      ensures match Validate(parse, spec)
        case None => r == Failure(Unreachable) && cache == old(cache)
        case Some(n) =>
          && AnswersAs(n, w, port, proto, old(cache), r)
          && (r.Success? && n.kind != "host" && !Ambiguous(n) ==> Dialable(parse, n, r.value))
      ensures r.Success? && Validate(parse, spec).value.kind != "host" && !Ambiguous(Validate(parse, spec).value) ==>
        var n := Validate(parse, spec).value;
        (r.value.host == n.value && n.kind != "ip") || SafeText(parse, r.value.host)
    {
      var checked := Vet(spec);
      if checked.None? { return Failure(Unreachable); }
      var n := checked.value;
      r := ResolveVetted(n, w, port, proto);
      if r.Success? && !Ambiguous(n) && Recent(n, r.value, w.now) { RecentIsDialable(n, r.value, w.now); }
      if r.Success? { SafeTextIff(parse, r.value.host); }
    }
  }

  lemma FirstSnoc(endpoints: seq<Endpoint>, i: nat, p: Endpoint -> bool)
    requires i < |endpoints|
    ensures First(endpoints[..i + 1], p) ==
      if First(endpoints[..i], p).Some? then First(endpoints[..i], p)
      else if p(endpoints[i]) then Some(endpoints[i]) else None
  {
    assert endpoints[..i + 1][..i] == endpoints[..i];
  }

  lemma {:induction false} FirstOfPrefix(endpoints: seq<Endpoint>, i: nat, p: Endpoint -> bool)
    requires i <= |endpoints| && First(endpoints[..i], p).Some?
    ensures First(endpoints, p) == First(endpoints[..i], p)
  {
    if i < |endpoints| {
      assert endpoints[..|endpoints| - 1][..i] == endpoints[..i];
      FirstOfPrefix(endpoints[..|endpoints| - 1], i, p);
    } else {
      assert endpoints[..i] == endpoints;
    }
  }

  // ----- eviction -------------------------------------------------------------

  /** Invalidating a spec drops the entry `Resolve` would use for it if and only if the spec is one the
      store would keep as it stands. */
  lemma InvalidateEvicts(parse: Parser, spec: Spec, cache: map<string, Entry>)
    requires Validate(parse, spec).Some? && CacheKey(Validate(parse, spec).value) in cache
    ensures CacheKey(Validate(parse, spec).value) !in cache - {CacheKey(spec)} <==> Validated(parse, spec)
  {
    NormalKey(parse, spec);
  }

  /** A spec that validation changes gets another key: trimming shortens it, and lower-casing changes
      the kind. */
  lemma NormalKey(parse: Parser, spec: Spec)
    requires Validate(parse, spec).Some?
    ensures var n := Validate(parse, spec).value; CacheKey(n) == CacheKey(spec) <==> n == spec
  {
    var n := Validate(parse, spec).value;
    TrimShortens(spec.kind);
    TrimShortens(spec.value);
    TrimShortens(spec.network);
    assert |n.kind| == |TrimSpace(spec.kind)|;
    if CacheKey(n) == CacheKey(spec) { SameKeySameParts(n, spec); }
  }

  lemma SameKeySameParts(n: Spec, spec: Spec)
    requires CacheKey(n) == CacheKey(spec) && |n.kind| <= |spec.kind|
    requires n.value == spec.value || |n.value| < |spec.value|
    requires n.network == spec.network || |n.network| < |spec.network|
    ensures n == spec
  {
    assert |CacheKey(n)| == |n.kind| + |n.value| + |n.network| + 2;
    assert |CacheKey(spec)| == |spec.kind| + |spec.value| + |spec.network| + 2;
    assert CacheKey(n)[..|n.kind|] == n.kind && CacheKey(spec)[..|spec.kind|] == spec.kind;
  }

  /** A cached answer was worked out for the very spec asked about, when the key of that spec can be cut
      in no other place. */
  lemma HitIsForSameSpec(parse: Parser, history: seq<Resolution>, spec: Spec, i: nat)
    requires i < |history| && Validated(parse, history[i].spec) && Validated(parse, spec)
    requires CacheKey(history[i].spec) == CacheKey(spec) && !Ambiguous(spec)
    ensures history[i].spec == spec
  {
    SameKeySameSpec(parse, spec, history[i].spec);
  }
}
