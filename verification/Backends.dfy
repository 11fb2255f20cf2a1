/** Dropping a backend that does not answer: the dial failure paths of daemon/proxy/tcp.go and udp.go,
    which hand the resolver an origin the store saved. */
module Backends {
  import opened Wrappers
  import opened Schema
  import opened StoreSpec
  import opened ServicesApi
  import opened ResolverCache
  import opened Origin

  /** The origin of a service in the store after some run of operations on an empty one. */
  ghost predicate SavedOrigin(parse: Parser, ops: seq<Op>, id: int, origin: Spec) {
    var t := Run(parse, EMPTY, ops);
    id in t.services && t.services[id].origin == origin
  }

  lemma SavedIsValidated(parse: Parser, ops: seq<Op>, id: int, origin: Spec)
    requires SavedOrigin(parse, ops, id, origin)
    ensures Validate(parse, origin) == Some(origin)
  {
    RunKeepsOrigins(parse, EMPTY, ops);
    assert Validated(parse, origin);
  }

  /** `Invalidate` after a failed dial: at no time is a cached answer left for the service, so the next
      resolution works one out anew. */
  method DialFailed(r: BackendResolver, origin: Spec, ghost ops: seq<Op>, ghost id: int)
    requires r.Valid() && SavedOrigin(r.parse, ops, id, origin)
    modifies r`cache
    ensures r.Valid() && r.cache == old(r.cache) - {CacheKey(origin)}
    ensures Validate(r.parse, origin) == Some(origin) && forall now :: !r.Live(origin, now)
  {
    SavedIsValidated(r.parse, ops, id, origin);
    r.Invalidate(origin);
  }

  /** A dial that fails and is tried again never gets the old cached answer. */
  method Redial(r: BackendResolver, origin: Spec, w: World, port: int, proto: string, ghost ops: seq<Op>, ghost id: int)
    returns (answer: Result<Target, ResolveError>)
    requires r.Valid() && SavedOrigin(r.parse, ops, id, origin) && origin.kind != "host" && origin.kind != "ip"
    modifies r`cache, r`history, r`vetted
    ensures r.Valid()
    ensures match Fresh(r.parse, r.docker, w, origin, port, proto)
      case Success(p) => answer == Success(p.0)
      case Failure(e) => answer == Failure(e)
  {
    DialFailed(r, origin, ops, id);
    answer := r.Resolve(origin, w, port, proto);
  }
}
