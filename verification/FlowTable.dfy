/** The table of live flows: daemon/policy/flowtable.go. */
module Flows {
  import opened Wrappers
  import opened Schema
  import opened PolicyIndex
  import opened Resolver

  datatype Flow = Flow(srcUser: int, target: Ref, port: int, protocol: string)

  /** `Flow.allowed`: the re-check goes by ids, through the addresses the index gives them. */
  ghost predicate FlowAllowed(idx: Index, f: Flow) {
    f.srcUser in idx.userById &&
    var ip := idx.userById[f.srcUser].ip;
    match f.target.typ
    case ServiceType =>
      f.target.id in idx.serviceById
        && DecideService(idx, ip, idx.serviceById[f.target.id].ip, f.port, f.protocol).decision == Allow
    case UserType =>
      f.target.id in idx.userById && DecidePeer(idx, ip, idx.userById[f.target.id].ip).decision == Allow
    case _ => false
  }

  /** A flow admitted by addresses passes the re-check by ids on the same index. */
  lemma AdmittedPassesRecheck(idx: Index, srcIp: string, vip: string, port: int, protocol: string)
    requires Coherent(idx) && DecideService(idx, srcIp, vip, port, protocol).decision == Allow
    ensures var v := DecideService(idx, srcIp, vip, port, protocol);
      v.user.Some? && v.service.Some?
        && FlowAllowed(idx, Flow(v.user.value.id, Ref(ServiceType, v.service.value.id), port, protocol))
  {
    var user, svc := idx.peerByIp[srcIp], idx.serviceByVip[vip];
    assert idx.userById[user.id] == user && idx.serviceById[svc.id] == svc;
  }

  method Allowed(idx: Index, f: Flow) returns (ok: bool)
    ensures ok == FlowAllowed(idx, f)
  {
    if f.srcUser !in idx.userById { return false; }
    var user := idx.userById[f.srcUser];
    match f.target.typ {
      case ServiceType =>
        if f.target.id !in idx.serviceById { return false; }
        var v := CheckService(idx, user.ip, idx.serviceById[f.target.id].ip, f.port, f.protocol);
        return v.decision == Allow;
      case UserType =>
        if f.target.id !in idx.userById { return false; }
        var v := CheckPeer(idx, user.ip, idx.userById[f.target.id].ip);
        return v.decision == Allow;
      case _ => return false;
    }
  }

  ghost function DeniedIds(idx: Index, flows: map<nat, Flow>): set<nat> {
    set id | id in flows && !FlowAllowed(idx, flows[id])
  }

  ghost predicate NoDuplicates(ids: seq<nat>) { forall i, j :: 0 <= i < j < |ids| ==> ids[i] != ids[j] }

  class FlowTable {
    var next: nat
    var flows: map<nat, Flow>
    /** The mutex: not re-entrant, so whoever locks it must find it free. */
    var locked: bool
    /** The ids whose `Close` has been called, in order. */
    var closed: seq<nat>
    ghost var removed: set<nat>
    ghost var reaped: set<nat>

    /** Every id ever issued is live, removed or reaped, in exactly one way. */
    ghost predicate Valid()
      reads this
    {
      && (forall id: nat :: 1 <= id <= next <==> id in flows || id in removed || id in reaped)
      && flows.Keys !! removed && flows.Keys !! reaped && removed !! reaped
    }

    constructor ()
      ensures Valid() && !locked && flows == map[] && next == 0 && closed == []
    {
      next, flows, locked, closed := 0, map[], false, [];
      removed, reaped := {}, {};
    }

    method Add(f: Flow) returns (id: nat)
      requires Valid() && !locked
      modifies this`next, this`flows
      ensures Valid()
      ensures id == next == old(next) + 1 && id !in old(flows) && id !in removed && id !in reaped
      ensures flows == old(flows)[id := f]
    {
      next := next + 1;
      id := next;
      flows := flows[id := f];
    }

    method Remove(id: nat)
      requires Valid() && !locked
      modifies this`flows, this`removed
      ensures Valid() && flows == old(flows) - {id}
      ensures removed == if id in old(flows) then old(removed) + {id} else old(removed)
    {
      if id in flows { removed := removed + {id}; }
      flows := flows - {id};
    }

    method Snapshot() returns (out: seq<(nat, Flow)>)
      requires Valid() && !locked
      ensures |out| == |flows| && forall p :: p in out <==> p.0 in flows && flows[p.0] == p.1
    {
      out := [];
      var todo := flows.Keys;
      while todo != {}
        invariant todo <= flows.Keys && |out| + |todo| == |flows|
        invariant forall p :: p in out <==> p.0 in flows && p.0 !in todo && flows[p.0] == p.1
      {
        var id := Pick(todo);
        out := out + [(id, flows[id])];
        todo := todo - {id};
      }
    }

    /** The locked half of `Reap`: collect what the index denies, then delete it. */
    method Collect(idx: Index) returns (toClose: seq<nat>)
      requires Valid() && !locked
      modifies this`flows, this`reaped, this`locked
      ensures Valid() && !locked
      ensures NoDuplicates(toClose) && forall id :: id in toClose <==> id in DeniedIds(idx, old(flows))
      ensures flows == old(flows) - DeniedIds(idx, old(flows)) && reaped == old(reaped) + DeniedIds(idx, old(flows))
    {
      locked := true;
      toClose := [];
      var todo := flows.Keys;
      while todo != {}
        invariant todo <= flows.Keys && flows == old(flows) && reaped == old(reaped) && NoDuplicates(toClose)
        invariant forall id :: id in toClose <==> id in DeniedIds(idx, flows) && id !in todo
      {
        var id := Pick(todo);
        var ok := Allowed(idx, flows[id]);
        if !ok { toClose := toClose + [id]; }
        todo := todo - {id};
      }
      for i := 0 to |toClose|
        invariant reaped == old(reaped) && flows == old(flows) - set j | 0 <= j < i :: toClose[j]
      {
        flows := flows - {toClose[i]};
      }
      ghost var denied := DeniedIds(idx, old(flows));
      assert denied == set j | 0 <= j < |toClose| :: toClose[j];
      assert flows.Keys == old(flows).Keys - denied && denied <= old(flows).Keys;
      reaped := reaped + denied;
      locked := false;
    }

    /** One `Close` callback: by then the flow is out of the table and the lock is free, so the
        callback may itself admit flows. */
    method Close(id: nat, admits: seq<Flow>)
      requires Valid() && !locked && id !in flows
      modifies this`next, this`flows, this`closed
      ensures Valid() && closed == old(closed) + [id] && next >= old(next)
      ensures forall other :: other <= old(next) ==> (other in flows <==> other in old(flows))
      ensures forall other :: other in old(flows) ==> other in flows && flows[other] == old(flows)[other]
      ensures admits == [] ==> flows == old(flows) && next == old(next)
    {
      closed := closed + [id];
      for i := 0 to |admits|
        invariant Valid() && !locked && next >= old(next) && closed == old(closed) + [id]
        invariant forall other :: other <= old(next) ==> (other in flows <==> other in old(flows))
        invariant forall other :: other in old(flows) ==> other in flows && flows[other] == old(flows)[other]
        invariant admits == [] ==> flows == old(flows) && next == old(next)
      {
        var _ := Add(admits[i]);
      }
    }

    /** `Reap`: of the flows that were live exactly those the index allows stay, and each other one is
        closed exactly once; `admits` says which flows each callback admits while it runs. */
    method Reap(idx: Index, admits: map<nat, seq<Flow>>) returns (toClose: seq<nat>)
      requires Valid() && !locked
      modifies this
      ensures Valid() && !locked
      ensures NoDuplicates(toClose) && forall id :: id in toClose <==> id in DeniedIds(idx, old(flows))
      ensures closed == old(closed) + toClose && reaped == old(reaped) + DeniedIds(idx, old(flows))
        && removed == old(removed)
      ensures forall id :: id in old(flows) ==> (id in flows <==> FlowAllowed(idx, old(flows)[id]))
      ensures forall id :: id in old(flows) && id in flows ==> flows[id] == old(flows)[id]
      ensures forall id :: id in flows && id !in old(flows) ==> id > old(next)
      ensures admits == map[] ==> flows == old(flows) - DeniedIds(idx, old(flows)) && next == old(next)
    {
      toClose := Collect(idx);
      ghost var kept, issued := flows, next;
      for i := 0 to |toClose|
        invariant Valid() && !locked && next >= issued && reaped == old(reaped) + DeniedIds(idx, old(flows))
          && removed == old(removed)
        invariant closed == old(closed) + toClose[..i]
        invariant forall id :: id <= issued ==> (id in flows <==> id in kept)
        invariant forall id :: id in kept ==> id in flows && flows[id] == kept[id]
        invariant admits == map[] ==> flows == kept && next == issued
      {
        assert toClose[i] in toClose && toClose[i] in old(flows);
        Close(toClose[i], if toClose[i] in admits then admits[toClose[i]] else []);
        assert toClose[..i + 1] == toClose[..i] + [toClose[i]];
      }
      assert toClose[..|toClose|] == toClose;
    }
  }
}
