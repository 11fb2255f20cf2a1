/** Admission against revocation. Connection handlers (daemon/proxy/tcp.go, and daemon/proxy/udp.go
    for the packet that opens a session) load the published index, check it, resolve and dial, and
    only then add their flow; the notifier (daemon/runtime/daemon.go) stores a new index and then
    reaps. The steps below are the atomic ones; a run interleaves them in any way. */
module Admission {
  import opened Wrappers
  import opened Schema
  import opened PolicyIndex
  import opened Resolver
  import opened Flows
  import opened Keys
  import Origin

  /** A handler holds the version of the index it loaded, not the published one. */
  datatype Handler =
    | Loaded(version: nat, srcIp: string, vip: string, port: int, protocol: string)
    | Cleared(version: nat, flow: Flow)
    | Live(id: nat)
    | Finished

  /** How a live flow came in: the version its handler checked, and the reaps finished by then. */
  datatype Entry = Entry(version: nat, reapsBefore: nat)

  datatype State = State(
    indexes: seq<Index>,          // every index stored so far; the last one is published
    reaps: nat,                   // notifications whose `Reap` is over
    handlers: map<nat, Handler>,
    next: nat,
    flows: map<nat, Flow>,
    entries: map<nat, Entry>)

  datatype Step =
    | Load(h: nat, srcIp: string, vip: string, port: int, protocol: string)
    | Check(h: nat)
    | GiveUp(h: nat)              // resolving or dialling failed
    | Admit(h: nat)               // Flows.Add
    | Leave(h: nat)               // Flows.Remove
    | Publish(index: Index)       // holder.Store of whatever Build returned
    | Reap

  ghost predicate Published(s: State) { |s.indexes| > 0 }

  function Version(s: State): nat
    requires Published(s)
  {
    |s.indexes| - 1
  }

  function Current(s: State): Index
    requires Published(s)
  {
    s.indexes[Version(s)]
  }

  /** No notification is in progress. */
  ghost predicate Quiescent(s: State) { Published(s) && s.reaps == Version(s) }

  ghost predicate Enabled(s: State, step: Step) {
    && Published(s)
    && match step
       case Load(h, _, _, _, _) => h !in s.handlers
       case Check(h) => h in s.handlers && s.handlers[h].Loaded? && s.handlers[h].version <= Version(s)
       case GiveUp(h) => h in s.handlers && s.handlers[h].Cleared?
       case Admit(h) => h in s.handlers && s.handlers[h].Cleared?
       case Leave(h) => h in s.handlers && s.handlers[h].Live?
       case Publish(index) => Quiescent(s) && Coherent(index)
       case Reap => s.reaps + 1 == Version(s)
  }

  ghost function Next(s: State, step: Step): State
    requires Enabled(s, step)
  {
    match step
    case Load(h, srcIp, vip, port, protocol) =>
      s.(handlers := s.handlers[h := Loaded(Version(s), srcIp, vip, port, protocol)])
    case Check(h) =>
      var l := s.handlers[h];
      var v := DecideService(s.indexes[l.version], l.srcIp, l.vip, l.port, l.protocol);
      if v.decision == Allow && v.user.Some? && v.service.Some? then
        s.(handlers := s.handlers[h :=
          Cleared(l.version, Flow(v.user.value.id, Ref(ServiceType, v.service.value.id), l.port, l.protocol))])
      else s.(handlers := s.handlers[h := Finished])
    case GiveUp(h) => s.(handlers := s.handlers[h := Finished])
    case Admit(h) =>
      var id := s.next + 1;
      s.(handlers := s.handlers[h := Live(id)], next := id, flows := s.flows[id := s.handlers[h].flow],
         entries := s.entries[id := Entry(s.handlers[h].version, s.reaps)])
    case Leave(h) => s.(handlers := s.handlers[h := Finished], flows := s.flows - {s.handlers[h].id})
    case Publish(index) => s.(indexes := s.indexes + [index])
    case Reap => s.(flows := s.flows - DeniedIds(Current(s), s.flows), reaps := s.reaps + 1)
  }

  /** A run skips the steps that are not enabled when their turn comes. */
  ghost function Run(s: State, steps: seq<Step>): State
    decreases |steps|
  {
    if steps == [] then s else Run(if Enabled(s, steps[0]) then Next(s, steps[0]) else s, steps[1..])
  }

  function Boot(index: Index): State { State([index], 0, map[], 0, map[], map[]) }

  // ----- the invariant --------------------------------------------------------

  ghost predicate HandlerSound(s: State, h: Handler) {
    match h
    case Loaded(version, _, _, _, _) => version < |s.indexes|
    case Cleared(version, flow) => version < |s.indexes| && FlowAllowed(s.indexes[version], flow)
    case _ => true
  }

  /** A live flow passes the index its handler checked, and, if some reap ran since it came in,
      the index of the latest reap. */
  ghost predicate FlowSound(s: State, id: nat)
    requires id in s.flows
  {
    id in s.entries && id <= s.next &&
    var e := s.entries[id];
    && e.version < |s.indexes| && FlowAllowed(s.indexes[e.version], s.flows[id])
    && e.reapsBefore <= s.reaps < |s.indexes|
    && (e.reapsBefore < s.reaps ==> FlowAllowed(s.indexes[s.reaps], s.flows[id]))
  }

  ghost predicate HandlersSound(s: State) { forall h :: h in s.handlers ==> HandlerSound(s, s.handlers[h]) }

  ghost predicate FlowsSound(s: State) { forall id :: id in s.flows ==> FlowSound(s, id) }

  ghost predicate Sound(s: State) {
    && Published(s) && s.reaps <= Version(s) <= s.reaps + 1
    && (forall i :: 0 <= i < |s.indexes| ==> Coherent(s.indexes[i]))
    && HandlersSound(s) && FlowsSound(s)
  }

  lemma CheckIsSound(s: State, h: nat)
    requires Sound(s) && Enabled(s, Check(h))
    ensures HandlersSound(Next(s, Check(h)))
  {
    var l := s.handlers[h];
    var idx := s.indexes[l.version];
    if DecideService(idx, l.srcIp, l.vip, l.port, l.protocol).decision == Allow {
      AdmittedPassesRecheck(idx, l.srcIp, l.vip, l.port, l.protocol);
    }
    var s' := Next(s, Check(h));
    forall k | k in s'.handlers ensures HandlerSound(s', s'.handlers[k]) {
      if k != h { assert HandlerSound(s, s.handlers[k]); }
    }
  }

  lemma HandlersKept(s: State, step: Step)
    requires Sound(s) && Enabled(s, step)
    ensures HandlersSound(Next(s, step))
  {
    var s' := Next(s, step);
    if step.Check? {
      CheckIsSound(s, step.h);
    } else {
      assert s'.indexes[..|s.indexes|] == s.indexes;
      forall k | k in s'.handlers ensures HandlerSound(s', s'.handlers[k]) {
        if k in s.handlers && s'.handlers[k] == s.handlers[k] { assert HandlerSound(s, s.handlers[k]); }
      }
    }
  }

  /** A step that leaves a flow in the table leaves it as it was; only a reap counts, and it has checked
      the flow. */
  ghost predicate LeftAlone(s: State, s': State, id: nat)
    requires id in s.flows
  {
    && id in s'.flows && s'.flows[id] == s.flows[id]
    && (id in s.entries && id <= s.next ==> id in s'.entries && s'.entries[id] == s.entries[id])
    && s.indexes <= s'.indexes && s.next <= s'.next
    && (s'.reaps == s.reaps
      || (s'.reaps == s.reaps + 1 == |s'.indexes| - 1 && id !in DeniedIds(s'.indexes[s'.reaps], s.flows)))
  }

  lemma StepLeavesAlone(s: State, step: Step, id: nat)
    requires Enabled(s, step) && id in s.flows && id <= s.next && id in Next(s, step).flows
    ensures LeftAlone(s, Next(s, step), id)
  {
    match step {
      case Reap => ReapLeavesAlone(s, id);
      case Publish(_) =>
      case Admit(_) =>
      case Leave(_) =>
      case _ =>
    }
  }

  lemma ReapLeavesAlone(s: State, id: nat)
    requires Enabled(s, Reap) && id in s.flows && id in Next(s, Reap).flows
    ensures LeftAlone(s, Next(s, Reap), id)
  {
    assert Next(s, Reap).indexes == s.indexes;
  }

  /** A flow that a step leaves in the table stays sound. */
  lemma FlowKept(s: State, s': State, id: nat)
    requires id in s.flows && LeftAlone(s, s', id) && FlowSound(s, id)
    ensures FlowSound(s', id)
  {
    var e := s.entries[id];
    assert s'.indexes[e.version] == s.indexes[e.version] && s'.indexes[s.reaps] == s.indexes[s.reaps];
  }

  lemma FlowsKept(s: State, step: Step)
    requires Sound(s) && Enabled(s, step)
    ensures FlowsSound(Next(s, step))
  {
    var s' := Next(s, step);
    forall id | id in s'.flows ensures FlowSound(s', id) {
      if id in s.flows {
        assert FlowSound(s, id);
        StepLeavesAlone(s, step, id);
        FlowKept(s, s', id);
      } else {
        assert step.Admit? && HandlerSound(s, s.handlers[step.h]);
      }
    }
  }

  lemma StepKeepsSound(s: State, step: Step)
    requires Sound(s) && Enabled(s, step)
    ensures Sound(Next(s, step))
  {
    HandlersKept(s, step);
    FlowsKept(s, step);
  }

  lemma {:induction false} RunKeepsSound(s: State, steps: seq<Step>)
    requires Sound(s)
    ensures Sound(Run(s, steps))
    decreases |steps|
  {
    if steps == [] {
    } else {
      if Enabled(s, steps[0]) { StepKeepsSound(s, steps[0]); }
      RunKeepsSound(if Enabled(s, steps[0]) then Next(s, steps[0]) else s, steps[1..]);
    }
  }

  // ----- revocation safety ----------------------------------------------------

  /** The flow's handler checked an older index and added the flow after the latest reap. */
  ghost predicate StaleAdmission(s: State, id: nat)
    requires Published(s)
  {
    id in s.entries && s.entries[id].version < Version(s) && s.entries[id].reapsBefore == s.reaps
  }

  ghost predicate AllAllowed(s: State)
    requires Published(s)
  {
    forall id :: id in s.flows ==> FlowAllowed(Current(s), s.flows[id])
  }

  lemma OnlyStaleFlowsAreDenied(s: State, id: nat)
    requires Quiescent(s) && id in s.flows && FlowSound(s, id)
    ensures FlowAllowed(Current(s), s.flows[id]) || StaleAdmission(s, id)
  {
    var e := s.entries[id];
    if e.version == Version(s) {
    } else if e.reapsBefore < s.reaps {
      assert s.indexes[s.reaps] == Current(s);
    }
  }

  /** Whatever the interleaving: between notifications a live flow that the published index denies
      is a stale admission; so all live flows are allowed if and only if the stale ones are. */
  lemma RevocationSafety(boot: Index, steps: seq<Step>)
    requires Coherent(boot)
    ensures var s := Run(Boot(boot), steps);
      Published(s) && (Quiescent(s) ==>
        && (forall id :: id in s.flows && !FlowAllowed(Current(s), s.flows[id]) ==> StaleAdmission(s, id))
        && (AllAllowed(s) <==>
          forall id :: id in s.flows && StaleAdmission(s, id) ==> FlowAllowed(Current(s), s.flows[id])))
  {
    BootIsSound(boot);
    RunKeepsSound(Boot(boot), steps);
    var s := Run(Boot(boot), steps);
    forall id | Quiescent(s) && id in s.flows && !FlowAllowed(Current(s), s.flows[id]) ensures StaleAdmission(s, id) {
      assert FlowSound(s, id);
      OnlyStaleFlowsAreDenied(s, id);
    }
  }

  // ----- how long a stale flow lives ------------------------------------------

  /** The flow that had the id when `reaps` notifications were over: if it is live after another one
      is, then it is unchanged and the index of that one allows it. */
  ghost predicate Tracked(reaps: nat, id: nat, flow: Flow, s: State) {
    && reaps <= s.reaps < |s.indexes| && id <= s.next
    && (id in s.flows ==> s.flows[id] == flow && (s.reaps > reaps ==> FlowAllowed(s.indexes[reaps + 1], flow)))
  }

  /** Counters only grow, and an id that was issued and is gone stays out. */
  lemma StepGrows(s: State, step: Step, id: nat)
    requires Enabled(s, step) && s.reaps < |s.indexes| && id <= s.next
    ensures var s' := Next(s, step);
      s.reaps <= s'.reaps < |s'.indexes| && s.next <= s'.next && (id in s'.flows ==> id in s.flows)
  {
  }

  lemma LeftAloneTracks(reaps: nat, id: nat, flow: Flow, s: State, s': State)
    requires Tracked(reaps, id, flow, s) && id in s.flows && LeftAlone(s, s', id)
    ensures s'.flows[id] == flow && (s'.reaps > reaps ==> FlowAllowed(s'.indexes[reaps + 1], flow))
  {
    assert s.reaps > reaps ==> s'.indexes[reaps + 1] == s.indexes[reaps + 1];
  }

  lemma StepTracks(reaps: nat, id: nat, flow: Flow, s: State, step: Step)
    requires Tracked(reaps, id, flow, s) && Enabled(s, step)
    ensures Tracked(reaps, id, flow, Next(s, step))
  {
    StepGrows(s, step, id);
    if id in Next(s, step).flows {
      StepLeavesAlone(s, step, id);
      LeftAloneTracks(reaps, id, flow, s, Next(s, step));
    }
  }

  lemma {:induction false} RunTracks(reaps: nat, id: nat, flow: Flow, s: State, steps: seq<Step>)
    requires Tracked(reaps, id, flow, s)
    ensures Tracked(reaps, id, flow, Run(s, steps))
    decreases |steps|
  {
    if steps == [] {
    } else {
      if Enabled(s, steps[0]) { StepTracks(reaps, id, flow, s, steps[0]); }
      RunTracks(reaps, id, flow, if Enabled(s, steps[0]) then Next(s, steps[0]) else s, steps[1..]);
    }
  }

  /** However a run goes on, a live flow, stale or not, that the index of the next notification denies
      is gone once that notification is over, and its id stays free: a stale flow does not outlive
      the next reap. */
  lemma StaleFlowsEnd(boot: Index, before: seq<Step>, after: seq<Step>, id: nat)
    requires Coherent(boot)
    requires var s := Run(Boot(boot), before); id in s.flows && Run(s, after).reaps > s.reaps
    ensures var s := Run(Boot(boot), before);
      var s' := Run(s, after);
      s.reaps + 1 < |s'.indexes| && (!FlowAllowed(s'.indexes[s.reaps + 1], s.flows[id]) ==> id !in s'.flows)
  {
    BootIsSound(boot);
    RunKeepsSound(Boot(boot), before);
    DeniedFlowEnds(Run(Boot(boot), before), after, id);
  }

  lemma BootIsSound(boot: Index)
    requires Coherent(boot)
    ensures Sound(Boot(boot))
  {
  }

  lemma DeniedFlowEnds(s: State, after: seq<Step>, id: nat)
    requires Sound(s) && id in s.flows && Run(s, after).reaps > s.reaps
    ensures var s' := Run(s, after);
      s.reaps + 1 < |s'.indexes| && (!FlowAllowed(s'.indexes[s.reaps + 1], s.flows[id]) ==> id !in s'.flows)
  {
    assert FlowSound(s, id);
    RunTracks(s.reaps, id, s.flows[id], s, after);
  }

  /** Right after a reap nothing live is denied, stale or not. */
  lemma ReapRevokes(s: State)
    requires Enabled(s, Reap)
    ensures var s' := Next(s, Reap);
      Quiescent(s') && forall id :: id in s'.flows <==> id in s.flows && FlowAllowed(Current(s'), s.flows[id])
  {
  }

  // ----- whose flows are live -------------------------------------------------

  /** The ids that the reaps of a run took out of the flow table. */
  ghost function Reaped(s: State, steps: seq<Step>): set<nat>
    decreases |steps|
  {
    if steps == [] then {}
    else if !Enabled(s, steps[0]) then Reaped(s, steps[1..])
    else (if steps[0].Reap? then DeniedIds(Current(s), s.flows) else {}) + Reaped(Next(s, steps[0]), steps[1..])
  }

  predicate Holds(s: State, h: nat, id: nat) { h in s.handlers && s.handlers[h] == Live(id) }

  /** No two handlers hold one id; one that is held is in the table unless a reap took it out, and the
      table has no others. */
  ghost predicate Handled(s: State, gone: set<nat>) {
    && (forall id :: id in gone ==> id <= s.next)
    && (forall h, k, id: nat :: Holds(s, h, id) && Holds(s, k, id) ==> h == k)
    && (forall h, id: nat :: Holds(s, h, id) ==> id <= s.next && (id in s.flows <==> id !in gone))
    && (forall id :: id in s.flows ==> exists h :: Holds(s, h, id))
  }

  lemma StepKeepsHolding(s: State, step: Step, h: nat, id: nat)
    requires Enabled(s, step)
    ensures Holds(s, h, id) && step != Leave(h) ==> Holds(Next(s, step), h, id)
    ensures Holds(Next(s, step), h, id) ==> Holds(s, h, id) || (step == Admit(h) && id == s.next + 1)
  {
  }

  lemma StepKeepsHandled(s: State, step: Step, gone: set<nat>)
    requires Handled(s, gone) && Enabled(s, step)
    ensures Handled(Next(s, step), gone + if step.Reap? then DeniedIds(Current(s), s.flows) else {})
  {
    var s' := Next(s, step);
    forall h, id: nat ensures Holds(s, h, id) && step != Leave(h) ==> Holds(s', h, id)
      ensures Holds(s', h, id) ==> Holds(s, h, id) || (step == Admit(h) && id == s.next + 1)
    {
      StepKeepsHolding(s, step, h, id);
    }
    if step.Leave? { assert Holds(s, step.h, s.handlers[step.h].id); }
    forall id | id in gone || id in s.flows ensures id <= s.next {
      if id in s.flows { var h :| Holds(s, h, id); }
    }
    forall id | id in s'.flows ensures exists h :: Holds(s', h, id) {
      if id in s.flows {
        var h :| Holds(s, h, id);
        assert Holds(s', h, id);
      } else {
        assert Holds(s', step.h, id);
      }
    }
  }

  lemma {:induction false} RunKeepsHandled(s: State, steps: seq<Step>, gone: set<nat>)
    requires Handled(s, gone)
    ensures Handled(Run(s, steps), gone + Reaped(s, steps))
    decreases |steps|
  {
    if steps == [] {
      assert gone + {} == gone;
    } else if !Enabled(s, steps[0]) {
      RunKeepsHandled(s, steps[1..], gone);
    } else {
      var now := if steps[0].Reap? then DeniedIds(Current(s), s.flows) else {};
      var rest := Reaped(Next(s, steps[0]), steps[1..]);
      StepKeepsHandled(s, steps[0], gone);
      RunKeepsHandled(Next(s, steps[0]), steps[1..], gone + now);
      assert gone + now + rest == gone + (now + rest);
    }
  }

  /** In every interleaving a flow is in the table exactly while the one handler that added it is
      serving it and no reap has taken it out: it is there from `Flows.Add`, and gone with
      `Flows.Remove`. */
  lemma LiveWhileHandled(boot: Index, steps: seq<Step>, id: nat)
    ensures var s := Run(Boot(boot), steps);
      && (id in s.flows <==> id !in Reaped(Boot(boot), steps) && exists h :: Holds(s, h, id))
      && (forall h, k :: Holds(s, h, id) && Holds(s, k, id) ==> h == k)
  {
    RunKeepsHandled(Boot(boot), steps, {});
  }

  // ----- stale admissions do happen -------------------------------------------

  /** One user, one service, one rule that lets the user reach the service. */
  function OpenIndex(): Index {
    var user := UserSnapshot(1, "u", "a", NoKey, NoKey);
    var svc := ServiceSnapshot(1, "s", "h", Origin.Spec("host", "", ""), "b", []);
    Index(map["a" := user], map[1 := user], map["b" := svc], map[1 := svc], map[], map[], map[],
          [RuleSnapshot(1, Ref(UserType, 1), Ref(ServiceType, 1), AllowAction)])
  }

  /** The user has been deleted, and everything else with it. */
  function ClosedIndex(): Index { EMPTY_INDEX }

  lemma OpenIndexAllows(port: int, protocol: string)
    ensures Coherent(OpenIndex())
    ensures DecideService(OpenIndex(), "a", "b", port, protocol)
         == ServiceVerdict(Allow, Some(OpenIndex().peerByIp["a"]), Some(OpenIndex().serviceByVip["b"]))
  {
    var idx := OpenIndex();
    WinnerIsGreatest(idx.rules, UserRefs(idx, 1), ServiceRefs(idx, 1));
    assert Covers(idx.rules[0], UserRefs(idx, 1), ServiceRefs(idx, 1));
    assert idx.rules[0] in idx.rules;
  }

  ghost predicate DeniedWhileQuiet(s: State) {
    Quiescent(s) && exists id :: id in s.flows && !FlowAllowed(Current(s), s.flows[id])
  }

  const REVOKED_FLOW := Flow(1, Ref(ServiceType, 1), 80, "tcp")

  /** Load and check on the open index. */
  lemma ClearedOnOpen()
    ensures var s0 := Boot(OpenIndex());
      && Enabled(s0, Load(0, "a", "b", 80, "tcp")) && Enabled(Next(s0, Load(0, "a", "b", 80, "tcp")), Check(0))
      && Next(Next(s0, Load(0, "a", "b", 80, "tcp")), Check(0))
         == State([OpenIndex()], 0, map[0 := Cleared(0, REVOKED_FLOW)], 0, map[], map[])
  {
    OpenIndexAllows(80, "tcp");
  }

  /** A whole notification that revokes the user, then the add. */
  lemma AdmittedAfterRevocation(open: Index)
    ensures var s2 := State([open], 0, map[0 := Cleared(0, REVOKED_FLOW)], 0, map[], map[]);
      DeniedWhileQuiet(Run(s2, [Publish(ClosedIndex())] + ([Reap] + ([Admit(0)] + []))))
  {
    var s2 := State([open], 0, map[0 := Cleared(0, REVOKED_FLOW)], 0, map[], map[]);
    var s3 := Next(s2, Publish(ClosedIndex()));
    var s4 := Next(s3, Reap);
    var s5 := Next(s4, Admit(0));
    assert s5.flows[1] == REVOKED_FLOW && Current(s5) == ClosedIndex();
    RunSteps(s4, Admit(0), []);
    RunSteps(s3, Reap, [Admit(0)] + []);
    RunSteps(s2, Publish(ClosedIndex()), [Reap] + ([Admit(0)] + []));
  }

  /** The flow of a user who is gone is live with no notification in progress. */
  lemma StaleAdmissionHappens()
    ensures exists boot, steps :: Coherent(boot) && DeniedWhileQuiet(Run(Boot(boot), steps))
  {
    var load, s0 := Load(0, "a", "b", 80, "tcp"), Boot(OpenIndex());
    var rest := [Publish(ClosedIndex())] + ([Reap] + ([Admit(0)] + []));
    OpenIndexAllows(80, "tcp");
    ClearedOnOpen();
    AdmittedAfterRevocation(OpenIndex());
    RunSteps(Next(s0, load), Check(0), rest);
    RunSteps(s0, load, [Check(0)] + rest);
    assert DeniedWhileQuiet(Run(s0, [load] + ([Check(0)] + rest)));
  }

  lemma RunSteps(s: State, step: Step, rest: seq<Step>)
    requires Enabled(s, step)
    ensures Run(s, [step] + rest) == Run(Next(s, step), rest)
  {
    assert ([step] + rest)[1..] == rest;
  }
}
