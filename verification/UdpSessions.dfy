/** The UDP session table of daemon/proxy/udp.go: a map of sessions guarded by a mutex, one reply pump
    per session, and flow ids shared with the `FlowTable`. The steps are the critical sections of
    the packet handler and of the pumps, and the `FlowTable` calls, which take another mutex; a run
    interleaves them in any way. */
module UdpSessions {
  import opened Wrappers
  import opened PolicyIndex
  import opened Resolver

  datatype Key = Key(srcIp: string, srcPort: int, dstVip: string, dstPort: int)

  /** `found` is the session that `removeFlow` took out of the map. */
  datatype Phase = Reading | Leaving | Deleted(found: Option<nat>) | Finished
  datatype Pump = Pump(key: Key, phase: Phase)

  datatype Owner = UdpFlow | OtherFlow

  /** A packet handler that holds `h.mu`, between `Flows.Add` and the map write. */
  datatype Insertion = Insertion(key: Key, id: nat)

  /** Sessions and pumps are named by the flow id issued for them. */
  datatype State = State(
    sessions: map<Key, nat>,
    pumps: map<nat, Pump>,
    inserting: Option<Insertion>,
    next: nat,
    table: map<nat, Owner>,
    nilExits: nat)

  const START := State(map[], map[], None, 0, map[], 0)

  datatype Step =
    | Open(key: Key)              // no session: resolved, dialled, Flows.Add
    | Insert                      // h.flows[key] = flow; go pumpReplies; unlock
    | Poll(pump: nat)             // the pump looks its session up
    | Stop(pump: nat)             // cancelled, or idle
    | Delete(pump: nat)           // first half of removeFlow
    | Release(pump: nat)          // second half: Flows.Remove
    | ReapSome(ids: set<nat>)     // FlowTable.Reap dropped these
    | OtherAdd                    // a TCP handler's flow
    | OtherRemove(id: nat)

  predicate Active(p: Pump) { p.phase.Reading? || p.phase.Leaving? }

  predicate HasPump(s: State, pump: nat, phase: Phase) { pump in s.pumps && s.pumps[pump].phase == phase }

  predicate Enabled(s: State, step: Step) {
    match step
    case Open(key) => s.inserting.None? && key !in s.sessions
    case Insert => s.inserting.Some?
    case Poll(p) => s.inserting.None? && HasPump(s, p, Reading)
    case Stop(p) => HasPump(s, p, Reading)
    case Delete(p) => s.inserting.None? && HasPump(s, p, Leaving)
    case Release(p) => p in s.pumps && s.pumps[p].phase.Deleted?
    case ReapSome(_) => true
    case OtherAdd => true
    case OtherRemove(id) => id in s.table && s.table[id] == OtherFlow
  }

  function Look(s: State, key: Key): Option<nat> {
    if key in s.sessions then Some(s.sessions[key]) else None
  }

  function SetPhase(s: State, pump: nat, phase: Phase): State
    requires pump in s.pumps
  {
    s.(pumps := s.pumps[pump := s.pumps[pump].(phase := phase)])
  }

  function Next(s: State, step: Step): State
    requires Enabled(s, step)
  {
    match step
    case Open(key) =>
      var id := s.next + 1;
      s.(next := id, table := s.table[id := UdpFlow], inserting := Some(Insertion(key, id)))
    case Insert =>
      var i := s.inserting.value;
      s.(sessions := s.sessions[i.key := i.id], pumps := s.pumps[i.id := Pump(i.key, Reading)], inserting := None)
    case Poll(p) =>
      if Look(s, s.pumps[p].key).None? then SetPhase(s, p, Leaving).(nilExits := s.nilExits + 1) else s
    case Stop(p) => SetPhase(s, p, Leaving)
    case Delete(p) =>
      var key := s.pumps[p].key;
      SetPhase(s, p, Deleted(Look(s, key))).(sessions := s.sessions - {key})
    case Release(p) =>
      var found := s.pumps[p].phase.found;
      SetPhase(s, p, Finished).(table := if found.Some? then s.table - {found.value} else s.table)
    case ReapSome(ids) => s.(table := s.table - ids)
    case OtherAdd => s.(next := s.next + 1, table := s.table[s.next + 1 := OtherFlow])
    case OtherRemove(id) => s.(table := s.table - {id})
  }

  function Run(s: State, steps: seq<Step>): State
    decreases |steps|
  {
    if steps == [] then s else Run(if Enabled(s, steps[0]) then Next(s, steps[0]) else s, steps[1..])
  }

  // ----- the invariant --------------------------------------------------------

  /** Sessions and pumps that have not deleted theirs name each other. */
  ghost predicate OnePumpPerSession(s: State) {
    && (forall key :: key in s.sessions ==>
          var id := s.sessions[key]; id in s.pumps && s.pumps[id].key == key && Active(s.pumps[id]))
    && (forall id :: id in s.pumps && Active(s.pumps[id]) ==> Look(s, s.pumps[id].key) == Some(id))
  }

  ghost predicate InsertionSound(s: State) {
    s.inserting.Some? ==>
      var i := s.inserting.value; i.id <= s.next && i.id !in s.pumps && i.key !in s.sessions
  }

  /** A UDP id in the flow table is being inserted, or its pump has not yet called `Flows.Remove`. */
  ghost predicate IdOwned(s: State, id: nat) {
    (s.inserting.Some? && s.inserting.value.id == id) || (id in s.pumps && !s.pumps[id].phase.Finished?)
  }

  ghost predicate PumpsSound(s: State) {
    && InsertionSound(s) && s.nilExits == 0
    && forall id :: id in s.pumps ==>
      id <= s.next && (s.pumps[id].phase.Deleted? ==> s.pumps[id].phase.found == Some(id))
  }

  ghost predicate TableSound(s: State) {
    forall id :: id in s.table ==> id <= s.next && (s.table[id] == UdpFlow ==> IdOwned(s, id))
  }

  ghost predicate Sound(s: State) { OnePumpPerSession(s) && PumpsSound(s) && TableSound(s) }

  lemma InsertKeepsPairing(s: State)
    requires OnePumpPerSession(s) && InsertionSound(s) && s.inserting.Some?
    ensures OnePumpPerSession(Next(s, Insert))
  {
  }

  lemma DeleteKeepsPairing(s: State, p: nat)
    requires OnePumpPerSession(s) && Enabled(s, Delete(p))
    ensures OnePumpPerSession(Next(s, Delete(p)))
  {
    assert Look(s, s.pumps[p].key) == Some(p);
  }

  /** Moving one pump to another phase keeps the pairing when it stays active or was not. */
  lemma PhaseKeepsPairing(s: State, p: nat, phase: Phase)
    requires OnePumpPerSession(s) && p in s.pumps
    requires Active(s.pumps[p]) == Active(s.pumps[p].(phase := phase))
    ensures OnePumpPerSession(SetPhase(s, p, phase))
  {
  }

  lemma StepKeepsPairing(s: State, step: Step)
    requires Sound(s) && Enabled(s, step)
    ensures OnePumpPerSession(Next(s, step))
  {
    match step {
      case Insert => InsertKeepsPairing(s);
      case Poll(p) => PhaseKeepsPairing(s, p, Leaving);
      case Stop(p) => PhaseKeepsPairing(s, p, Leaving);
      case Delete(p) => DeleteKeepsPairing(s, p);
      case Release(p) => PhaseKeepsPairing(s, p, Finished);
      case _ =>
    }
  }

  lemma StepKeepsPumps(s: State, step: Step)
    requires Sound(s) && Enabled(s, step)
    ensures PumpsSound(Next(s, step))
  {
  }

  lemma StepKeepsTable(s: State, step: Step)
    requires Sound(s) && Enabled(s, step)
    ensures TableSound(Next(s, step))
  {
    var s' := Next(s, step);
    forall id | id in s'.table ensures id <= s'.next && (s'.table[id] == UdpFlow ==> IdOwned(s', id)) {
      if id in s.table && s.table[id] == UdpFlow { assert IdOwned(s, id); }
    }
  }

  lemma StepKeepsSound(s: State, step: Step)
    requires Sound(s) && Enabled(s, step)
    ensures Sound(Next(s, step))
  {
    StepKeepsPairing(s, step);
    StepKeepsPumps(s, step);
    StepKeepsTable(s, step);
  }

  /** Every run keeps the invariant, and the id counter never goes back. */
  lemma {:induction false} RunKeepsSound(s: State, steps: seq<Step>)
    requires Sound(s)
    ensures Sound(Run(s, steps)) && s.next <= Run(s, steps).next
    decreases |steps|
  {
    if steps == [] {
    } else {
      if Enabled(s, steps[0]) { StepKeepsSound(s, steps[0]); }
      RunKeepsSound(if Enabled(s, steps[0]) then Next(s, steps[0]) else s, steps[1..]);
    }
  }

  // ----- session ownership ----------------------------------------------------

  ghost predicate PumpFor(s: State, key: Key, pump: nat) {
    pump in s.pumps && s.pumps[pump].key == key && Active(s.pumps[pump])
  }

  /** In every interleaving a key is mapped exactly when one pump for it has not deleted it yet. */
  lemma MappedIffOnePump(steps: seq<Step>, key: Key)
    ensures var s := Run(START, steps);
      && (key in s.sessions <==> exists p :: PumpFor(s, key, p))
      && (forall p, q :: PumpFor(s, key, p) && PumpFor(s, key, q) ==> p == q)
  {
    RunKeepsSound(START, steps);
    var s := Run(START, steps);
    if key in s.sessions {
      assert PumpFor(s, key, s.sessions[key]);
    }
  }

  /** Every UDP id in the flow table belongs to a mapped session, to a pump between its map delete and
      `Flows.Remove`, or to the packet handler that is just inserting it. */
  lemma TableIdsOwned(steps: seq<Step>, id: nat)
    ensures var s := Run(START, steps);
      id in s.table && s.table[id] == UdpFlow ==>
        || (exists key :: Look(s, key) == Some(id))
        || (id in s.pumps && s.pumps[id].phase == Deleted(Some(id)))
        || (s.inserting.Some? && s.inserting.value.id == id)
  {
    RunKeepsSound(START, steps);
    var s := Run(START, steps);
    if id in s.table && s.table[id] == UdpFlow {
      assert IdOwned(s, id);
      if id in s.pumps && Active(s.pumps[id]) {
        assert Look(s, s.pumps[id].key) == Some(id);
      }
    }
  }

  /** A pump only ever sees, deletes and releases its own session, and none leaves because the map
      had no session for it. */
  lemma PumpKeepsToItsSession(steps: seq<Step>, p: nat)
    ensures var s := Run(START, steps);
      && s.nilExits == 0
      && (p in s.pumps && Active(s.pumps[p]) ==> Look(s, s.pumps[p].key) == Some(p))
      && (p in s.pumps && s.pumps[p].phase.Deleted? ==> s.pumps[p].phase.found == Some(p))
  {
    RunKeepsSound(START, steps);
  }

  // ----- every session can be revoked -----------------------------------------

  /** The ids that the reaps of a run took out of the flow table. */
  function Reaped(s: State, steps: seq<Step>): set<nat>
    decreases |steps|
  {
    if steps == [] then {}
    else if !Enabled(s, steps[0]) then Reaped(s, steps[1..])
    else (if steps[0].ReapSome? then s.table.Keys * steps[0].ids else {}) + Reaped(Next(s, steps[0]), steps[1..])
  }

  /** The id belongs to a session that is mapped, or being inserted, or deleted but not yet released. */
  ghost predicate Unreleased(s: State, id: nat) {
    || (exists key :: Look(s, key) == Some(id))
    || (s.inserting.Some? && s.inserting.value.id == id)
    || (id in s.pumps && s.pumps[id].phase.Deleted?)
  }

  /** Such an id is in the flow table unless a reap took it out. */
  ghost predicate Listed(s: State, gone: set<nat>) {
    && (forall id :: id in gone ==> id <= s.next)
    && (forall id: nat :: Unreleased(s, id) ==>
          id <= s.next && (id in gone <==> id !in s.table) && (id in s.table ==> s.table[id] == UdpFlow))
  }

  lemma StepUnreleased(s: State, step: Step, id: nat)
    requires Sound(s) && Enabled(s, step) && Unreleased(Next(s, step), id)
    ensures Unreleased(s, id) || (step.Open? && id == s.next + 1)
    ensures step.Release? ==> id != step.pump
  {
    var s' := Next(s, step);
    if key :| Look(s', key) == Some(id) {
      assert id in s'.pumps ==> id in s.pumps || s.inserting.Some?;
      if !step.Insert? { assert Look(s, key) == Some(id); }
      StepKeepsSound(s, step);
    } else if id in s'.pumps && s'.pumps[id].phase.Deleted? && !(id in s.pumps && s.pumps[id].phase.Deleted?) {
      assert Look(s, s.pumps[id].key) == Some(id);
    }
  }

  lemma StepKeepsListed(s: State, step: Step, gone: set<nat>)
    requires Sound(s) && Enabled(s, step) && Listed(s, gone)
    ensures Listed(Next(s, step), gone + if step.ReapSome? then s.table.Keys * step.ids else {})
  {
    var s' := Next(s, step);
    var gone' := gone + if step.ReapSome? then s.table.Keys * step.ids else {};
    forall id: nat | Unreleased(s', id)
      ensures id <= s'.next && (id in gone' <==> id !in s'.table) && (id in s'.table ==> s'.table[id] == UdpFlow)
    {
      StepUnreleased(s, step, id);
    }
  }

  lemma {:induction false} RunKeepsListed(s: State, steps: seq<Step>, gone: set<nat>)
    requires Sound(s) && Listed(s, gone)
    ensures Listed(Run(s, steps), gone + Reaped(s, steps))
    decreases |steps|
  {
    if steps == [] {
      assert gone + {} == gone;
    } else if !Enabled(s, steps[0]) {
      RunKeepsListed(s, steps[1..], gone);
    } else {
      var now := if steps[0].ReapSome? then s.table.Keys * steps[0].ids else {};
      StepKeepsListed(s, steps[0], gone);
      StepKeepsSound(s, steps[0]);
      RunKeepsListed(Next(s, steps[0]), steps[1..], gone + now);
      assert gone + now + Reaped(Next(s, steps[0]), steps[1..]) == gone + (now + Reaped(Next(s, steps[0]), steps[1..]));
    }
  }

  /** In every interleaving the flow of a mapped session is in the flow table, where the next reap finds
      it, unless some reap took it out already. */
  lemma SessionsAreListed(steps: seq<Step>, key: Key)
    ensures var s := Run(START, steps);
      key in s.sessions ==>
        if s.sessions[key] in Reaped(START, steps) then s.sessions[key] !in s.table
        else s.sessions[key] in s.table && s.table[s.sessions[key]] == UdpFlow
  {
    RunKeepsListed(START, steps, {});
    var s := Run(START, steps);
    if key in s.sessions {
      assert Look(s, key) == Some(s.sessions[key]);
    }
  }

  // ----- the code -------------------------------------------------------------

  class UdpHandler {
    var sessions: map<Key, nat>
    var pumps: map<nat, Pump>
    var inserting: Option<Insertion>
    var next: nat
    var table: map<nat, Owner>
    var nilExits: nat

    function View(): State
      reads this
    {
      State(sessions, pumps, inserting, next, table, nilExits)
    }

    constructor ()
      ensures View() == START
    {
      sessions, pumps, inserting, next, table, nilExits := map[], map[], None, 0, map[], 0;
    }

    /** One session more, under an id issued for it: in the flow table, with a pump that reads. */
    ghost predicate NewSession(key: Key, sessions': map<Key, nat>, pumps': map<nat, Pump>, table': map<nat, Owner>,
                               next': nat)
      reads this
    {
      && key in sessions && sessions[key] == next == next' + 1 && inserting.None?
      && sessions[key] in table && table[sessions[key]] == UdpFlow && PumpFor(View(), key, sessions[key])
      && sessions - {key} == sessions' && table - {next} == table' - {next} && pumps - {next} == pumps' - {next}
    }

    method FlowsAdd() returns (id: nat)
      modifies this`next, this`table
      ensures id == next == old(next) + 1 && table == old(table)[id := UdpFlow]
    {
      next := next + 1;
      id := next;
      table := table[id := UdpFlow];
    }

    /** A session for a key that has none. */
    method OpenSession(key: Key)
      requires inserting.None? && key !in sessions
      modifies this
      ensures View() == Next(Next(old(View()), Open(key)), Insert)
    {
      var id := FlowsAdd();
      inserting := Some(Insertion(key, id));
      sessions := sessions[key := id];
      pumps := pumps[id := Pump(key, Reading)];
      inserting := None;
    }

    /** The locked part of `HandlePacket` for a packet the policy allows: an existing session is
        used as it is; a missing one is opened when its backend resolves and dials. */
    method HandleAllowed(key: Key, reachable: bool)
      requires inserting.None? && Sound(View())
      modifies this
      ensures Sound(View()) && (key in sessions <==> key in old(sessions) || reachable)
      ensures View() == if key in old(sessions) || !reachable then old(View())
        else Next(Next(old(View()), Open(key)), Insert)
    {
      if key !in sessions {
        if !reachable { return; }
        StepKeepsSound(View(), Open(key));
        StepKeepsSound(Next(View(), Open(key)), Insert);
        OpenSession(key);
      }
    }

    /** `HandlePacket`: a packet the index does not allow changes nothing; another opens a session when
        its key has none and the backend of the service can be reached. */
    method HandlePacket(idx: Index, key: Key, reachable: ServiceSnapshot -> bool)
      requires inserting.None? && Sound(View())
      modifies this
      ensures Sound(View())
      ensures var v := DecideService(idx, key.srcIp, key.dstVip, key.dstPort, "udp");
        View() == if v.decision == Allow && v.service.Some? && key !in old(sessions) && reachable(v.service.value)
                  then Next(Next(old(View()), Open(key)), Insert) else old(View())
      ensures key in sessions && key !in old(sessions) ==>
        NewSession(key, old(sessions), old(pumps), old(table), old(next))
      ensures !(key in sessions && key !in old(sessions)) ==> View() == old(View())
    {
      var v := CheckService(idx, key.srcIp, key.dstVip, key.dstPort, "udp");
      if v.decision != Allow || v.service.None? || v.user.None? { return; }
      HandleAllowed(key, reachable(v.service.value));
    }

    /** The lookup of the `pumpReplies` loop, with the exit for a missing session. */
    method LookUp(pump: nat)
      requires Enabled(View(), Poll(pump))
      modifies this`pumps, this`nilExits
      ensures View() == Next(old(View()), Poll(pump))
    {
      var p := pumps[pump];
      if p.key !in sessions {
        nilExits := nilExits + 1;
        pumps := pumps[pump := p.(phase := Leaving)];
      }
    }

    /** One turn of the loop up to the read: the session is always there, so that exit is never taken. */
    method PumpTurn(pump: nat)
      requires Sound(View()) && Enabled(View(), Poll(pump))
      modifies this`pumps, this`nilExits
      ensures View() == old(View()) && nilExits == 0 && Look(View(), pumps[pump].key) == Some(pump)
    {
      assert Look(View(), pumps[pump].key) == Some(pump);
      LookUp(pump);
    }

    /** The first half of `removeFlow`, run by the pump itself when it leaves: what it deletes is its
        own session. */
    method DeleteSession(pump: nat)
      requires Sound(View()) && Enabled(View(), Delete(pump))
      modifies this`sessions, this`pumps
      ensures Sound(View()) && View() == Next(old(View()), Delete(pump))
      ensures pumps[pump].phase == Deleted(Some(pump)) && sessions == old(sessions) - {pumps[pump].key}
      ensures forall key :: key in old(sessions) && old(sessions)[key] != pump ==> key in sessions
    {
      StepKeepsSound(View(), Delete(pump));
      var p := pumps[pump];
      assert Look(View(), p.key) == Some(pump);
      var found := if p.key in sessions then Some(sessions[p.key]) else None;
      sessions := sessions - {p.key};
      pumps := pumps[pump := p.(phase := Deleted(found))];
    }

    /** The second half: the id that leaves the flow table is its own. */
    method ReleaseFlow(pump: nat)
      requires Sound(View()) && Enabled(View(), Release(pump))
      modifies this`table, this`pumps
      ensures Sound(View()) && View() == Next(old(View()), Release(pump))
      ensures table == old(table) - {pump}
    {
      StepKeepsSound(View(), Release(pump));
      var p := pumps[pump];
      if p.phase.found.Some? {
        table := table - {p.phase.found.value};
      }
      pumps := pumps[pump := p.(phase := Finished)];
    }

    /** `removeFlow` when nothing comes between its two halves; in general other steps may. */
    method RemoveFlow(pump: nat)
      requires Sound(View()) && Enabled(View(), Delete(pump))
      modifies this`sessions, this`pumps, this`table
      ensures Sound(View()) && table == old(table) - {pump} && forall key :: key in sessions ==> sessions[key] != pump
      ensures forall key :: key in old(sessions) && old(sessions)[key] != pump ==> key in sessions
    {
      DeleteSession(pump);
      ReleaseFlow(pump);
    }
  }
}
