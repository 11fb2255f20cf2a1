/** Store, notifier and connection handlers in one machine: commits of daemon/store/store.go fall between
    the separate queries of `Build`, the notifier of daemon/runtime/daemon.go publishes and reaps, and
    the handlers of daemon/proxy load, check, admit and leave, all in any order. One notification is
    carried out at a time; further commits wait for theirs. */
module ControlPlane {
  import opened Schema
  import opened PolicyIndex
  import opened Refinement
  import opened Flows
  import opened Builds
  import Admission

  datatype Notifier = Idle | Building(seen: Seen) | Reaping

  datatype State = State(
    db: Tables,
    pending: nat,                 // commits whose notification has not begun
    notifier: Notifier,
    published: Built,
    adm: Admission.State)         // indexes stored, handlers and flows

  datatype Step =
    | Commit(now: ConsistentTables)     // whatever an operation leaves
    | Begin                             // a notification starts its build
    | Ask(queries: set<Query>)          // with no commit in between
    | Publish(index: Built)             // holder.Store
    | Reap
    | Handle(step: Admission.Step)

  predicate IsHandlerStep(step: Admission.Step) { !step.Publish? && !step.Reap? }

  ghost predicate Enabled(s: State, step: Step) {
    match step
    case Commit(_) => true
    case Begin => s.notifier.Idle? && s.pending > 0
    case Ask(queries) => s.notifier.Building? && s.notifier.seen.Keys !! queries
    case Publish(index) =>
      s.notifier.Building? && index.seen == s.notifier.seen && Admission.Enabled(s.adm, Admission.Publish(index.idx))
    case Reap => s.notifier.Reaping? && Admission.Enabled(s.adm, Admission.Reap)
    case Handle(step) => IsHandlerStep(step) && Admission.Enabled(s.adm, step)
  }

  ghost function Next(s: State, step: Step): State
    requires Enabled(s, step)
  {
    match step
    case Commit(now) => s.(db := now, pending := s.pending + 1)
    case Begin => s.(pending := s.pending - 1, notifier := Building(map[]))
    case Ask(queries) => s.(notifier := Building(s.notifier.seen + map q | q in queries :: s.db))
    case Publish(index) =>
      s.(notifier := Reaping, published := index, adm := Admission.Next(s.adm, Admission.Publish(index.idx)))
    case Reap => s.(notifier := Idle, adm := Admission.Next(s.adm, Admission.Reap))
    case Handle(step) => s.(adm := Admission.Next(s.adm, step))
  }

  /** A run skips the steps that are not enabled when their turn comes. */
  ghost function Run(s: State, steps: seq<Step>): State
    decreases |steps|
  {
    if steps == [] then s else Run(if Enabled(s, steps[0]) then Next(s, steps[0]) else s, steps[1..])
  }

  /** The daemon starts with an index of the database it finds. */
  ghost predicate Boot(s: State) {
    && Consistent(s.db) && s.pending == 0 && s.notifier.Idle?
    && AllSaw(s.published.seen, s.db) && s.adm == Admission.Boot(s.published.idx)
  }

  // ----- the invariant --------------------------------------------------------

  /** The notifier keeps its turn: between notifications every stored index has been reaped. */
  ghost predicate InTurn(s: State) {
    && Admission.Published(s.adm) && Admission.Current(s.adm) == s.published.idx
    && (s.notifier.Reaping? ==> s.adm.reaps + 1 == Admission.Version(s.adm))
    && (!s.notifier.Reaping? ==> Admission.Quiescent(s.adm))
  }

  /** With no commit waiting, the build under way, or else the one published, saw only the latest state. */
  ghost predicate SawLatest(s: State) {
    s.pending == 0 ==> AllSaw(if s.notifier.Building? then s.notifier.seen else s.published.seen, s.db)
  }

  lemma StoredIsCurrent(a: Admission.State, idx: Index)
    requires Admission.Enabled(a, Admission.Publish(idx))
    ensures var a' := Admission.Next(a, Admission.Publish(idx));
      Admission.Published(a') && Admission.Current(a') == idx && a'.reaps + 1 == Admission.Version(a')
  {
  }

  lemma PublishTakesTurn(s: State, b: Built)
    requires InTurn(s) && Enabled(s, Publish(b))
    ensures InTurn(Next(s, Publish(b)))
  {
    StoredIsCurrent(s.adm, b.idx);
  }

  lemma ReapEndsTurn(s: State)
    requires InTurn(s) && Enabled(s, Reap)
    ensures InTurn(Next(s, Reap))
  {
  }

  lemma StepKeepsTurn(s: State, step: Step)
    requires InTurn(s) && Enabled(s, step)
    ensures InTurn(Next(s, step))
  {
    match step {
      case Publish(index) => PublishTakesTurn(s, index);
      case Reap => ReapEndsTurn(s);
      case Handle(h) => HandlersLeaveIndexes(s.adm, h);
      case _ =>
    }
  }

  lemma HandlersLeaveIndexes(s: Admission.State, step: Admission.Step)
    requires IsHandlerStep(step) && Admission.Enabled(s, step)
    ensures Admission.Next(s, step).indexes == s.indexes && Admission.Next(s, step).reaps == s.reaps
  {
  }

  lemma StepSeesLatest(s: State, step: Step)
    requires SawLatest(s) && Enabled(s, step)
    ensures SawLatest(Next(s, step))
  {
  }

  lemma StepKeepsAdmission(s: State, step: Step)
    requires Admission.Sound(s.adm) && Enabled(s, step)
    ensures Admission.Sound(Next(s, step).adm)
  {
    match step {
      case Publish(index) => Admission.StepKeepsSound(s.adm, Admission.Publish(index.idx));
      case Reap => Admission.StepKeepsSound(s.adm, Admission.Reap);
      case Handle(h) => Admission.StepKeepsSound(s.adm, h);
      case _ =>
    }
  }

  lemma StepKeepsConsistent(s: State, step: Step)
    requires Consistent(s.db) && Enabled(s, step)
    ensures Consistent(Next(s, step).db)
  {
  }

  /** What a state has and every step keeps, every run keeps. */
  lemma {:induction false} RunKeeps(inv: State -> bool, s: State, steps: seq<Step>)
    requires inv(s) && forall t, step :: Enabled(t, step) && inv(t) ==> inv(Next(t, step))
    ensures inv(Run(s, steps))
    decreases |steps|
  {
    if steps == [] {
    } else {
      RunKeeps(inv, if Enabled(s, steps[0]) then Next(s, steps[0]) else s, steps[1..]);
    }
  }

  lemma RunKeepsTurn(boot: State, steps: seq<Step>)
    requires InTurn(boot)
    ensures InTurn(Run(boot, steps))
  {
    var inv := (s: State) => InTurn(s);
    forall t, step | Enabled(t, step) && inv(t) ensures inv(Next(t, step)) { StepKeepsTurn(t, step); }
    RunKeeps(inv, boot, steps);
  }

  lemma RunSeesLatest(boot: State, steps: seq<Step>)
    requires SawLatest(boot)
    ensures SawLatest(Run(boot, steps))
  {
    var inv := (s: State) => SawLatest(s);
    forall t, step | Enabled(t, step) && inv(t) ensures inv(Next(t, step)) { StepSeesLatest(t, step); }
    RunKeeps(inv, boot, steps);
  }

  lemma RunKeepsAdmission(boot: State, steps: seq<Step>)
    requires Admission.Sound(boot.adm)
    ensures Admission.Sound(Run(boot, steps).adm)
  {
    var inv := (s: State) => Admission.Sound(s.adm);
    forall t, step | Enabled(t, step) && inv(t) ensures inv(Next(t, step)) { StepKeepsAdmission(t, step); }
    RunKeeps(inv, boot, steps);
  }

  lemma RunKeepsConsistent(boot: State, steps: seq<Step>)
    requires Consistent(boot.db)
    ensures Consistent(Run(boot, steps).db)
  {
    var inv := (s: State) => Consistent(s.db);
    forall t, step | Enabled(t, step) && inv(t) ensures inv(Next(t, step)) { StepKeepsConsistent(t, step); }
    RunKeeps(inv, boot, steps);
  }

  lemma BootInTurn(boot: State)
    requires Boot(boot)
    ensures InTurn(boot) && SawLatest(boot)
  {
  }

  lemma BootAdmission(boot: State)
    requires Boot(boot)
    ensures Admission.Sound(boot.adm)
  {
    BuiltIsCoherent(boot.published);
  }

  lemma BuiltIsCoherent(b: Built)
    ensures Coherent(b.idx)
  {
  }

  /** The notifier has a next step: publish a build that has all its answers, or reap. */
  ghost predicate NotBlocked(s: State, b: Built) {
    && (s.notifier.Building? && b.seen == s.notifier.seen ==> Enabled(s, Publish(b)))
    && (s.notifier.Reaping? ==> Enabled(s, Reap))
  }

  lemma QuiescentTakes(a: Admission.State, b: Built)
    requires Admission.Quiescent(a)
    ensures Admission.Enabled(a, Admission.Publish(b.idx))
  {
    BuiltIsCoherent(b);
  }

  lemma InTurnNotBlocked(s: State, b: Built)
    requires InTurn(s)
    ensures NotBlocked(s, b)
  {
    if s.notifier.Building? { QuiescentTakes(s.adm, b); }
  }

  lemma NotifierNeverBlocked(boot: State, steps: seq<Step>, b: Built)
    requires Boot(boot)
    ensures NotBlocked(Run(boot, steps), b)
  {
    BootInTurn(boot);
    RunKeepsTurn(boot, steps);
    InTurnNotBlocked(Run(boot, steps), b);
  }

  // ----- flows and tables -----------------------------------------------------

  /** The committed tables allow the flow, through the addresses they give its two ends. */
  ghost predicate TablesAllow(t: Tables, f: Flow) {
    f.srcUser in t.users &&
    var ip := t.users[f.srcUser].ip;
    match f.target.typ
    case ServiceType =>
      f.target.id in t.services && TableAllowsService(t, ip, t.services[f.target.id].ip, f.port, f.protocol)
    case UserType => f.target.id in t.users && TableAllowsPeer(t, ip, t.users[f.target.id].ip)
    case _ => false
  }

  lemma SnapshotAddresses(idx: Index, t: Tables)
    requires Reflects(idx, t)
    ensures idx.userById.Keys == t.users.Keys && forall id :: id in t.users ==> idx.userById[id].ip == t.users[id].ip
    ensures idx.serviceById.Keys == t.services.Keys
      && forall id :: id in t.services ==> idx.serviceById[id].ip == t.services[id].ip
  {
    forall id | id in t.users ensures idx.userById[id].ip == t.users[id].ip {
      assert IsUserSnap(t, idx.userById[id]) && idx.userById[id].id == id;
    }
    forall id | id in t.services ensures idx.serviceById[id].ip == t.services[id].ip {
      assert IsServiceSnap(t, t, idx.serviceById[id]) && idx.serviceById[id].id == id;
    }
  }

  lemma FlowAllowedByTables(idx: Index, t: Tables, f: Flow)
    requires Consistent(t) && Reflects(idx, t)
    ensures FlowAllowed(idx, f) <==> TablesAllow(t, f)
  {
    SnapshotAddresses(idx, t);
    if f.srcUser in t.users {
      var ip := t.users[f.srcUser].ip;
      match f.target.typ {
        case ServiceType =>
          if f.target.id in t.services {
            IndexRefinesTables(idx, t, ip, t.services[f.target.id].ip, f.port, f.protocol);
          }
        case UserType =>
          if f.target.id in t.users { IndexRefinesPeers(idx, t, ip, t.users[f.target.id].ip); }
        case _ =>
      }
    }
  }

  // ----- the results ----------------------------------------------------------

  /** Every commit has been notified. */
  predicate Settled(s: State) { s.pending == 0 && s.notifier.Idle? }

  /** However commits fell between the queries of the builds before: once every commit has been notified
      the published index is the denormalisation of the committed tables. */
  lemma SettledIsCurrent(boot: State, steps: seq<Step>)
    requires Boot(boot)
    ensures var s := Run(boot, steps);
      Settled(s) ==>
        && Admission.Published(s.adm) && Admission.Current(s.adm) == s.published.idx
        && Reflects(s.published.idx, s.db)
  {
    BootInTurn(boot);
    RunKeepsTurn(boot, steps);
    RunSeesLatest(boot, steps);
    var s := Run(boot, steps);
    if Settled(s) { UntornIsCurrent(s.published, s.db); }
  }

  /** And then a live flow that the committed tables deny is a stale admission: its handler checked an
      older index and admitted the flow after the latest reap. */
  lemma SettledFlowsAllowed(boot: State, steps: seq<Step>, id: nat)
    requires Boot(boot)
    ensures var s := Run(boot, steps);
      Settled(s) && id in s.adm.flows && !TablesAllow(s.db, s.adm.flows[id]) ==>
        Admission.Published(s.adm) && Admission.StaleAdmission(s.adm, id)
  {
    var s := Run(boot, steps);
    SettledIsCurrent(boot, steps);
    BootInTurn(boot);
    RunKeepsTurn(boot, steps);
    BootAdmission(boot);
    RunKeepsAdmission(boot, steps);
    if Settled(s) && id in s.adm.flows {
      RunKeepsConsistent(boot, steps);
      FlowAllowedByTables(s.published.idx, s.db, s.adm.flows[id]);
      Admission.OnlyStaleFlowsAreDenied(s.adm, id);
    }
  }
}
