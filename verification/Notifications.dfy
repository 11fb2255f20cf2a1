/** Notifications that overlap. Each commit of daemon/store/store.go tells the subscriber of
    daemon/runtime/daemon.go from its own goroutine, so any number of builds may be under way at once,
    their queries falling between commits in any way, and the last one to finish is what stays
    published. A run interleaves all of this in any order. */
module Notifications {
  import opened Schema
  import opened PolicyIndex
  import opened Builds

  /** A build under way: how many commits there were when it began, and what its queries saw so far. */
  datatype Running = Running(start: nat, seen: Seen)

  datatype State = State(
    db: Tables,
    commits: nat,
    running: map<nat, Running>,
    published: Built,
    start: nat)                   // how many commits there were when the published build began

  datatype Step =
    | Commit(now: Tables)               // whatever an operation commits
    | Begin(n: nat)
    | Ask(n: nat, queries: set<Query>)  // with no commit in between
    | Finish(n: nat, index: Built)      // holder.Store

  ghost predicate Enabled(s: State, step: Step) {
    match step
    case Commit(_) => true
    case Begin(n) => n !in s.running
    case Ask(n, queries) => n in s.running && s.running[n].seen.Keys !! queries
    case Finish(n, index) => n in s.running && index.seen == s.running[n].seen
  }

  function Answered(seen: Seen, queries: set<Query>, t: Tables): Seen {
    seen + map q | q in queries :: t
  }

  ghost function Next(s: State, step: Step): State
    requires Enabled(s, step)
  {
    match step
    case Commit(now) => s.(db := now, commits := s.commits + 1)
    case Begin(n) => s.(running := s.running[n := Running(s.commits, map[])])
    case Ask(n, queries) =>
      s.(running := s.running[n := s.running[n].(seen := Answered(s.running[n].seen, queries, s.db))])
    case Finish(n, index) => s.(running := s.running - {n}, published := index, start := s.running[n].start)
  }

  /** A run skips the steps that are not enabled when their turn comes. */
  ghost function Run(s: State, steps: seq<Step>): State
    decreases |steps|
  {
    if steps == [] then s else Run(if Enabled(s, steps[0]) then Next(s, steps[0]) else s, steps[1..])
  }

  ghost predicate Boot(s: State) {
    s.commits == s.start == 0 && s.running == map[] && AllSaw(s.published.seen, s.db)
  }

  // ----- the invariant --------------------------------------------------------

  /** A build that began after the last commit has seen nothing else. */
  ghost predicate SawLatest(start: nat, seen: Seen, commits: nat, db: Tables) {
    start <= commits && (start == commits ==> AllSaw(seen, db))
  }

  ghost predicate Sound(s: State) {
    && SawLatest(s.start, s.published.seen, s.commits, s.db)
    && forall n :: n in s.running ==> SawLatest(s.running[n].start, s.running[n].seen, s.commits, s.db)
  }

  lemma StepKeepsSound(s: State, step: Step)
    requires Sound(s) && Enabled(s, step)
    ensures Sound(Next(s, step))
  {
  }

  lemma {:induction false} RunKeepsSound(s: State, steps: seq<Step>)
    requires Sound(s)
    ensures Sound(Run(s, steps))
    decreases |steps|
  {
    if steps == [] {
    } else {
      if Enabled(s, steps[0]) { StepKeepsSound(s, steps[0]); }
      RunKeepsSound(if Enabled(s, steps[0]) then Next(s, steps[0]) else s, steps[1..]);
    }
  }

  // ----- when the published index is current ----------------------------------

  /** With any number of overlapping notifications, in every state of every run: the published index is
      that of the committed tables exactly when these would answer every query of its build as it was
      answered, and so it is whenever the build that was stored last began after the last commit. */
  lemma PublishedIsCurrentIff(boot: State, steps: seq<Step>)
    requires Boot(boot)
    ensures var s := Run(boot, steps);
      && (Reflects(s.published.idx, s.db) <==> SameAnswers(s.published.seen, s.db))
      && s.start <= s.commits && (s.start == s.commits ==> Reflects(s.published.idx, s.db))
  {
    assert Sound(boot);
    RunKeepsSound(boot, steps);
    var s := Run(boot, steps);
    CurrentIff(s.published, s.db);
    if s.start == s.commits { UntornIsCurrent(s.published, s.db); }
  }

  // ----- an older index can stay published -------------------------------------

  lemma RunSteps(s: State, step: Step, rest: seq<Step>)
    requires Enabled(s, step)
    ensures Run(s, [step] + rest) == Run(Next(s, step), rest)
  {
    assert ([step] + rest)[1..] == rest;
  }

  lemma AskedAll(seen: Seen, t: Tables)
    requires AllSaw(seen, t)
    ensures Answered(map[], seen.Keys, t) == seen
  {
  }

  /** Two builds overlap a commit: the first asks everything, a user is deleted, the second asks
      everything and is stored, and then the first is stored. */
  function Overtaken(first: Built, second: Built, now: Tables): seq<Step> {
    [Begin(1)] + ([Ask(1, first.seen.Keys)] + ([Commit(now)] + ([Begin(2)] + ([Ask(2, second.seen.Keys)]
    + ([Finish(2, second)] + ([Finish(1, first)] + []))))))
  }

  function WithBuild(s: State, n: nat, seen: Seen): State {
    s.(running := s.running[n := Running(s.commits, seen)])
  }

  /** A build that begins and asks everything at once. */
  lemma BeginAndAsk(s: State, n: nat, b: Built, rest: seq<Step>)
    requires n !in s.running && AllSaw(b.seen, s.db)
    ensures Run(s, [Begin(n)] + ([Ask(n, b.seen.Keys)] + rest)) == Run(WithBuild(s, n, b.seen), rest)
  {
    var s1 := WithBuild(s, n, map[]);
    RunSteps(s, Begin(n), [Ask(n, b.seen.Keys)] + rest);
    RunSteps(s1, Ask(n, b.seen.Keys), rest);
    AskEverything(s, n, b);
  }

  lemma AskEverything(s: State, n: nat, b: Built)
    requires n !in s.running && AllSaw(b.seen, s.db)
    ensures Next(WithBuild(s, n, map[]), Ask(n, b.seen.Keys)) == WithBuild(s, n, b.seen)
  {
    AskedAll(b.seen, s.db);
    PutTwice(s.running, n, Running(s.commits, map[]), Running(s.commits, b.seen));
  }

  lemma PutTwice<K, V>(m: map<K, V>, k: K, a: V, b: V)
    ensures m[k := a][k := b] == m[k := b]
  {
  }

  lemma NothingLeft<V>(m: map<nat, V>)
    requires m.Keys == {1, 2}
    ensures m - {2} - {1} == map[]
  {
    assert (m - {2} - {1}).Keys == {};
  }

  function Stored(s: State, n: nat, b: Built): State
    requires n in s.running
  {
    s.(running := s.running - {n}, published := b, start := s.running[n].start)
  }

  lemma StoreOne(s: State, n: nat, b: Built, rest: seq<Step>)
    requires n in s.running && b.seen == s.running[n].seen
    ensures Run(s, [Finish(n, b)] + rest) == Run(Stored(s, n, b), rest)
  {
    RunSteps(s, Finish(n, b), rest);
  }

  /** Two builds that have asked everything are stored, the second first. */
  lemma StoreBoth(s: State, first: Built, second: Built)
    requires 1 in s.running && 2 in s.running && s.running[1].seen == first.seen && s.running[2].seen == second.seen
    ensures Run(s, [Finish(2, second)] + ([Finish(1, first)] + [])) == Stored(Stored(s, 2, second), 1, first)
  {
    StoreOne(s, 2, second, [Finish(1, first)] + []);
    StoreOne(Stored(s, 2, second), 1, first, []);
  }

  lemma CommitBetween(boot: State, now: Tables, rest: seq<Step>)
    requires Boot(boot)
    ensures Run(boot, [Begin(1)] + ([Ask(1, boot.published.seen.Keys)] + ([Commit(now)] + rest)))
         == Run(WithBuild(boot, 1, boot.published.seen).(db := now, commits := 1), rest)
  {
    BeginAndAsk(boot, 1, boot.published, [Commit(now)] + rest);
    RunSteps(WithBuild(boot, 1, boot.published.seen), Commit(now), rest);
  }

  lemma OvertakeAndStore(s: State, later: Built)
    requires s.running == map[1 := Running(0, s.published.seen)] && AllSaw(later.seen, s.db)
    ensures Run(s, [Begin(2)] + ([Ask(2, later.seen.Keys)] + ([Finish(2, later)] + ([Finish(1, s.published)] + []))))
         == State(s.db, s.commits, map[], s.published, 0)
  {
    BeginAndAsk(s, 2, later, [Finish(2, later)] + ([Finish(1, s.published)] + []));
    StoreBoth(WithBuild(s, 2, later.seen), s.published, later);
    BothStored(s, later);
  }

  lemma BothStored(s: State, later: Built)
    requires s.running == map[1 := Running(0, s.published.seen)]
    ensures Stored(Stored(WithBuild(s, 2, later.seen), 2, later), 1, s.published)
         == State(s.db, s.commits, map[], s.published, 0)
  {
    NothingLeft(WithBuild(s, 2, later.seen).running);
  }

  lemma Overtaking(boot: State, now: Tables, later: Built)
    requires Boot(boot) && AllSaw(later.seen, now)
    ensures Run(boot, Overtaken(boot.published, later, now)) == State(now, 1, map[], boot.published, 0)
  {
    CommitBetween(boot, now, [Begin(2)]
      + ([Ask(2, later.seen.Keys)] + ([Finish(2, later)] + ([Finish(1, boot.published)] + []))));
    OvertakeAndStore(WithBuild(boot, 1, boot.published.seen).(db := now, commits := 1), later);
  }

  /** A commit that deletes a user, overtaken like this: at the end no notification is in progress, and
      the published index still shows the user. */
  lemma OlderIndexStays(boot: State, now: Tables, id: int, later: Built)
    requires Boot(boot) && id in boot.db.users && id !in now.users && AllSaw(later.seen, now)
    ensures var s := Run(boot, Overtaken(boot.published, later, now));
      s.running == map[] && s.db == now && id in s.published.idx.userById && !Reflects(s.published.idx, s.db)
  {
    Overtaking(boot, now, later);
    ShowsItsUsers(boot.published, boot.db);
    ShowsUsers(boot.published, now, id);
  }

  lemma ShowsItsUsers(b: Built, t: Tables)
    requires AllSaw(b.seen, t)
    ensures b.idx.userById.Keys == t.users.Keys
  {
    UntornIsCurrent(b, t);
  }

  lemma ShowsUsers(b: Built, t: Tables, id: int)
    requires id in b.idx.userById && id !in t.users
    ensures !Reflects(b.idx, t)
  {
  }
}
