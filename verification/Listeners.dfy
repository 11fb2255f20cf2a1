/** daemon/runtime/listeners.go: the addresses of the netstack kept in step with the services. */
module Listeners {
  import opened Wrappers
  import opened PolicyIndex
  import Origin

  type Addr = Origin.Addr
  type Services = map<int, ServiceSnapshot>
  type Recorded = map<int, Addr>

  /** The address parser, the addresses the stack takes at all, and those it was created with. */
  datatype Netstack = Netstack(parse: Origin.Parser, accepts: Addr -> bool, base: set<Addr>)

  /** An address as the stack knows it: without zone. */
  function Bare(a: Addr): Addr {
    match a
    case V4(_) => a
    case V6(v, _) => Origin.V6(v, "")
  }

  /** Two addresses are one to the stack exactly when they differ in their zone at most. */
  lemma SameToStack(a: Addr, b: Addr)
    ensures Bare(a) == Bare(b) <==> a == b || (a.V6? && b.V6? && a.value6 == b.value6)
  {
  }

  /** The address a service asks for, if its text parses and the stack takes such an address. */
  function Vip(net: Netstack, s: ServiceSnapshot): Option<Addr> {
    match net.parse(s.ip)
    case Some(a) => if net.accepts(Bare(a)) then Some(a) else None
    case None => None
  }

  /** The stack holds its own addresses and the recorded ones, none of them twice. */
  ghost predicate Sound(net: Netstack, stack: set<Addr>, current: Recorded) {
    && (forall a :: a in stack <==> a in net.base || exists k :: k in current && Bare(current[k]) == a)
    && (forall k :: k in current ==> Bare(current[k]) !in net.base && net.accepts(Bare(current[k])))
    && (forall j, k :: j in current && k in current && Bare(current[j]) == Bare(current[k]) ==> j == k)
  }

  /** The recorded services that stay are recorded at the address they have now. */
  ghost predicate KeptAgree(net: Netstack, current: Recorded, services: Services) {
    forall k :: k in current && k in services ==> Vip(net, services[k]) == Some(current[k])
  }

  /** Only services are recorded, each at its own address. */
  ghost predicate Agrees(net: Netstack, current: Recorded, services: Services) {
    forall k :: k in current ==> k in services && Vip(net, services[k]) == Some(current[k])
  }

  predicate Asks(net: Netstack, s: ServiceSnapshot, a: Addr) {
    Vip(net, s).Some? && Bare(Vip(net, s).value) == a
  }

  ghost predicate SomeAsks(net: Netstack, services: Services, a: Addr) {
    exists k :: k in services && Asks(net, services[k], a)
  }

  /** The stack carries its own addresses and exactly the addresses of the services. */
  ghost predicate Serves(net: Netstack, stack: set<Addr>, services: Services) {
    forall a :: a in stack <==> a in net.base || SomeAsks(net, services, a)
  }

  predicate Stays(current: Recorded, services: Services, k: int) { k in current && k in services }

  /** The address is the stack's own, or stays recorded, or is wanted by a service not recorded yet. */
  ghost predicate Reached(net: Netstack, current: Recorded, services: Services, a: Addr) {
    || a in net.base
    || (exists j :: Stays(current, services, j) && Bare(current[j]) == a)
    || (exists j :: j in services && j !in current && Asks(net, services[j], a))
  }

  /** Each address that stays recorded is asked for by some service, and what each service that stays
      asks for is reached: what `reconcile` needs of the record it starts from. */
  ghost predicate WillServe(net: Netstack, current: Recorded, services: Services) {
    forall k :: Stays(current, services, k) ==>
      && SomeAsks(net, services, Bare(current[k]))
      && forall a :: Asks(net, services[k], a) ==> Reached(net, current, services, a)
  }

  /** What `reconcile` does to the record: those that stay keep their address, a new one gets its own. */
  ghost predicate Rerecorded(net: Netstack, current: Recorded, services: Services, current': Recorded) {
    && (forall k :: k in current' ==> k in services)
    && (forall k :: Stays(current, services, k) ==> k in current' && current'[k] == current[k])
    && (forall k :: k in current' && k !in current ==> Vip(net, services[k]) == Some(current'[k]))
  }

  /** A service that is not recorded, nor still to come, wants no address or one that is taken. */
  ghost predicate OthersTaken(net: Netstack, stack: set<Addr>, current: Recorded, services: Services, todo: set<int>) {
    forall k, a :: k in services && k !in current && k !in todo && Asks(net, services[k], a) ==> a in stack
  }

  /** No service has changed its address. */
  ghost predicate SameAddresses(before: Services, after: Services) {
    forall k :: k in before && k in after ==> before[k].ip == after[k].ip
  }

  lemma RecordedGone(net: Netstack, stack: set<Addr>, current: Recorded, key: int)
    requires Sound(net, stack, current) && key in current
    ensures Sound(net, stack - {Bare(current[key])}, current - {key})
  {
    var fewer := current - {key};
    forall a | a in stack - {Bare(current[key])} && a !in net.base
      ensures exists k :: k in fewer && Bare(fewer[k]) == a
    {
      var k :| k in current && Bare(current[k]) == a;
      assert k in fewer;
    }
  }

  lemma RecordedMore(net: Netstack, stack: set<Addr>, current: Recorded, key: int, vip: Addr)
    requires Sound(net, stack, current) && key !in current && Bare(vip) !in stack && net.accepts(Bare(vip))
    ensures Sound(net, stack + {Bare(vip)}, current[key := vip])
  {
    var more := current[key := vip];
    forall a | a in stack + {Bare(vip)} && a !in net.base ensures exists k :: k in more && Bare(more[k]) == a {
      if a == Bare(vip) {
        assert Bare(more[key]) == a;
      } else {
        var k :| k in current && Bare(current[k]) == a;
        assert k in more && Bare(more[k]) == a;
      }
    }
  }

  lemma StackServes(net: Netstack, stack: set<Addr>, current: Recorded, services: Services, current': Recorded)
    requires WillServe(net, current, services) && Rerecorded(net, current, services, current')
    requires Sound(net, stack, current') && OthersTaken(net, stack, current', services, {})
    ensures Serves(net, stack, services)
  {
    forall a | a in stack && a !in net.base ensures SomeAsks(net, services, a) {
      var k :| k in current' && Bare(current'[k]) == a;
      if k in current {
        assert Stays(current, services, k);
      } else {
        assert Asks(net, services[k], a);
      }
    }
    forall k, a | k in services && Asks(net, services[k], a) ensures a in stack {
      if Stays(current, services, k) {
        ReachedIsCarried(net, stack, current, services, current', a);
      } else {
        PlacedIsCarried(net, stack, current, services, current', k, a);
      }
    }
  }

  lemma PlacedIsCarried(net: Netstack, stack: set<Addr>, current: Recorded, services: Services, current': Recorded,
                        k: int, a: Addr)
    requires Rerecorded(net, current, services, current') && Sound(net, stack, current')
    requires OthersTaken(net, stack, current', services, {}) && k in services && k !in current
      && Asks(net, services[k], a)
    ensures a in stack
  {
    if k in current' { assert Bare(current'[k]) == a; }
  }

  lemma ReachedIsCarried(net: Netstack, stack: set<Addr>, current: Recorded, services: Services, current': Recorded,
                         a: Addr)
    requires Rerecorded(net, current, services, current') && Sound(net, stack, current')
    requires OthersTaken(net, stack, current', services, {}) && Reached(net, current, services, a)
    ensures a in stack
  {
    if j :| Stays(current, services, j) && Bare(current[j]) == a {
      assert j in current' && Bare(current'[j]) == a;
    } else if j :| j in services && j !in current && Asks(net, services[j], a) {
      PlacedIsCarried(net, stack, current, services, current', j, a);
    }
  }

  lemma ServingStack(net: Netstack, stack: set<Addr>, current: Recorded, services: Services, current': Recorded)
    requires Serves(net, stack, services) && Rerecorded(net, current, services, current') && Sound(net, stack, current')
    ensures WillServe(net, current, services)
  {
    forall k | Stays(current, services, k)
      ensures SomeAsks(net, services, Bare(current[k]))
      ensures forall a :: Asks(net, services[k], a) ==> Reached(net, current, services, a)
    {
      assert k in current' && Bare(current'[k]) in stack;
      forall a | Asks(net, services[k], a) ensures Reached(net, current, services, a) {
        assert a in stack;
        if a !in net.base {
          var j :| j in current' && Bare(current'[j]) == a;
          assert if j in current then Stays(current, services, j) else Asks(net, services[j], a);
        }
      }
    }
  }

  /** When every record that stays agrees with its service, nothing is missed. */
  lemma AgreeingWillServe(net: Netstack, current: Recorded, services: Services)
    requires KeptAgree(net, current, services)
    ensures WillServe(net, current, services)
  {
    forall k | Stays(current, services, k)
      ensures SomeAsks(net, services, Bare(current[k]))
      ensures forall a :: Asks(net, services[k], a) ==> Reached(net, current, services, a)
    {
      assert Asks(net, services[k], Bare(current[k]));
    }
  }

  /** The service has been there since some index of the run, and `a` is the address it had in that one. */
  ghost predicate PlacedAt(net: Netstack, run: seq<Services>, k: int, a: Addr) {
    exists i :: 0 <= i < |run| && PlacedIn(net, run, i, k, a)
  }

  ghost predicate PlacedIn(net: Netstack, run: seq<Services>, i: nat, k: int, a: Addr)
    requires i < |run|
  {
    k in run[i] && Vip(net, run[i][k]) == Some(a) && forall j :: i <= j < |run| ==> k in run[j]
  }

  /** No service changes its address between the indexes before `n`. */
  ghost predicate Steady(run: seq<Services>, n: nat)
    requires n <= |run|
  {
    forall i, j :: 0 <= i && j == i + 1 < n ==> SameAddresses(run[i], run[j])
  }

  lemma SteadyKept(net: Netstack, current: Recorded, before: Services, after: Services)
    requires Agrees(net, current, before) && SameAddresses(before, after)
    ensures KeptAgree(net, current, after) && WillServe(net, current, after)
  {
    AgreeingWillServe(net, current, after);
  }

  lemma PlacedNext(net: Netstack, run: seq<Services>, n: nat, current: Recorded, current': Recorded)
    requires n < |run| && Rerecorded(net, current, run[n], current')
    requires forall k :: k in current ==> PlacedAt(net, run[..n], k, current[k])
    ensures forall k :: k in current' ==> PlacedAt(net, run[..n + 1], k, current'[k])
  {
    forall k | k in current' ensures PlacedAt(net, run[..n + 1], k, current'[k]) {
      if k in current {
        assert Stays(current, run[n], k);
        var i :| 0 <= i < n && PlacedIn(net, run[..n], i, k, current[k]);
        assert PlacedIn(net, run[..n + 1], i, k, current'[k]);
      } else {
        assert PlacedIn(net, run[..n + 1], n, k, current'[k]);
      }
    }
  }

  // ----- address changes ------------------------------------------------------

  /** A service created at `x` and then moved to `y` is missed: it stays recorded at `x`. */
  lemma MovedServiceIsMissed(net: Netstack, placed: ServiceSnapshot, moved: ServiceSnapshot, x: Addr, y: Addr)
    requires Vip(net, placed) == Some(x) && Vip(net, moved) == Some(y) && Bare(x) != Bare(y)
    ensures WillServe(net, map[], map[1 := placed]) && Agrees(net, map[1 := x], map[1 := placed])
    ensures !WillServe(net, map[1 := x], map[1 := moved])
  {
    assert Stays(map[1 := x], map[1 := moved], 1);
  }

  /** Two services that swapped their addresses are not: the stack carries both addresses anyway,
      although neither record agrees with its service. */
  lemma SwappedServicesAreServed(net: Netstack, a: ServiceSnapshot, b: ServiceSnapshot, x: Addr, y: Addr)
    requires Vip(net, a) == Some(y) && Vip(net, b) == Some(x) && x != y
    ensures WillServe(net, map[1 := x, 2 := y], map[1 := a, 2 := b])
    ensures !KeptAgree(net, map[1 := x, 2 := y], map[1 := a, 2 := b])
  {
    var current: Recorded, services: Services := map[1 := x, 2 := y], map[1 := a, 2 := b];
    assert Stays(current, services, 1) && Stays(current, services, 2);
    assert Asks(net, services[1], Bare(y)) && Asks(net, services[2], Bare(x));
  }

  class ListenerManager {
    const net: Netstack
    var stack: set<Addr>
    var current: Recorded

    ghost predicate Valid() reads this { Sound(net, stack, current) }

    constructor (net: Netstack)
      ensures Valid() && current == map[] && stack == net.base && this.net == net
    {
      this.net := net;
      stack, current := net.base, map[];
    }

    /** `AddVIP`: the stack refuses an address it already has. */
    method AddVip(a: Addr) returns (ok: bool)
      modifies this`stack
      ensures ok == (Bare(a) !in old(stack) && net.accepts(Bare(a)))
      ensures stack == if ok then old(stack) + {Bare(a)} else old(stack)
    {
      ok := Bare(a) !in stack && net.accepts(Bare(a));
      if ok { stack := stack + {Bare(a)}; }
    }

    method RemoveVip(a: Addr)
      modifies this`stack
      ensures stack == old(stack) - {Bare(a)}
    {
      stack := stack - {Bare(a)};
    }

    /** The first loop of `reconcile`: every recorded service that is not wanted goes, with its address. */
    method DropUnwanted(services: Services)
      requires Valid()
      modifies this`stack, this`current
      ensures Valid()
      ensures current == old(current) - (old(current).Keys - services.Keys)
    {
      var todo := current.Keys;
      while todo != {}
        invariant Valid() && todo <= current.Keys
        invariant current == old(current) - (old(current).Keys - todo - services.Keys)
      {
        var key := Pick(todo);
        todo := todo - {key};
        if key !in services {
          RecordedGone(net, stack, current, key);
          RemoveVip(current[key]);
          current := current - {key};
        }
      }
    }

    /** One service is placed unless its address is unusable or taken. */
    method Place(key: int, s: ServiceSnapshot)
      requires Valid() && key !in current
      modifies this`stack, this`current
      ensures Valid() && stack >= old(stack)
      ensures current == old(current) || (Vip(net, s).Some? && current == old(current)[key := Vip(net, s).value])
      ensures Vip(net, s).Some? ==> Bare(Vip(net, s).value) in stack
    {
      var vip := net.parse(s.ip);
      if vip.None? { return; }
      ghost var before := stack;
      var ok := AddVip(vip.value);
      if !ok { return; }
      RecordedMore(net, before, current, key, vip.value);
      current := current[key := vip.value];
    }

    /** The second loop: every wanted service that is not recorded is placed if it can be. */
    method PlaceMissing(services: Services)
      requires Valid() && current.Keys <= services.Keys
      modifies this`stack, this`current
      ensures Valid()
      ensures old(current).Keys <= current.Keys <= services.Keys
      ensures forall k :: k in old(current) ==> current[k] == old(current)[k]
      ensures forall k :: k in current && k !in old(current) ==> Vip(net, services[k]) == Some(current[k])
      ensures OthersTaken(net, stack, current, services, {})
    {
      var todo := services.Keys;
      while todo != {}
        invariant Valid() && todo <= services.Keys
        invariant old(current).Keys <= current.Keys <= services.Keys
        invariant forall k :: k in old(current) ==> current[k] == old(current)[k]
        invariant forall k :: k in current && k !in old(current) ==> Vip(net, services[k]) == Some(current[k])
        invariant OthersTaken(net, stack, current, services, todo)
      {
        var key := Pick(todo);
        todo := todo - {key};
        if key !in current { Place(key, services[key]); }
      }
    }

    /** `reconcile`, in whatever order Go walks its maps. Each service is recorded at its own address
        if and only if no service that stayed has changed its address. The stack carries exactly the
        service addresses if and only if the addresses that stayed recorded are all asked for and reach
        all that is asked for, also when one service took over the address of another that went in
        the same call. */
    method Reconcile(services: Services)
      requires Valid()
      modifies this`stack, this`current
      ensures Valid() && Rerecorded(net, old(current), services, current)
      ensures Agrees(net, current, services) <==> KeptAgree(net, old(current), services)
      ensures Serves(net, stack, services) <==> WillServe(net, old(current), services)
    {
      ghost var before := current;
      DropUnwanted(services);
      PlaceMissing(services);
      if WillServe(net, before, services) { StackServes(net, stack, before, services, current); }
      if Serves(net, stack, services) { ServingStack(net, stack, before, services, current); }
    }

    method CloseAll()
      requires Valid()
      modifies this`stack, this`current
      ensures Valid() && stack == net.base && current == map[]
    {
      DropUnwanted(map[]);
      assert current.Keys == {};
    }

    /** Any number of reconciliations, one for each index of a run. Each service stays recorded at the
        address it had when it was placed; the stack serves the last index if and only if the record
        before it allowed that, and always when no service ever changed its address. */
    method Follow(run: seq<Services>) returns (ghost before: Recorded)
      requires Valid() && current == map[]
      modifies this`stack, this`current
      ensures Valid() && forall k :: k in current ==> PlacedAt(net, run, k, current[k])
      ensures run != [] ==> (Serves(net, stack, run[|run| - 1]) <==> WillServe(net, before, run[|run| - 1]))
      ensures run != [] && Steady(run, |run|) ==> Serves(net, stack, run[|run| - 1])
    {
      before := map[];
      for i := 0 to |run|
        invariant Valid() && forall k :: k in current ==> PlacedAt(net, run[..i], k, current[k])
        invariant i > 0 ==> (Serves(net, stack, run[i - 1]) <==> WillServe(net, before, run[i - 1]))
        invariant i == 0 ==> current == map[]
        invariant i > 0 && Steady(run, i) ==> Agrees(net, current, run[i - 1]) && Serves(net, stack, run[i - 1])
      {
        before := current;
        Reconcile(run[i]);
        PlacedNext(net, run, i, before, current);
        if i > 0 && Steady(run, i + 1) {
          assert Steady(run, i) && SameAddresses(run[i - 1], run[i]);
          SteadyKept(net, before, run[i - 1], run[i]);
        }
      }
      assert run[..|run|] == run;
    }
  }

  /** The failing run itself: one service placed at `x`, then moved to `y`, and the stack still carries `x`. */
  method MoveOneService(net: Netstack, placed: ServiceSnapshot, moved: ServiceSnapshot, x: Addr, y: Addr)
    returns (m: ListenerManager)
    requires Vip(net, placed) == Some(x) && Vip(net, moved) == Some(y) && Bare(x) != Bare(y) && Bare(x) !in net.base
    ensures m.net == net && Bare(x) in m.stack && !Serves(net, m.stack, map[1 := moved])
  {
    m := new ListenerManager(net);
    MovedServiceIsMissed(net, placed, moved, x, y);
    m.Reconcile(map[1 := placed]);
    assert Asks(net, placed, Bare(x)) && SomeAsks(net, map[1 := placed], Bare(x));
    assert Bare(x) in m.stack && Agrees(net, m.current, map[1 := placed]);
    ghost var k :| k in m.current && Bare(m.current[k]) == Bare(x);
    assert k == 1 && forall j :: j in m.current ==> j == 1;
    ghost var one: Recorded := map[1 := x];
    assert forall j :: j in m.current <==> j in one;
    assert m.current == one;
    m.Reconcile(map[1 := moved]);
    assert Stays(map[1 := x], map[1 := moved], 1) && m.current[1] == x;
  }
}
