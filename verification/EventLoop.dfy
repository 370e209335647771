/** The closed loop: deliver an event, run the handler, patch the service, and queue an
    Update when the service changed. With no events from outside it drains, for every
    order of deliveries and every pattern of failing requests. */
module EventLoop {
  import opened Text
  import opened Objects
  import opened ApiServer
  import opened Annotations
  import opened Ingresses
  import opened IngressRuns
  import opened ServiceTypes
  import opened Handlers
  import opened Orbits

  /** `delivered` is the version the informer last handed out; `queue` the services with
      an event to deliver. */
  datatype Loop = Loop(world: World, delivered: map<Key, Service>, queue: seq<Key>)

  /** One delivery: the current version of the service at position `i` of the queue, with
      the previously delivered one if there is any. */
  function Deliver(x: Exposer, allowed: seq<string>, st: Loop, i: nat, faults: Faults): Loop
    requires i < |st.queue|
  {
    var key := st.queue[i];
    var rest := st.queue[..i] + st.queue[i + 1..];
    if key !in st.world.services then st.(queue := rest)
    else
      var svc := st.world.services[key];
      var w := if key in st.delivered then OnUpdate(x, allowed, st.world, st.delivered[key], svc, faults)
               else OnAdd(x, allowed, st.world, svc, faults);
      Loop(
        w,
        st.delivered[key := svc],
        if key in w.services && w.services[key] != svc then rest + [key] else rest)
  }

  predicate WellKeyed(services: map<Key, Service>) {
    forall key | key in services :: services[key].Id() == key
  }

  // ---- What a handler changes ----------------------------------------------

  /** Add on the stored version of a service rewrites that service, or leaves all services alone. */
  function Rewritten(x: Exposer, svc: Service): Service {
    match x
    case ByIngress(cfg) => Exposed(cfg, svc)
    case ByNodePort(nodeIP, portOf) => AsNodePort(nodeIP, portOf, svc).GetOr(svc)
    case ByLoadBalancer(portOf) => AsLoadBalancer(portOf, svc)
  }

  lemma RewrittenIsRewrite(x: Exposer, svc: Service)
    ensures IsRewrite(svc, Rewritten(x, svc)) && Rewritten(x, svc).Id() == svc.Id()
  {
    hide Annotated, FullHost, Itoa;
  }

  lemma AddTouchesOneService(x: Exposer, w: World, svc: Service, faults: Faults)
    requires svc.Id() in w.services && w.services[svc.Id()] == svc
    ensures var after := AddTo(x, w, svc, faults);
      || after.services == w.services
      || (!faults.patch && after.services == w.services[svc.Id() := Rewritten(x, svc)])
  {
    hide Lands, Exposed, AsNodePort, AsLoadBalancer, Patched, AfterAdd;
    RewrittenIsRewrite(x, svc);
    PatchedCurrent(w.services, svc, Rewritten(x, svc), faults.patch);
    assert w.services[svc.Id() := svc] == w.services;
  }

  lemma RemoveTouchesOneService(x: Exposer, w: World, svc: Service, faults: Faults)
    requires svc.Id() in w.services && w.services[svc.Id()] == svc
    ensures var after := RemoveFrom(x, w, svc, faults);
      after.services == w.services || after.services == w.services[svc.Id() := Unexposed(svc)]
  {
    hide Stripped, Patched;
    PatchedCurrent(w.services, svc, Unexposed(svc), faults.patch);
    assert w.services[svc.Id() := svc] == w.services;
  }

  /** Taking annotations off never makes a service match. */
  lemma UnexposedStaysUnmatched(svc: Service)
    requires !Matches(svc)
    ensures !Matches(Unexposed(svc))
  {
  }

  // ---- The measure ---------------------------------------------------------

  function Sum(f: Key -> nat, keys: seq<Key>): nat {
    if keys == [] then 0 else f(keys[0]) + Sum(f, keys[1..])
  }

  lemma {:induction false} SumMonotone(f: Key -> nat, g: Key -> nat, keys: seq<Key>)
    requires forall key | key in keys :: f(key) <= g(key)
    ensures Sum(f, keys) <= Sum(g, keys)
    ensures (exists key | key in keys :: f(key) < g(key)) ==> Sum(f, keys) < Sum(g, keys)
  {
    if keys != [] {
      SumMonotone(f, g, keys[1..]);
      assert forall key | key in keys :: key == keys[0] || key in keys[1..];
    }
  }

  /** 2 while the service matches, 1 while a removal is still due, 0 afterwards. */
  function Phase(st: Loop, key: Key): nat {
    if key !in st.world.services then 0
    else if Matches(st.world.services[key]) then 2
    else if key in st.delivered && Declared(st.delivered[key]) then 1
    else 0
  }

  /** The targets of coming Adds whose backend is not listed yet. */
  function Unlisted(cfg: Config, ingresses: map<Key, Ingress>, svc: Service): set<(string, string)> {
    set target | target in Orbit(cfg, svc) && !ListedAt(ingresses, svc, target)
  }

  /** How many more rewrites change the service. */
  function Rank(x: Exposer, svc: Service): nat {
    var one := Rewritten(x, svc);
    var two := Rewritten(x, one);
    if one == svc then 0
    else if two == one then 1
    else if Rewritten(x, two) == two then 2
    else 3
  }

  /** How many more writes the Adds of this service can make. */
  function Work(x: Exposer, w: World, key: Key): nat {
    if key !in w.services then 0
    else match x
         case ByIngress(cfg) => |Unlisted(cfg, w.ingresses, w.services[key])|
         case _ => Rank(x, w.services[key])
  }

  function Phases(st: Loop, keys: seq<Key>): nat {
    Sum(key => Phase(st, key), keys)
  }

  function Works(x: Exposer, w: World, keys: seq<Key>): nat {
    Sum(key => Work(x, w, key), keys)
  }

  /** A service with an event to deliver that the handlers act on and Add can handle, and
      that aims further out each time. */
  predicate Runaway(cfg: Config, allowed: seq<string>, st: Loop, key: Key) {
    && key in st.queue && key in st.world.services
    && Handled(st.world.services[key], allowed) && WellFormed(st.world.services[key]) && Grows(cfg, st.world.services[key])
  }

  ghost predicate Tame(x: Exposer, allowed: seq<string>, st: Loop) {
    x.ByIngress? ==> forall key :: !Runaway(x.cfg, allowed, st, key)
  }

  // ---- Work goes down with every write -------------------------------------

  lemma SubsetIsSmaller<T>(a: set<T>, b: set<T>)
    requires a <= b
    ensures |a| <= |b|
    ensures a != b ==> |a| < |b|
  {
    var rest := b - a;
    assert a + rest == b && a !! rest;
    assert |b| == |a| + |rest|;
  }

  /** An Add that stores its ingress leaves less work for its service, and no more for the others. */
  lemma IngressWork(cfg: Config, w: World, svc: Service, faults: Faults, key: Key)
    requires WellKeyed(w.services) && svc.Id() in w.services && w.services[svc.Id()] == svc
    requires Lands(cfg, w.ingresses, svc, faults) && !Grows(cfg, svc)
    ensures var x, after := ByIngress(cfg), AddTo(ByIngress(cfg), w, svc, faults);
      && Work(x, after, key) <= Work(x, w, key)
      && (key == svc.Id() ==> Work(x, after, key) < Work(x, w, key))
  {
    hide Target, ListedAt, Exposed, Lands, AfterAdd, ServicesAfterAdd, Grows, Unlisted;
    var x := ByIngress(cfg);
    var after := AddTo(x, w, svc, faults);
    AddLists(cfg, w.ingresses, svc, faults);
    AddTouchesOneService(x, w, svc, faults);
    OrbitCloses(cfg, svc);
    assert Target(cfg, svc) in Orbit(cfg, svc);
    assert after.ingresses == AfterAdd(cfg, w.ingresses, svc, faults);
    assert Rewritten(x, svc) == Exposed(cfg, svc);
    hide Orbit, AddTo, Rewritten;
    if key in w.services {
      var before, now := w.services[key], after.services[key];
      assert now == before || (key == svc.Id() && now == Exposed(cfg, svc));
      ExposedKeepsIdentity(cfg, svc);
      UnlistedShrinks(cfg, w.ingresses, after.ingresses, before, now, Target(cfg, svc));
    }
  }

  lemma UnlistedShrinks(
    cfg: Config, ingresses: map<Key, Ingress>, ingresses': map<Key, Ingress>, before: Service, now: Service, target: (string, string))
    requires now.name == before.name && now.namespace == before.namespace && Orbit(cfg, now) <= Orbit(cfg, before)
    requires forall t | ListedAt(ingresses, before, t) :: ListedAt(ingresses', before, t)
    ensures |Unlisted(cfg, ingresses', now)| <= |Unlisted(cfg, ingresses, before)|
    ensures target in Orbit(cfg, before) && !ListedAt(ingresses, before, target) && ListedAt(ingresses', before, target) ==>
      |Unlisted(cfg, ingresses', now)| < |Unlisted(cfg, ingresses, before)|
  {
    SameListing(ingresses', before, now);
    hide Orbit, ListedAt;
    var a, b := Unlisted(cfg, ingresses, before), Unlisted(cfg, ingresses', now);
    assert b <= a;
    assert target in a && ListedAt(ingresses', before, target) ==> target !in b;
    SubsetIsSmaller(b, a);
  }

  lemma ExposedKeepsIdentity(cfg: Config, svc: Service)
    ensures var s := Exposed(cfg, svc); s.name == svc.name && s.namespace == svc.namespace
  {
    hide Annotated, FullHost;
  }

  lemma SameListing(ingresses: map<Key, Ingress>, a: Service, b: Service)
    requires a.name == b.name && a.namespace == b.namespace
    ensures forall target :: ListedAt(ingresses, a, target) <==> ListedAt(ingresses, b, target)
  {
  }

  /** The rewrites of the other two strategies settle: a rewrite that changes the service lowers its rank. */
  lemma RankFalls(x: Exposer, svc: Service)
    requires !x.ByIngress? && Rewritten(x, svc) != svc
    ensures Rank(x, Rewritten(x, svc)) < Rank(x, svc)
  {
    var one := Rewritten(x, svc);
    var two := Rewritten(x, one);
    var three := Rewritten(x, two);
    assert Rewritten(x, three) == three by {
      match x {
        case ByLoadBalancer(portOf) =>
          LoadBalancerSettles(portOf, svc);
          assert LoadBalancerTimes(portOf, svc, 0) == svc;
          assert LoadBalancerTimes(portOf, svc, 1) == one;
          assert LoadBalancerTimes(portOf, svc, 2) == two;
          assert LoadBalancerTimes(portOf, svc, 3) == three;
          hide AsLoadBalancer;
        case ByNodePort(nodeIP, portOf) =>
          assert |svc.ports| == 1;
          NodePortSettles(nodeIP, portOf, svc);
          assert NodePortTimes(nodeIP, portOf, svc, 0) == svc;
          assert NodePortTimes(nodeIP, portOf, svc, 1) == one;
          assert NodePortTimes(nodeIP, portOf, svc, 2) == two;
          assert NodePortTimes(nodeIP, portOf, svc, 3) == three;
      }
    }
    hide Rewritten;
  }

  /** Everything the proof of a delivery needs to know about the Add in it. */
  lemma AddProgress(x: Exposer, w: World, svc: Service, faults: Faults)
    requires WellKeyed(w.services) && svc.Id() in w.services && w.services[svc.Id()] == svc
    requires x.ByIngress? && WellFormed(svc) ==> !Grows(x.cfg, svc)
    ensures var after := AddTo(x, w, svc, faults);
      || after == w
      || (&& (after.services == w.services || after.services == w.services[svc.Id() := Rewritten(x, svc)])
          && Work(x, after, svc.Id()) < Work(x, w, svc.Id())
          && forall key :: Work(x, after, key) <= Work(x, w, key))
  {
    if x.ByIngress? {
      IngressProgress(x, w, svc, faults);
    } else {
      hide Work;
      OtherProgress(x, w, svc, faults);
    }
  }

  lemma IngressProgress(x: Exposer, w: World, svc: Service, faults: Faults)
    requires WellKeyed(w.services) && svc.Id() in w.services && w.services[svc.Id()] == svc
    requires x.ByIngress? && (WellFormed(svc) ==> !Grows(x.cfg, svc))
    ensures var after := AddTo(x, w, svc, faults);
      || after == w
      || (&& (after.services == w.services || after.services == w.services[svc.Id() := Rewritten(x, svc)])
          && Work(x, after, svc.Id()) < Work(x, w, svc.Id())
          && forall key :: Work(x, after, key) <= Work(x, w, key))
  {
    hide Work, WellKeyed, Grows, Rewritten, Lands, WellFormed;
    if !WellFormed(svc) {
      MalformedNeverLands(x.cfg, w.ingresses, svc, faults);
    }
    var after := AddTo(x, w, svc, faults);
    AddTouchesOneService(x, w, svc, faults);
    if Lands(x.cfg, w.ingresses, svc, faults) {
      hide AddTo;
      forall key
        ensures Work(x, after, key) <= Work(x, w, key)
        ensures key == svc.Id() ==> Work(x, after, key) < Work(x, w, key)
      {
        IngressWork(x.cfg, w, svc, faults, key);
      }
    }
  }

  lemma OtherProgress(x: Exposer, w: World, svc: Service, faults: Faults)
    requires svc.Id() in w.services && w.services[svc.Id()] == svc
    requires !x.ByIngress?
    ensures var after := AddTo(x, w, svc, faults);
      || after == w
      || (&& (after.services == w.services || after.services == w.services[svc.Id() := Rewritten(x, svc)])
          && Work(x, after, svc.Id()) < Work(x, w, svc.Id())
          && forall key :: Work(x, after, key) <= Work(x, w, key))
  {
    hide Rank, Rewritten, AsNodePort, AsLoadBalancer, Patched;
    var after := AddTo(x, w, svc, faults);
    AddTouchesOneService(x, w, svc, faults);
    assert after.ingresses == w.ingresses;
    if after.services != w.services {
      RankFalls(x, svc);
    }
  }

  // ---- Every delivery makes progress ---------------------------------------

  ghost predicate Ready(x: Exposer, allowed: seq<string>, st: Loop, keys: seq<Key>) {
    && WellKeyed(st.world.services) && Tame(x, allowed, st)
    && forall key | key in st.world.services :: key in keys
  }

  /** The lexicographic order on (phases, work, queue length). */
  predicate Below(x: Exposer, a: Loop, b: Loop, keys: seq<Key>) {
    || Phases(a, keys) < Phases(b, keys)
    || (Phases(a, keys) == Phases(b, keys)
        && (Works(x, a.world, keys) < Works(x, b.world, keys)
            || (Works(x, a.world, keys) == Works(x, b.world, keys) && |a.queue| < |b.queue|)))
  }

  lemma PhasesFall(a: Loop, b: Loop, keys: seq<Key>)
    requires forall key :: Phase(a, key) <= Phase(b, key)
    ensures Phases(a, keys) <= Phases(b, keys)
    ensures (exists key | key in keys :: Phase(a, key) < Phase(b, key)) ==> Phases(a, keys) < Phases(b, keys)
  {
    hide Phase;
    SumMonotone(key => Phase(a, key), key => Phase(b, key), keys);
  }

  lemma WorksFall(x: Exposer, a: World, b: World, keys: seq<Key>)
    requires forall key :: Work(x, a, key) <= Work(x, b, key)
    ensures Works(x, a, keys) <= Works(x, b, keys)
    ensures (exists key | key in keys :: Work(x, a, key) < Work(x, b, key)) ==> Works(x, a, keys) < Works(x, b, keys)
  {
    hide Work;
    SumMonotone(key => Work(x, a, key), key => Work(x, b, key), keys);
  }

  /** Only the delivered service may differ afterwards, and if it does not, the queue is shorter. */
  predicate OneServiceApart(a: map<Key, Service>, b: map<Key, Service>, key: Key) {
    key in b && (a == b || (key in a && a == b[key := a[key]]))
  }

  lemma DeliverShape(x: Exposer, allowed: seq<string>, st: Loop, i: nat, faults: Faults)
    requires i < |st.queue| && st.queue[i] in st.world.services
    ensures var key, next := st.queue[i], Deliver(x, allowed, st, i, faults);
      && next.delivered == st.delivered[key := st.world.services[key]]
      && (next.world == st.world ==> |next.queue| < |st.queue|)
      && forall k | k in next.queue :: k in st.queue
  {
    hide OnUpdate, OnAdd;
  }

  /** A delivery leaves the loop ready unless the service it rewrote grows. */
  lemma ReadyAfter(x: Exposer, allowed: seq<string>, st: Loop, next: Loop, key: Key, keys: seq<Key>)
    requires Ready(x, allowed, st, keys) && key in st.queue
    requires OneServiceApart(next.world.services, st.world.services, key)
    requires forall k | k in next.queue :: k in st.queue
    requires var svc := next.world.services[key];
      && svc.Id() == key
      && (next.world.services == st.world.services || (x.ByIngress? && Handled(svc, allowed) && WellFormed(svc) ==> !Grows(x.cfg, svc)))
    ensures Ready(x, allowed, next, keys)
  {
    hide Grows, Handled, WellFormed;
    if x.ByIngress? {
      forall k
        ensures !Runaway(x.cfg, allowed, next, k)
      {
        assert !Runaway(x.cfg, allowed, st, k);
      }
    }
  }

  lemma BelowByPhase(x: Exposer, st: Loop, next: Loop, key: Key, keys: seq<Key>)
    requires key in keys
    requires forall k :: Phase(next, k) <= Phase(st, k)
    requires Phase(next, key) < Phase(st, key)
    ensures Below(x, next, st, keys)
  {
    hide Phase;
    PhasesFall(next, st, keys);
  }

  lemma BelowByWork(x: Exposer, st: Loop, next: Loop, key: Key, keys: seq<Key>)
    requires key in keys
    requires forall k :: Phase(next, k) <= Phase(st, k)
    requires forall k :: Work(x, next.world, k) <= Work(x, st.world, k)
    requires Work(x, next.world, key) < Work(x, st.world, key)
    ensures Below(x, next, st, keys)
  {
    hide Phase, Work;
    PhasesFall(next, st, keys);
    WorksFall(x, next.world, st.world, keys);
  }

  lemma BelowByQueue(x: Exposer, st: Loop, next: Loop, keys: seq<Key>)
    requires forall k :: Phase(next, k) <= Phase(st, k)
    requires next.world == st.world && |next.queue| < |st.queue|
    ensures Below(x, next, st, keys)
  {
    hide Phase;
    PhasesFall(next, st, keys);
  }

  lemma PhasesAfter(st: Loop, next: Loop, key: Key)
    requires OneServiceApart(next.world.services, st.world.services, key)
    requires next.delivered == st.delivered[key := st.world.services[key]]
    requires Matches(next.world.services[key]) ==> Matches(st.world.services[key])
    ensures forall k :: Phase(next, k) <= Phase(st, k)
    ensures !Matches(next.world.services[key]) && !Matches(st.world.services[key]) ==> Phase(next, key) == 0
  {
    hide Injected;
    assert !Matches(st.world.services[key]) ==> !Declared(st.world.services[key]);
  }

  /** Delivering a matching version. */
  lemma DeliverMatching(x: Exposer, allowed: seq<string>, st: Loop, i: nat, faults: Faults, keys: seq<Key>)
    requires Ready(x, allowed, st, keys) && i < |st.queue|
    requires st.queue[i] in st.world.services && Matches(st.world.services[st.queue[i]])
    ensures var next := Deliver(x, allowed, st, i, faults);
            Ready(x, allowed, next, keys) && Below(x, next, st, keys)
  {
    var key := st.queue[i];
    var svc := st.world.services[key];
    var next := Deliver(x, allowed, st, i, faults);
    assert next.world == (if Handled(svc, allowed) then AddTo(x, st.world, svc, faults) else st.world);
    DeliverShape(x, allowed, st, i, faults);
    if Handled(svc, allowed) {
      assert x.ByIngress? ==> !Runaway(x.cfg, allowed, st, key);
      AddProgress(x, st.world, svc, faults);
      if WellFormed(svc) {
        RewrittenStaysTame(x, svc);
      } else if x.ByIngress? {
        MalformedNeverLands(x.cfg, st.world.ingresses, svc, faults);
      }
    }
    RewrittenIsRewrite(x, svc);
    hide AddTo, Tame, Work, Matches, Phase, Rewritten, Whitelisted, Deliver, Below, IsRewrite, Handled, Grows;
    ReadyAfter(x, allowed, st, next, key, keys);
    PhasesAfter(st, next, key);
    if next.world == st.world {
      BelowByQueue(x, st, next, keys);
    } else {
      BelowByWork(x, st, next, key, keys);
    }
  }

  lemma RewrittenStaysTame(x: Exposer, svc: Service)
    requires x.ByIngress? ==> !Grows(x.cfg, svc)
    ensures x.ByIngress? ==> !Grows(x.cfg, Rewritten(x, svc))
  {
    if x.ByIngress? {
      StaysTame(x.cfg, svc);
    }
  }

  /** Delivering a version that does not match. */
  lemma DeliverUnmatching(x: Exposer, allowed: seq<string>, st: Loop, i: nat, faults: Faults, keys: seq<Key>)
    requires Ready(x, allowed, st, keys) && i < |st.queue|
    requires st.queue[i] in st.world.services && !Matches(st.world.services[st.queue[i]])
    ensures var next := Deliver(x, allowed, st, i, faults);
            Ready(x, allowed, next, keys) && Below(x, next, st, keys)
  {
    var key := st.queue[i];
    var svc := st.world.services[key];
    var next := Deliver(x, allowed, st, i, faults);
    assert next.world == st.world
        || (next.world == RemoveFrom(x, st.world, svc, faults) && Phase(st, key) == 1);
    DeliverShape(x, allowed, st, i, faults);
    RemoveTouchesOneService(x, st.world, svc, faults);
    UnexposedStaysUnmatched(svc);
    assert Unexposed(svc).Id() == svc.Id();
    hide RemoveFrom, Tame, Matches, Phase, Unexposed, Deliver, Below, Grows;
    ReadyAfter(x, allowed, st, next, key, keys);
    PhasesAfter(st, next, key);
    if next.world == st.world {
      BelowByQueue(x, st, next, keys);
    } else {
      BelowByPhase(x, st, next, key, keys);
    }
  }

  lemma DeliveryMakesProgress(x: Exposer, allowed: seq<string>, st: Loop, i: nat, faults: Faults, keys: seq<Key>)
    requires Ready(x, allowed, st, keys) && i < |st.queue|
    ensures var next := Deliver(x, allowed, st, i, faults);
            Ready(x, allowed, next, keys) && Below(x, next, st, keys)
  {
    if st.queue[i] !in st.world.services {
      var next := Deliver(x, allowed, st, i, faults);
      assert next.world == st.world && next.delivered == st.delivered;
      PhasesFall(next, st, keys);
      PhasesFall(st, next, keys);
      if x.ByIngress? {
        assert forall key :: Runaway(x.cfg, allowed, next, key) ==> Runaway(x.cfg, allowed, st, key);
      }
    } else if Matches(st.world.services[st.queue[i]]) {
      DeliverMatching(x, allowed, st, i, faults, keys);
    } else {
      DeliverUnmatching(x, allowed, st, i, faults, keys);
    }
  }

  // ---- The loop drains -----------------------------------------------------

  /** Which queued event is delivered next, and which requests fail while it is handled. */
  type Schedule = nat -> (nat, Faults)

  /** The loop after `n` deliveries; an empty queue stays as it is. */
  function At(x: Exposer, allowed: seq<string>, st: Loop, schedule: Schedule, n: nat): Loop {
    if n == 0 then st
    else
      var before := At(x, allowed, st, schedule, n - 1);
      if before.queue == [] then before
      else Deliver(x, allowed, before, schedule(n - 1).0 % |before.queue|, schedule(n - 1).1)
  }

  /** With no events from outside, for any number of services sharing ingresses in any
      way, whatever is stored at the start, in whatever order events are delivered and
      whichever requests fail, the queue runs empty; for the ingress strategy under the
      condition that no service with an event due that the handlers act on grows, for the
      other two without any. */
  lemma {:induction false} LoopDrains(
    x: Exposer, allowed: seq<string>, st: Loop, schedule: Schedule, keys: seq<Key>, m: nat)
    returns (n: nat)
    requires Ready(x, allowed, At(x, allowed, st, schedule, m), keys)
    ensures n >= m && At(x, allowed, st, schedule, n).queue == []
    decreases Phases(At(x, allowed, st, schedule, m), keys),
              Works(x, At(x, allowed, st, schedule, m).world, keys),
              |At(x, allowed, st, schedule, m).queue|
  {
    hide Ready, Below, Phases, Works, Deliver;
    var now := At(x, allowed, st, schedule, m);
    if now.queue == [] {
      n := m;
    } else {
      var i := schedule(m).0 % |now.queue|;
      DeliveryMakesProgress(x, allowed, now, i, schedule(m).1, keys);
      var next := At(x, allowed, st, schedule, m + 1);
      assert next == Deliver(x, allowed, now, i, schedule(m).1);
      BelowIsSmaller(x, next, now, keys);
      n := LoopDrains(x, allowed, st, schedule, keys, m + 1);
    }
  }

  lemma BelowIsSmaller(x: Exposer, a: Loop, b: Loop, keys: seq<Key>)
    requires Below(x, a, b, keys)
    ensures Phases(a, keys) <= Phases(b, keys)
    ensures Phases(a, keys) == Phases(b, keys) ==> Works(x, a.world, keys) <= Works(x, b.world, keys)
    ensures Phases(a, keys) == Phases(b, keys) && Works(x, a.world, keys) == Works(x, b.world, keys) ==> |a.queue| < |b.queue|
  {
  }
}
