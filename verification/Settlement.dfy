/** What the loop has achieved at any time after a clean start, whichever requests failed:
    which services are listed where, which carry their address, and whether the rules
    carry the hosts that the services were told. */
module Settlement {
  import opened Text
  import opened Objects
  import opened ApiServer
  import opened Annotations
  import opened Ingresses
  import opened IngressRuns
  import opened Handlers
  import opened Orbits
  import opened EventLoop
  import opened Divergence
  import Templates

  /** The annotations that the strategy, the annotation code and the handlers read. */
  const ANNOTATIONS_READ := {
    ANN_INGRESS_NAME, ANN_INGRESS_PATH, ANN_PATH_MODE, ANN_HOST_NAME, ANN_INTERNAL, ANN_SKIP_TLS,
    ANN_INGRESS_ANNOTATIONS, ANN_PORT, ANN_EXPOSE, ANN_INJECT, ANN_API_PATH, ANN_URL, ANN_HOST_NAME_AS
  }

  /** exposeHostNameAs is absent or names an annotation that nothing reads. */
  predicate Plain(svc: Service) {
    HostKey(svc) !in ANNOTATIONS_READ
  }

  lemma PlainLookups(cfg: Config, svc: Service)
    requires Plain(svc)
    ensures forall key | key in ANNOTATIONS_READ && key != ANN_URL ::
      Lookup(Exposed(cfg, svc).annotations, key) == Lookup(svc.annotations, key)
    ensures Exposed(cfg, svc) == svc.(annotations := Exposed(cfg, svc).annotations)
  {
    hide Exposed, FullHost;
    forall key | key in ANNOTATIONS_READ && key != ANN_URL
      ensures Lookup(Exposed(cfg, svc).annotations, key) == Lookup(svc.annotations, key)
    {
      ExposedLookup(cfg, svc, key);
    }
    ExposedLookup(cfg, svc, ANN_URL);
  }

  /** A rewrite leaves everything that is read as it was. */
  lemma PlainRewrite(cfg: Config, svc: Service)
    requires Plain(svc)
    ensures var next := Exposed(cfg, svc);
      && Plain(next) && Target(cfg, next) == Target(cfg, svc) && FullHost(cfg, next) == FullHost(cfg, svc)
      && TlsEnabled(cfg, next) == TlsEnabled(cfg, svc) && (Matches(next) <==> Matches(svc))
      && next.Id() == svc.Id() && HostKey(next) == HostKey(svc) && (WellFormed(next) <==> WellFormed(svc))
      && AddKey(next) == AddKey(svc) && RuleHost(cfg, next) == RuleHost(cfg, svc)
      && Lookup(next.annotations, ANN_API_PATH) == Lookup(svc.annotations, ANN_API_PATH)
  {
    PlainLookups(cfg, svc);
    hide Exposed, FullHost, Target, LinesOk;
    var next := Exposed(cfg, svc);
    assert SameNaming(svc, next) && SamePathing(svc, next) && SameHosting(svc, next);
    SameTarget(cfg, svc, next);
    SameRule(cfg, svc, next);
  }

  lemma SameRule(cfg: Config, a: Service, b: Service)
    requires SameNaming(a, b) && SamePathing(a, b) && SameHosting(a, b)
    ensures AddKey(a) == AddKey(b) && RuleHost(cfg, a) == RuleHost(cfg, b)
  {
    hide Templates.Sprintf, ReplaceFirst;
  }

  /** A second rewrite changes nothing. */
  lemma PlainRewriteSettles(cfg: Config, svc: Service)
    requires Plain(svc)
    ensures var next := Exposed(cfg, svc); Exposed(cfg, next) == next
  {
    PlainRewrite(cfg, svc);
    var next := Exposed(cfg, svc);
    var host, protocol := FullHost(cfg, svc), if TlsEnabled(cfg, svc) then "https" else "http";
    assert next.annotations == Annotated(svc.annotations, host, protocol);
    hide Plain, FullHost, TlsEnabled, Target, Matches;
    SettlesAtOnce(svc.annotations, host, protocol);
    Unrolled(svc.annotations, host, protocol);
    hide Annotated, Reannotated;
    assert Annotated(next.annotations, host, protocol) == next.annotations;
  }

  lemma PlainIsTame(cfg: Config, svc: Service)
    requires Plain(svc)
    ensures !Grows(cfg, svc)
  {
  }

  // ---- What is recorded of a run -------------------------------------------

  /** The failing requests of the first delivery of the service at `key`, among the first
      `n`, in which its ingress could be read and written; `None` if there was none. */
  function Landing(x: Exposer, allowed: seq<string>, st: Loop, schedule: Schedule, key: Key, n: nat): Option<Faults> {
    if n == 0 then None
    else
      var earlier := Landing(x, allowed, st, schedule, key, n - 1);
      var before := At(x, allowed, st, schedule, n - 1);
      var faults := schedule(n - 1).1;
      if earlier.Some? || before.queue == [] then earlier
      else if before.queue[schedule(n - 1).0 % |before.queue|] == key && !faults.get && !faults.write then Some(faults)
      else None
  }

  /** What decides the fate of one service: whether it was listed at its target when the
      controller started, and that first delivery. */
  datatype Past = Past(home: bool, landing: Option<Faults>)

  function PastOf(cfg: Config, allowed: seq<string>, st: Loop, schedule: Schedule, key: Key, n: nat): Past {
    Past(key in st.world.services && IsListed(cfg, st.world.ingresses, st.world.services[key]),
         Landing(ByIngress(cfg), allowed, st, schedule, key, n))
  }

  /** Whether the delivery stored the ingress of the service. */
  predicate Landed(svc: Service, allowed: seq<string>, past: Past) {
    Handled(svc, allowed) && WellFormed(svc) && !past.home && past.landing.Some?
  }

  /** The service after the run: rewritten once if it landed and its patch went through. */
  function Settled(cfg: Config, allowed: seq<string>, svc: Service, past: Past): Service {
    if Landed(svc, allowed, past) && !past.landing.value.patch then Exposed(cfg, svc) else svc
  }

  /** The controller starts: every service has an event to deliver, none was delivered before,
      and what the handlers act on is plain and listed at its target or nowhere. */
  ghost predicate CleanStart(cfg: Config, allowed: seq<string>, st: Loop) {
    && st.delivered == map[] && WellKeyed(st.world.services) && AllUsable(st.world.ingresses)
    && (forall key | key in st.world.services :: key in st.queue)
    && forall key | key in st.world.services && Handled(st.world.services[key], allowed) ::
         Plain(st.world.services[key]) && AtHome(cfg, st.world.ingresses, st.world.services[key])
  }

  /** Nothing is listed for the service but its target. */
  ghost predicate AtHome(cfg: Config, ingresses: map<Key, Ingress>, svc: Service) {
    forall target | ListedAt(ingresses, svc, target) :: target == Target(cfg, svc)
  }

  /** One service that started as `svc`, in the loop as it is now: its stored version, and
      where it is listed. */
  ghost predicate Recorded(cfg: Config, allowed: seq<string>, svc: Service, now: Loop, past: Past) {
    && svc.Id() in now.world.services && now.world.services[svc.Id()] == Settled(cfg, allowed, svc, past)
    && (Handled(svc, allowed) ==> Plain(svc))
    && (Handled(svc, allowed) ==> forall target ::
          (ListedAt(now.world.ingresses, svc, target) <==> (past.home || Landed(svc, allowed, past)) && target == Target(cfg, svc)))
    && (svc.Id() in now.delivered ==> (Matches(now.delivered[svc.Id()]) ==> Matches(svc)))
  }

  lemma SettledIsAlike(cfg: Config, allowed: seq<string>, svc: Service, past: Past)
    requires Handled(svc, allowed) ==> Plain(svc)
    ensures var now := Settled(cfg, allowed, svc, past);
      && now.Id() == svc.Id() && (Handled(now, allowed) <==> Handled(svc, allowed)) && (Matches(now) <==> Matches(svc))
      && Target(cfg, now) == Target(cfg, svc) && (WellFormed(now) <==> WellFormed(svc))
  {
    if Handled(svc, allowed) {
      PlainRewrite(cfg, svc);
    }
    hide Exposed, Target, Matches, WellFormed, Plain;
  }

  // ---- One delivery --------------------------------------------------------

  /** The past after one more delivery of the service itself. */
  function Later(past: Past, faults: Faults): Past {
    if past.landing.None? && !faults.get && !faults.write then past.(landing := Some(faults)) else past
  }

  /** The two worlds around a delivery of a recorded service: an Add if it is handled,
      nothing otherwise; no removal is ever due. */
  lemma WorldAfter(cfg: Config, allowed: seq<string>, svc: Service, st: Loop, past: Past, i: nat, faults: Faults)
    requires Recorded(cfg, allowed, svc, st, past) && i < |st.queue| && st.queue[i] == svc.Id()
    ensures Deliver(ByIngress(cfg), allowed, st, i, faults).world
         == if Handled(svc, allowed) then AddTo(ByIngress(cfg), st.world, st.world.services[svc.Id()], faults) else st.world
  {
    SettledIsAlike(cfg, allowed, svc, past);
    hide Plain, Target, ListedAt, Exposed, AddTo, RemoveFrom, Whitelisted, Settled, Landed;
  }

  /** An Add on a recorded service lands exactly at its first delivery that goes through. */
  lemma RecordedLands(cfg: Config, allowed: seq<string>, svc: Service, st: Loop, past: Past, faults: Faults)
    requires Recorded(cfg, allowed, svc, st, past) && Handled(svc, allowed) && AllUsable(st.world.ingresses)
    ensures Lands(cfg, st.world.ingresses, st.world.services[svc.Id()], faults)
       <==> WellFormed(svc) && !past.home && past.landing.None? && Later(past, faults).landing.Some?
  {
    SettledIsAlike(cfg, allowed, svc, past);
    hide Plain, Target, Exposed, Lands, Matches, Whitelisted, WellFormed, Settled, ListedAt;
    var now := st.world.services[svc.Id()];
    assert Usable(st.world.ingresses, AddKey(now));
    LandsIff(cfg, st.world.ingresses, now, faults);
    SameListing(st.world.ingresses, now, svc);
  }

  lemma OwnRecord(cfg: Config, allowed: seq<string>, svc: Service, st: Loop, past: Past, i: nat, faults: Faults)
    requires Recorded(cfg, allowed, svc, st, past) && AllUsable(st.world.ingresses)
    requires i < |st.queue| && st.queue[i] == svc.Id()
    ensures Recorded(cfg, allowed, svc, Deliver(ByIngress(cfg), allowed, st, i, faults), Later(past, faults))
  {
    var x, now := ByIngress(cfg), st.world.services[svc.Id()];
    var next := Deliver(x, allowed, st, i, faults);
    WorldAfter(cfg, allowed, svc, st, past, i, faults);
    DeliverShape(x, allowed, st, i, faults);
    SettledIsAlike(cfg, allowed, svc, past);
    hide Deliver, Plain, Target, Exposed, Lands, AddTo, Settled, Matches, Whitelisted, WellFormed, ListedAt;
    if Handled(svc, allowed) {
      RecordedLands(cfg, allowed, svc, st, past, faults);
    }
    hide Handled;
    if Handled(svc, allowed) && Lands(cfg, st.world.ingresses, now, faults) {
      hide Recorded;
      LandingRecord(cfg, allowed, svc, st, next, faults);
    } else {
      if Handled(svc, allowed) {
        NotLanding(cfg, st.world, now, faults);
      }
      QuietRecord(cfg, allowed, svc, st, next, past, Later(past, faults));
    }
  }

  /** The delivery that lands. */
  lemma LandingRecord(cfg: Config, allowed: seq<string>, svc: Service, st: Loop, next: Loop, faults: Faults)
    requires Recorded(cfg, allowed, svc, st, Past(false, None)) && Handled(svc, allowed) && WellFormed(svc)
    requires Lands(cfg, st.world.ingresses, svc, faults)
    requires next.world == AddTo(ByIngress(cfg), st.world, svc, faults) && next.delivered == st.delivered[svc.Id() := svc]
    ensures Recorded(cfg, allowed, svc, next, Past(false, Some(faults)))
  {
    hide Plain, Target, Exposed, Lands, AfterAdd, Matches, Whitelisted, WellFormed, ListedAt, Patched;
    AddLists(cfg, st.world.ingresses, svc, faults);
    RewrittenIsRewrite(ByIngress(cfg), svc);
    PatchedCurrent(st.world.services, svc, Exposed(cfg, svc), faults.patch);
  }

  /** A delivery that changes nothing. */
  lemma QuietRecord(
    cfg: Config, allowed: seq<string>, svc: Service, st: Loop, next: Loop, past: Past, past': Past)
    requires Recorded(cfg, allowed, svc, st, past)
    requires next.world == st.world && next.delivered == st.delivered[svc.Id() := st.world.services[svc.Id()]]
    requires Matches(st.world.services[svc.Id()]) ==> Matches(svc)
    requires past' == past || (past'.home == past.home && !Landed(svc, allowed, past) && !Landed(svc, allowed, past'))
    ensures Recorded(cfg, allowed, svc, next, past')
  {
    hide Plain, Target, Exposed, Matches, Handled, ListedAt, WellFormed;
  }

  lemma NotLanding(cfg: Config, w: World, svc: Service, faults: Faults)
    requires !Lands(cfg, w.ingresses, svc, faults)
    ensures AddTo(ByIngress(cfg), w, svc, faults) == w
  {
    hide Lands;
  }

  /** An Add changes nothing about other services. */
  lemma OthersUntouched(cfg: Config, w: World, svc: Service, other: Service, faults: Faults)
    requires svc.Id() in w.services && w.services[svc.Id()] == svc && other.Id() != svc.Id()
    ensures var after := AddTo(ByIngress(cfg), w, svc, faults);
      && Find(after.services, other.Id()) == Find(w.services, other.Id())
      && forall target :: ListedAt(after.ingresses, other, target) == ListedAt(w.ingresses, other, target)
  {
    AddTouchesOneService(ByIngress(cfg), w, svc, faults);
    hide Target, Rewritten, ListedAt, ServicesAfterAdd, IsListed;
    if Lands(cfg, w.ingresses, svc, faults) {
      AddLists(cfg, w.ingresses, svc, faults);
    }
    hide Lands;
  }

  lemma OtherRecord(
    cfg: Config, allowed: seq<string>, svc: Service, other: Service, st: Loop, past: Past, past': Past,
    i: nat, faults: Faults)
    requires Recorded(cfg, allowed, svc, st, past) && Recorded(cfg, allowed, other, st, past')
    requires i < |st.queue| && st.queue[i] == svc.Id() != other.Id()
    ensures Recorded(cfg, allowed, other, Deliver(ByIngress(cfg), allowed, st, i, faults), past')
  {
    WorldAfter(cfg, allowed, svc, st, past, i, faults);
    DeliverShape(ByIngress(cfg), allowed, st, i, faults);
    SettledIsAlike(cfg, allowed, svc, past);
    OthersUntouched(cfg, st.world, st.world.services[svc.Id()], other, faults);
    hide Deliver, Plain, Target, Matches, Handled, Settled, ListedAt, Landed, AddTo;
  }

  // ---- Any run -------------------------------------------------------------

  ghost predicate AllRecorded(cfg: Config, allowed: seq<string>, st: Loop, schedule: Schedule, n: nat) {
    var x := ByIngress(cfg);
    var now := At(x, allowed, st, schedule, n);
    && AllUsable(now.world.ingresses)
    && now.world.services.Keys == st.world.services.Keys
    && forall key | key in st.world.services ::
         Recorded(cfg, allowed, st.world.services[key], now, PastOf(cfg, allowed, st, schedule, key, n))
  }

  lemma PastStep(cfg: Config, allowed: seq<string>, st: Loop, schedule: Schedule, key: Key, n: nat)
    requires n > 0 && At(ByIngress(cfg), allowed, st, schedule, n - 1).queue != []
    ensures var before := At(ByIngress(cfg), allowed, st, schedule, n - 1);
      var earlier := PastOf(cfg, allowed, st, schedule, key, n - 1);
      PastOf(cfg, allowed, st, schedule, key, n)
        == if before.queue[schedule(n - 1).0 % |before.queue|] == key then Later(earlier, schedule(n - 1).1) else earlier
  {
    hide At, IsListed;
  }

  /** A delivery of a recorded service keeps every ingress usable and the set of services. */
  lemma StoreAfter(cfg: Config, allowed: seq<string>, svc: Service, st: Loop, past: Past, i: nat, faults: Faults)
    requires Recorded(cfg, allowed, svc, st, past) && i < |st.queue| && st.queue[i] == svc.Id()
    requires AllUsable(st.world.ingresses)
    ensures var next := Deliver(ByIngress(cfg), allowed, st, i, faults);
      AllUsable(next.world.ingresses) && next.world.services.Keys == st.world.services.Keys
  {
    var x, now := ByIngress(cfg), st.world.services[svc.Id()];
    WorldAfter(cfg, allowed, svc, st, past, i, faults);
    SettledIsAlike(cfg, allowed, svc, past);
    AddTouchesOneService(x, st.world, now, faults);
    AddKeepsUsable(cfg, st.world.ingresses, now, faults);
    hide Deliver, Recorded, Rewritten, AllUsable, ServicesAfterAdd, AfterAdd, Settled;
  }

  lemma StepIsRecorded(cfg: Config, allowed: seq<string>, st: Loop, schedule: Schedule, n: nat)
    requires WellKeyed(st.world.services) && AllRecorded(cfg, allowed, st, schedule, n)
    requires At(ByIngress(cfg), allowed, st, schedule, n).queue != []
    ensures AllRecorded(cfg, allowed, st, schedule, n + 1)
  {
    var x := ByIngress(cfg);
    var before := At(x, allowed, st, schedule, n);
    var i, faults := schedule(n).0 % |before.queue|, schedule(n).1;
    assert At(x, allowed, st, schedule, n + 1) == Deliver(x, allowed, before, i, faults);
    var k := before.queue[i];
    hide Deliver, At, PastOf, Recorded, AllUsable;
    if k in st.world.services {
      StoreAfter(cfg, allowed, st.world.services[k], before, PastOf(cfg, allowed, st, schedule, k, n), i, faults);
    } else {
      NobodyDelivered(x, allowed, before, i, faults);
    }
    forall key | key in st.world.services {
      OneRecord(cfg, allowed, st, schedule, n, key);
    }
  }

  lemma OneRecord(cfg: Config, allowed: seq<string>, st: Loop, schedule: Schedule, n: nat, key: Key)
    requires WellKeyed(st.world.services) && AllRecorded(cfg, allowed, st, schedule, n) && key in st.world.services
    requires At(ByIngress(cfg), allowed, st, schedule, n).queue != []
    ensures var x := ByIngress(cfg);
            Recorded(cfg, allowed, st.world.services[key], At(x, allowed, st, schedule, n + 1),
                     PastOf(cfg, allowed, st, schedule, key, n + 1))
  {
    var x := ByIngress(cfg);
    var before := At(x, allowed, st, schedule, n);
    var i, faults := schedule(n).0 % |before.queue|, schedule(n).1;
    var now := At(x, allowed, st, schedule, n + 1);
    assert now == Deliver(x, allowed, before, i, faults);
    PastStep(cfg, allowed, st, schedule, key, n + 1);
    hide Deliver, At, PastOf, Recorded, AllUsable, Later;
    var k := before.queue[i];
    var svc, past := st.world.services[key], PastOf(cfg, allowed, st, schedule, key, n);
    if k == key {
      OwnRecord(cfg, allowed, svc, before, past, i, faults);
    } else if k in st.world.services {
      OtherRecord(cfg, allowed, st.world.services[k], svc, before, PastOf(cfg, allowed, st, schedule, k, n), past, i, faults);
    } else {
      NobodyDelivered(x, allowed, before, i, faults);
      SameRecord(cfg, allowed, svc, before, now, past);
    }
  }

  lemma NobodyDelivered(x: Exposer, allowed: seq<string>, st: Loop, i: nat, faults: Faults)
    requires i < |st.queue| && st.queue[i] !in st.world.services
    ensures var next := Deliver(x, allowed, st, i, faults); next.world == st.world && next.delivered == st.delivered
  {
  }

  lemma SameRecord(cfg: Config, allowed: seq<string>, svc: Service, st: Loop, next: Loop, past: Past)
    requires Recorded(cfg, allowed, svc, st, past)
    requires next.world == st.world && next.delivered == st.delivered
    ensures Recorded(cfg, allowed, svc, next, past)
  {
    hide Plain, ListedAt, Landed, Settled;
  }

  lemma StartIsRecorded(cfg: Config, allowed: seq<string>, st: Loop, schedule: Schedule)
    requires CleanStart(cfg, allowed, st)
    ensures AllRecorded(cfg, allowed, st, schedule, 0)
  {
    hide Plain, ListedAt, Exposed, Matches, Whitelisted, AllUsable;
    assert forall key | key in st.world.services :: st.world.services[key].Id() == key;
  }

  /** At any time after a clean start, in whatever order events were delivered and
      whichever requests failed: every service is as its own first delivery that got to
      its ingress left it, or as it was if it had been listed before; it is listed at its
      target and nowhere else if it had been, or if there was such a delivery and Add can
      handle it, and nowhere otherwise. */
  lemma {:induction false} RunIsRecorded(cfg: Config, allowed: seq<string>, st: Loop, schedule: Schedule, n: nat)
    requires CleanStart(cfg, allowed, st)
    ensures AllRecorded(cfg, allowed, st, schedule, n)
  {
    hide AllRecorded, Deliver;
    if n == 0 {
      StartIsRecorded(cfg, allowed, st, schedule);
    } else {
      RunIsRecorded(cfg, allowed, st, schedule, n - 1);
      var before := At(ByIngress(cfg), allowed, st, schedule, n - 1);
      if before.queue != [] {
        StepIsRecorded(cfg, allowed, st, schedule, n - 1);
      } else {
        IdleIsRecorded(cfg, allowed, st, schedule, n);
      }
    }
  }

  lemma IdleIsRecorded(cfg: Config, allowed: seq<string>, st: Loop, schedule: Schedule, n: nat)
    requires n > 0 && AllRecorded(cfg, allowed, st, schedule, n - 1)
    requires At(ByIngress(cfg), allowed, st, schedule, n - 1).queue == []
    ensures AllRecorded(cfg, allowed, st, schedule, n)
  {
    hide Recorded, AllUsable;
  }

  // ---- Who is served in the end --------------------------------------------

  /** The service is served: its backend is listed, and rewriting it once more changes nothing. */
  predicate Served(cfg: Config, ingresses: map<Key, Ingress>, svc: Service) {
    IsListed(cfg, ingresses, svc) && Exposed(cfg, svc) == svc
  }

  /** When a service is served in the end: if it was listed at the start, exactly when it
      carried its final annotations already; if not, exactly when Add can handle it, one of
      its deliveries got to its ingress, and the patch of the first of them went through or
      had nothing to change. */
  predicate EndsServed(cfg: Config, svc: Service, past: Past) {
    if past.home then Exposed(cfg, svc) == svc
    else WellFormed(svc) && past.landing.Some? && (!past.landing.value.patch || Exposed(cfg, svc) == svc)
  }

  lemma ServedIff(cfg: Config, allowed: seq<string>, svc: Service, now: Loop, past: Past)
    requires Recorded(cfg, allowed, svc, now, past) && Handled(svc, allowed)
    ensures Served(cfg, now.world.ingresses, now.world.services[svc.Id()]) <==> EndsServed(cfg, svc, past)
  {
    SettledIsAlike(cfg, allowed, svc, past);
    PlainRewriteSettles(cfg, svc);
    hide Plain, Target, Exposed, Matches, Handled, WellFormed, ListedAt;
    SameListing(now.world.ingresses, now.world.services[svc.Id()], svc);
  }

  /** From a clean start, in whatever order the events are delivered and whichever requests
      fail, the queue runs empty, and what then decides whether a service that the handlers
      act on is served is its own past alone. */
  lemma CleanStartSettles(cfg: Config, allowed: seq<string>, st: Loop, schedule: Schedule, keys: seq<Key>) returns (n: nat)
    requires CleanStart(cfg, allowed, st)
    requires forall key | key in st.world.services :: key in keys
    ensures var end := At(ByIngress(cfg), allowed, st, schedule, n);
      && end.queue == [] && end.world.services.Keys == st.world.services.Keys
      && forall key | key in st.world.services && Handled(st.world.services[key], allowed) ::
           (Served(cfg, end.world.ingresses, end.world.services[key])
            <==> EndsServed(cfg, st.world.services[key], PastOf(cfg, allowed, st, schedule, key, n)))
  {
    hide Plain, Exposed, Target, Handled, AllUsable, WellFormed, AtHome, Served, EndsServed, PastOf;
    var x := ByIngress(cfg);
    assert At(x, allowed, st, schedule, 0) == st;
    forall key
      ensures !Runaway(cfg, allowed, st, key)
    {
      if key in st.world.services && Handled(st.world.services[key], allowed) {
        PlainIsTame(cfg, st.world.services[key]);
      }
    }
    hide Grows;
    assert Ready(x, allowed, st, keys);
    hide Ready;
    n := LoopDrains(x, allowed, st, schedule, keys, 0);
    RunIsRecorded(cfg, allowed, st, schedule, n);
    var end := At(x, allowed, st, schedule, n);
    hide At, Recorded;
    forall key | key in st.world.services && Handled(st.world.services[key], allowed) {
      ServedIff(cfg, allowed, st.world.services[key], end, PastOf(cfg, allowed, st, schedule, key, n));
    }
  }

  /** Wherever a run has got to when the controller is started again, that is a clean start. */
  lemma RestartIsClean(cfg: Config, allowed: seq<string>, st: Loop, schedule: Schedule, n: nat, queue: seq<Key>)
    requires CleanStart(cfg, allowed, st)
    requires forall key | key in st.world.services :: key in queue
    ensures CleanStart(cfg, allowed, Loop(At(ByIngress(cfg), allowed, st, schedule, n).world, map[], queue))
  {
    hide Plain, AllUsable, Handled, At, ListedAt, Target, Settled, PastOf, Matches;
    RunIsRecorded(cfg, allowed, st, schedule, n);
    var now := At(ByIngress(cfg), allowed, st, schedule, n).world;
    assert forall key | key in st.world.services :: st.world.services[key].Id() == key;
    forall key | key in st.world.services
      ensures now.services[key].Id() == key
      ensures Handled(now.services[key], allowed) ==> Plain(now.services[key]) && AtHome(cfg, now.ingresses, now.services[key])
    {
      var svc, past := st.world.services[key], PastOf(cfg, allowed, st, schedule, key, n);
      SettledIsAlike(cfg, allowed, svc, past);
      if Handled(svc, allowed) {
        SettledIsPlain(cfg, allowed, svc, past);
      }
      SameListing(now.ingresses, now.services[key], svc);
    }
  }

  lemma SettledIsPlain(cfg: Config, allowed: seq<string>, svc: Service, past: Past)
    requires Plain(svc)
    ensures var now := Settled(cfg, allowed, svc, past);
      Plain(now) && AddKey(now) == AddKey(svc) && RuleHost(cfg, now) == RuleHost(cfg, svc)
  {
    PlainRewrite(cfg, svc);
    hide Exposed, Plain, AddKey, RuleHost;
  }

  /** Without failing requests, a service has an event due until its first delivery. */
  lemma {:induction false} DeliveredOrDue(x: Exposer, allowed: seq<string>, st: Loop, schedule: Schedule, key: Key, n: nat)
    requires FaultFree(schedule) && key in st.queue
    ensures key in At(x, allowed, st, schedule, n).queue || Landing(x, allowed, st, schedule, key, n).Some?
  {
    hide Deliver, FaultFree;
    if n > 0 {
      DeliveredOrDue(x, allowed, st, schedule, key, n - 1);
      assert schedule(n - 1).1 == NO_FAULTS by { NoFaultAt(schedule, n - 1); }
      var before := At(x, allowed, st, schedule, n - 1);
      if before.queue != [] {
        var i := schedule(n - 1).0 % |before.queue|;
        if key in before.queue && key != before.queue[i] {
          StaysQueued(x, allowed, before, i, schedule(n - 1).1, key);
        }
      }
    }
  }

  lemma NoFaultAt(schedule: Schedule, n: nat)
    requires FaultFree(schedule)
    ensures schedule(n).1 == NO_FAULTS
  {
  }

  lemma StaysQueued(x: Exposer, allowed: seq<string>, st: Loop, i: nat, faults: Faults, key: Key)
    requires i < |st.queue| && key in st.queue && key != st.queue[i]
    ensures key in Deliver(x, allowed, st, i, faults).queue
  {
    hide OnAdd, OnUpdate;
    assert key in st.queue[..i] || key in st.queue[i + 1..];
  }

  // ---- Which host the rules carry ------------------------------------------

  function HostOf(ingresses: map<Key, Ingress>, key: Key): string {
    if key in ingresses && ingresses[key].rules != [] then ingresses[key].rules[0].host else ""
  }

  /** The services that the handlers act on and that are listed at their targets. */
  function Housed(cfg: Config, allowed: seq<string>, w: World): set<Key> {
    set key | key in w.services && Handled(w.services[key], allowed) && IsListed(cfg, w.ingresses, w.services[key])
  }

  /** The hosts of those of these services that share an ingress. */
  function Hosts(cfg: Config, services: map<Key, Service>, keys: set<Key>, ingress: Key): set<string> {
    set key | key in keys && key in services && AddKey(services[key]) == ingress :: RuleHost(cfg, services[key])
  }

  /** The ingress of each of these services carries the host of one of them that shares it. */
  ghost predicate HostsFit(cfg: Config, services: map<Key, Service>, ingresses: map<Key, Ingress>, keys: set<Key>) {
    forall a | a in keys && a in services ::
      HostOf(ingresses, AddKey(services[a])) in Hosts(cfg, services, keys, AddKey(services[a]))
  }

  ghost predicate Fitting(cfg: Config, allowed: seq<string>, w: World) {
    HostsFit(cfg, w.services, w.ingresses, Housed(cfg, allowed, w))
  }

  lemma HostAfterAdd(cfg: Config, ingresses: map<Key, Ingress>, svc: Service, faults: Faults)
    requires Lands(cfg, ingresses, svc, faults)
    ensures var after := AfterAdd(cfg, ingresses, svc, faults);
      && HostOf(after, AddKey(svc)) == RuleHost(cfg, svc)
      && forall key | key != AddKey(svc) :: HostOf(after, key) == HostOf(ingresses, key)
  {
    hide WithLines, PathOf, RuleHost, AppName, ExposedPort, TlsHost, OwnAnnotations, WithOwner;
  }

  /** One more service is housed, in a new version with the same ingress and host. */
  lemma HostsFitOn(
    cfg: Config, services: map<Key, Service>, services': map<Key, Service>, ingresses: map<Key, Ingress>, ingresses': map<Key, Ingress>,
    keys: set<Key>, k: Key)
    requires HostsFit(cfg, services, ingresses, keys) && k in services && k in services' && services' == services[k := services'[k]]
    requires AddKey(services'[k]) == AddKey(services[k]) && RuleHost(cfg, services'[k]) == RuleHost(cfg, services[k])
    requires HostOf(ingresses', AddKey(services[k])) == RuleHost(cfg, services[k])
    requires forall key | key != AddKey(services[k]) :: HostOf(ingresses', key) == HostOf(ingresses, key)
    ensures HostsFit(cfg, services', ingresses', keys + {k})
  {
    hide RuleHost, AddKey, HostOf;
  }

  /** An Add that lands houses its service and no other. */
  lemma HousedAfterAdd(cfg: Config, allowed: seq<string>, w: World, svc: Service, faults: Faults)
    requires WellKeyed(w.services) && svc.Id() in w.services && w.services[svc.Id()] == svc
    requires Handled(svc, allowed) && Plain(svc) && Lands(cfg, w.ingresses, svc, faults)
    ensures var after := AddTo(ByIngress(cfg), w, svc, faults);
            Housed(cfg, allowed, after) == Housed(cfg, allowed, w) + {svc.Id()}
  {
    hide Lands, Handled, IsListed, AddTo, Plain;
    var after := AddTo(ByIngress(cfg), w, svc, faults);
    LandedIsHoused(cfg, allowed, w, svc, faults);
    forall key | key in w.services && key != svc.Id()
      ensures Find(after.services, key) == Find(w.services, key)
      ensures IsListed(cfg, after.ingresses, w.services[key]) == IsListed(cfg, w.ingresses, w.services[key])
    {
      assert w.services[key].Id() == key;
      OthersUntouched(cfg, w, svc, w.services[key], faults);
      OthersStayListed(cfg, w.ingresses, after.ingresses, w.services[key]);
    }
  }

  lemma OthersStayListed(cfg: Config, ingresses: map<Key, Ingress>, ingresses': map<Key, Ingress>, svc: Service)
    requires forall target :: ListedAt(ingresses', svc, target) == ListedAt(ingresses, svc, target)
    ensures IsListed(cfg, ingresses', svc) == IsListed(cfg, ingresses, svc)
  {
    hide ListedAt, Target;
  }

  lemma LandedIsHoused(cfg: Config, allowed: seq<string>, w: World, svc: Service, faults: Faults)
    requires svc.Id() in w.services && w.services[svc.Id()] == svc
    requires Handled(svc, allowed) && Plain(svc) && Lands(cfg, w.ingresses, svc, faults)
    ensures var after := AddTo(ByIngress(cfg), w, svc, faults);
      && after.services.Keys == w.services.Keys
      && svc.Id() in Housed(cfg, allowed, after)
  {
    hide Lands, AfterAdd, Plain, Target, ListedAt, Exposed, ServicesAfterAdd, Handled;
    var after := AddTo(ByIngress(cfg), w, svc, faults);
    assert after.ingresses == AfterAdd(cfg, w.ingresses, svc, faults);
    AddTouchesOneService(ByIngress(cfg), w, svc, faults);
    assert Rewritten(ByIngress(cfg), svc) == Exposed(cfg, svc);
    hide AddTo, Rewritten;
    AddLists(cfg, w.ingresses, svc, faults);
    PlainIsAlike(cfg, allowed, svc);
    SameListing(after.ingresses, svc, after.services[svc.Id()]);
  }

  lemma PlainIsAlike(cfg: Config, allowed: seq<string>, svc: Service)
    requires Plain(svc) && Handled(svc, allowed)
    ensures var next := Exposed(cfg, svc);
      Handled(next, allowed) && Target(cfg, next) == Target(cfg, svc) && next.name == svc.name && next.namespace == svc.namespace
  {
    PlainRewrite(cfg, svc);
    hide Exposed, Target, Plain, Matches;
  }

  /** An Add of a plain service keeps the rules fitting. */
  lemma FittingAfterAdd(cfg: Config, allowed: seq<string>, w: World, svc: Service, faults: Faults)
    requires WellKeyed(w.services) && svc.Id() in w.services && w.services[svc.Id()] == svc
    requires Handled(svc, allowed) && Plain(svc) && Fitting(cfg, allowed, w)
    ensures Fitting(cfg, allowed, AddTo(ByIngress(cfg), w, svc, faults))
  {
    PlainRewrite(cfg, svc);
    hide Lands, AfterAdd, Handled, Plain, Target, Exposed, ServicesAfterAdd, WellFormed, WellKeyed;
    hide Housed, HostsFit, HostOf, AddKey, RuleHost, Matches;
    var after := AddTo(ByIngress(cfg), w, svc, faults);
    if Lands(cfg, w.ingresses, svc, faults) {
      HousedAfterAdd(cfg, allowed, w, svc, faults);
      HostAfterAdd(cfg, w.ingresses, svc, faults);
      AddTouchesOneService(ByIngress(cfg), w, svc, faults);
      assert after.services == w.services[svc.Id() := after.services[svc.Id()]];
      HostsFitOn(cfg, w.services, after.services, w.ingresses, after.ingresses, Housed(cfg, allowed, w), svc.Id());
    } else {
      NotLanding(cfg, w, svc, faults);
    }
  }

  lemma {:induction false} StaysFitting(cfg: Config, allowed: seq<string>, st: Loop, schedule: Schedule, n: nat)
    requires CleanStart(cfg, allowed, st) && Fitting(cfg, allowed, st.world)
    ensures Fitting(cfg, allowed, At(ByIngress(cfg), allowed, st, schedule, n).world)
  {
    hide Fitting, CleanStart, Deliver;
    if n > 0 {
      StaysFitting(cfg, allowed, st, schedule, n - 1);
      var before := At(ByIngress(cfg), allowed, st, schedule, n - 1);
      if before.queue != [] {
        FittingStep(cfg, allowed, st, schedule, n);
      }
    }
  }

  lemma FittingStep(cfg: Config, allowed: seq<string>, st: Loop, schedule: Schedule, n: nat)
    requires n > 0 && CleanStart(cfg, allowed, st)
    requires At(ByIngress(cfg), allowed, st, schedule, n - 1).queue != []
    requires Fitting(cfg, allowed, At(ByIngress(cfg), allowed, st, schedule, n - 1).world)
    ensures Fitting(cfg, allowed, At(ByIngress(cfg), allowed, st, schedule, n).world)
  {
    hide Deliver, Fitting, CleanStart, Recorded, WellKeyed, PastOf, AllUsable;
    var x := ByIngress(cfg);
    var before := At(x, allowed, st, schedule, n - 1);
    var i, faults := schedule(n - 1).0 % |before.queue|, schedule(n - 1).1;
    var k := before.queue[i];
    assert At(x, allowed, st, schedule, n) == Deliver(x, allowed, before, i, faults);
    RecordedAt(cfg, allowed, st, schedule, n - 1, k);
    hide At;
    if k in st.world.services {
      FittingDelivery(cfg, allowed, st.world.services[k], before, PastOf(cfg, allowed, st, schedule, k, n - 1), i, faults);
    } else {
      NobodyDelivered(x, allowed, before, i, faults);
    }
  }

  lemma FittingDelivery(cfg: Config, allowed: seq<string>, svc: Service, st: Loop, past: Past, i: nat, faults: Faults)
    requires Recorded(cfg, allowed, svc, st, past) && i < |st.queue| && st.queue[i] == svc.Id()
    requires WellKeyed(st.world.services) && Fitting(cfg, allowed, st.world)
    ensures Fitting(cfg, allowed, Deliver(ByIngress(cfg), allowed, st, i, faults).world)
  {
    hide Deliver, Fitting, AddTo, WellKeyed, Handled, Plain, Settled, ListedAt, Landed, Target;
    WorldAfter(cfg, allowed, svc, st, past, i, faults);
    if Handled(svc, allowed) {
      RecordedNow(cfg, allowed, svc, st, past);
      FittingAfterAdd(cfg, allowed, st.world, st.world.services[svc.Id()], faults);
    }
  }

  /** The stored version of a recorded service is handled and plain as it was at the start. */
  lemma RecordedNow(cfg: Config, allowed: seq<string>, svc: Service, now: Loop, past: Past)
    requires Recorded(cfg, allowed, svc, now, past) && Handled(svc, allowed)
    ensures var s := now.world.services[svc.Id()]; s.Id() == svc.Id() && Handled(s, allowed) && Plain(s)
  {
    SettledIsAlike(cfg, allowed, svc, past);
    SettledIsPlain(cfg, allowed, svc, past);
    hide Settled, Handled, Plain, ListedAt, Target;
  }

  lemma RecordedAt(cfg: Config, allowed: seq<string>, st: Loop, schedule: Schedule, n: nat, key: Key)
    requires CleanStart(cfg, allowed, st)
    ensures var now := At(ByIngress(cfg), allowed, st, schedule, n);
      && WellKeyed(now.world.services)
      && AllUsable(now.world.ingresses) && now.world.services.Keys == st.world.services.Keys
      && (key in st.world.services ==>
            && st.world.services[key].Id() == key
            && Recorded(cfg, allowed, st.world.services[key], now, PastOf(cfg, allowed, st, schedule, key, n)))
  {
    RunIsRecorded(cfg, allowed, st, schedule, n);
    RestartIsClean(cfg, allowed, st, schedule, n, st.queue);
    hide Recorded, AllUsable, At, Plain, Handled, AtHome, PastOf;
  }

  /** The rules carry the host of each of these services. */
  ghost predicate RulesFit(cfg: Config, services: map<Key, Service>, ingresses: map<Key, Ingress>, keys: set<Key>) {
    forall key | key in keys && key in services :: HostOf(ingresses, AddKey(services[key])) == RuleHost(cfg, services[key])
  }

  /** Services that share an ingress agree on the host. */
  ghost predicate Agreed(cfg: Config, services: map<Key, Service>, keys: set<Key>) {
    forall a, b | a in keys && b in keys && a in services && b in services && AddKey(services[a]) == AddKey(services[b]) ::
      RuleHost(cfg, services[a]) == RuleHost(cfg, services[b])
  }

  lemma FitIffAgreed(cfg: Config, services: map<Key, Service>, ingresses: map<Key, Ingress>, keys: set<Key>)
    requires HostsFit(cfg, services, ingresses, keys)
    ensures RulesFit(cfg, services, ingresses, keys) <==> Agreed(cfg, services, keys)
  {
    hide AddKey, RuleHost, HostOf;
  }

  /** At any time after a clean start whose rules carry hosts of listed services, as those of
      an earlier run do: the rules carry the host of every listed service exactly when those
      that share an ingress agree on it; otherwise some of them carry an address that no
      rule routes. */
  lemma RulesCarryTheHostsIffAgreed(cfg: Config, allowed: seq<string>, st: Loop, schedule: Schedule, n: nat)
    requires CleanStart(cfg, allowed, st) && Fitting(cfg, allowed, st.world)
    ensures var now := At(ByIngress(cfg), allowed, st, schedule, n).world;
      && Fitting(cfg, allowed, now)
      && (RulesFit(cfg, now.services, now.ingresses, Housed(cfg, allowed, now))
          <==> Agreed(cfg, now.services, Housed(cfg, allowed, now)))
  {
    StaysFitting(cfg, allowed, st, schedule, n);
    var now := At(ByIngress(cfg), allowed, st, schedule, n).world;
    hide At, CleanStart, HostsFit, RulesFit, Agreed, Housed;
    FitIffAgreed(cfg, now.services, now.ingresses, Housed(cfg, allowed, now));
  }

  // ---- Without failing requests --------------------------------------------

  /** From a clean start, when no request fails: in whatever order the events are
      delivered, the queue runs empty. Then exactly those services are listed that were so
      at the start or that Add can handle; a service that was not listed is served exactly
      when Add can handle it, and one that was, exactly when it carried its final annotations.
      The rules carry their hosts exactly when those that share an ingress agree. */
  lemma CleanStartServesEveryService(cfg: Config, allowed: seq<string>, st: Loop, schedule: Schedule, keys: seq<Key>)
    returns (n: nat)
    requires CleanStart(cfg, allowed, st) && FaultFree(schedule)
    requires forall key | key in st.world.services :: key in keys
    ensures var end := At(ByIngress(cfg), allowed, st, schedule, n);
      && end.queue == [] && end.world.services.Keys == st.world.services.Keys
      && forall key | key in st.world.services && Handled(st.world.services[key], allowed) ::
           var svc, home := st.world.services[key], IsListed(cfg, st.world.ingresses, st.world.services[key]);
           && (key in Housed(cfg, allowed, end.world) <==> home || WellFormed(svc))
           && (Served(cfg, end.world.ingresses, end.world.services[key])
               <==> if home then Exposed(cfg, svc) == svc else WellFormed(svc))
    ensures Fitting(cfg, allowed, st.world) ==>
      var end := At(ByIngress(cfg), allowed, st, schedule, n).world;
      (RulesFit(cfg, end.services, end.ingresses, Housed(cfg, allowed, end))
       <==> Agreed(cfg, end.services, Housed(cfg, allowed, end)))
  {
    n := CleanStartSettles(cfg, allowed, st, schedule, keys);
    if Fitting(cfg, allowed, st.world) {
      RulesCarryTheHostsIffAgreed(cfg, allowed, st, schedule, n);
    }
    hide RulesFit, Agreed, Fitting;
    var end := At(ByIngress(cfg), allowed, st, schedule, n);
    hide Handled, WellFormed, Served, Exposed, IsListed, At, CleanStart, FaultFree, Landing, Recorded, Housed;
    forall key | key in st.world.services && Handled(st.world.services[key], allowed)
      ensures var svc, home := st.world.services[key], IsListed(cfg, st.world.ingresses, st.world.services[key]);
        && (key in Housed(cfg, allowed, end.world) <==> home || WellFormed(svc))
        && PastOf(cfg, allowed, st, schedule, key, n) == Past(home, Some(NO_FAULTS))
    {
      HadItsLanding(cfg, allowed, st, schedule, key, n);
      RecordedAt(cfg, allowed, st, schedule, n, key);
      RecordedIsHoused(cfg, allowed, st.world.services[key], end, PastOf(cfg, allowed, st, schedule, key, n));
    }
  }

  lemma RecordedIsHoused(cfg: Config, allowed: seq<string>, svc: Service, now: Loop, past: Past)
    requires Recorded(cfg, allowed, svc, now, past) && Handled(svc, allowed)
    ensures svc.Id() in Housed(cfg, allowed, now.world) <==> past.home || Landed(svc, allowed, past)
  {
    SettledIsAlike(cfg, allowed, svc, past);
    hide Settled, Handled, Plain, ListedAt, Target, Landed;
    SameListing(now.world.ingresses, now.world.services[svc.Id()], svc);
  }

  /** Without failing requests, once the queue is empty every service had its landing. */
  lemma HadItsLanding(cfg: Config, allowed: seq<string>, st: Loop, schedule: Schedule, key: Key, n: nat)
    requires CleanStart(cfg, allowed, st) && FaultFree(schedule) && key in st.world.services
    requires At(ByIngress(cfg), allowed, st, schedule, n).queue == []
    ensures Landing(ByIngress(cfg), allowed, st, schedule, key, n) == Some(NO_FAULTS)
  {
    hide At, Landing, Handled, Plain, AtHome, AllUsable, WellKeyed;
    DeliveredOrDue(ByIngress(cfg), allowed, st, schedule, key, n);
    LandingWithoutFaults(ByIngress(cfg), allowed, st, schedule, key, n);
    hide FaultFree;
  }

  lemma {:induction false} LandingWithoutFaults(x: Exposer, allowed: seq<string>, st: Loop, schedule: Schedule, key: Key, n: nat)
    requires FaultFree(schedule)
    ensures Landing(x, allowed, st, schedule, key, n) in {None, Some(NO_FAULTS)}
  {
    hide At;
    if n > 0 {
      LandingWithoutFaults(x, allowed, st, schedule, key, n - 1);
    }
  }
}
