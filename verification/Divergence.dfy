/** The condition of the quiescence theorem is sharp: whatever else is in the cluster, a
    growing service that Add can handle keeps the queue from ever running empty. */
module Divergence {
  import opened Text
  import opened Objects
  import opened ApiServer
  import opened Ingresses
  import opened IngressRuns
  import opened Handlers
  import opened Orbits
  import opened EventLoop

  /** Whatever is listed for the service lies closer in than its next target. */
  ghost predicate AllBehind(cfg: Config, ingresses: map<Key, Ingress>, svc: Service) {
    forall target | ListedAt(ingresses, svc, target) :: Closer(target, Target(cfg, svc))
  }

  /** Add can handle the service, it grows, and nothing it is going to write is there yet. */
  ghost predicate Growing(cfg: Config, allowed: seq<string>, ingresses: map<Key, Ingress>, svc: Service) {
    && Handled(svc, allowed) && WellFormed(svc) && GrowsUnder(cfg, svc, HostKey(svc))
    && AllBehind(cfg, ingresses, svc)
  }

  /** The service at `key` grows and has an event to deliver. */
  ghost predicate Running(cfg: Config, allowed: seq<string>, st: Loop, key: Key) {
    && WellKeyed(st.world.services) && AllUsable(st.world.ingresses)
    && key in st.queue && key in st.world.services
    && Growing(cfg, allowed, st.world.ingresses, st.world.services[key])
  }

  lemma GrowthKeepsTheRest(cfg: Config, svc: Service)
    requires GrowsUnder(cfg, svc, HostKey(svc))
    ensures var next := Exposed(cfg, svc);
      && (Matches(next) <==> Matches(svc)) && (WellFormed(next) <==> WellFormed(svc))
      && next.name == svc.name && next.Id() == svc.Id()
  {
    hide Exposed, LinesOk;
    ExposedLookup(cfg, svc, ANN_EXPOSE);
    ExposedLookup(cfg, svc, ANN_INJECT);
    ExposedLookup(cfg, svc, ANN_INGRESS_ANNOTATIONS);
  }

  // ---- Its own deliveries --------------------------------------------------

  /** The Add of a growing service lands, and the rewritten service grows in the new store. */
  lemma GrowingAdd(cfg: Config, allowed: seq<string>, ingresses: map<Key, Ingress>, svc: Service)
    requires Growing(cfg, allowed, ingresses, svc) && AllUsable(ingresses)
    ensures Lands(cfg, ingresses, svc, NO_FAULTS)
    ensures var next := Exposed(cfg, svc);
      && next != svc && next.Id() == svc.Id()
      && Growing(cfg, allowed, AfterAdd(cfg, ingresses, svc, NO_FAULTS), next)
  {
    assert Distance(Target(cfg, svc)) == Reach(cfg, svc);
    hide Exposed, Lands, AfterAdd, Reach, GrowsUnder, HostKey, Matches, WellFormed, ListedAt, Target;
    var next := Exposed(cfg, svc);
    GrowthStep(cfg, svc);
    GrowthKeepsTheRest(cfg, svc);
    assert Usable(ingresses, AddKey(svc));
    LandsIff(cfg, ingresses, svc, NO_FAULTS);
    AddLists(cfg, ingresses, svc, NO_FAULTS);
    var after := AfterAdd(cfg, ingresses, svc, NO_FAULTS);
    forall target | ListedAt(after, next, target)
      ensures Closer(target, Target(cfg, next))
    {
      assert ListedAt(ingresses, next, target) || target == Target(cfg, svc);
      SameListing(ingresses, next, svc);
    }
  }

  /** Delivering the growing service queues it again, one target further out. */
  lemma OwnDelivery(cfg: Config, allowed: seq<string>, st: Loop, key: Key, i: nat)
    requires Running(cfg, allowed, st, key) && i < |st.queue| && st.queue[i] == key
    ensures Running(cfg, allowed, Deliver(ByIngress(cfg), allowed, st, i, NO_FAULTS), key)
  {
    hide Exposed, Lands, AfterAdd, Patched, Matches, Whitelisted, Growing, AllUsable;
    var x, svc := ByIngress(cfg), st.world.services[key];
    var next := Exposed(cfg, svc);
    GrowingAdd(cfg, allowed, st.world.ingresses, svc);
    AddKeepsUsable(cfg, st.world.ingresses, svc, NO_FAULTS);
    RewrittenIsRewrite(x, svc);
    assert IsRewrite(svc, next);
    PatchedCurrent(st.world.services, svc, next, false);
    var after := Deliver(x, allowed, st, i, NO_FAULTS);
    assert Handled(svc, allowed) by { GrowingIsHandled(cfg, allowed, st.world.ingresses, svc); }
    assert after.world == AddTo(x, st.world, svc, NO_FAULTS);
    assert after.world.services == st.world.services[key := next];
    assert after.queue[|after.queue| - 1] == key;
  }

  lemma GrowingIsHandled(cfg: Config, allowed: seq<string>, ingresses: map<Key, Ingress>, svc: Service)
    requires Growing(cfg, allowed, ingresses, svc)
    ensures Handled(svc, allowed)
  {
  }

  // ---- Deliveries of other services ----------------------------------------

  /** An Add or a Remove of another service lists nothing for this one. */
  lemma OthersListNothing(cfg: Config, allowed: seq<string>, ingresses: map<Key, Ingress>, other: Service, svc: Service)
    requires Growing(cfg, allowed, ingresses, svc) && other.Id() != svc.Id() && AllUsable(ingresses)
    ensures var added := AfterAdd(cfg, ingresses, other, NO_FAULTS);
            Growing(cfg, allowed, added, svc) && AllUsable(added)
    ensures var removed := AfterRemove(ingresses, other, NO_FAULTS);
            Growing(cfg, allowed, removed, svc) && AllUsable(removed)
  {
    hide GrowsUnder, WellFormed, Matches, Whitelisted, Lands, Listed, Reach;
    AddKeepsUsable(cfg, ingresses, other, NO_FAULTS);
    if Lands(cfg, ingresses, other, NO_FAULTS) {
      AddLists(cfg, ingresses, other, NO_FAULTS);
    }
    var removed := AfterRemove(ingresses, other, NO_FAULTS);
    assert forall key :: Usable(ingresses, key) ==> Usable(removed, key);
    assert forall target :: ListedAt(removed, svc, target) ==> ListedAt(ingresses, svc, target);
  }

  /** The two worlds around a delivery of another service. */
  lemma OtherWorld(cfg: Config, allowed: seq<string>, w: World, other: Service, svc: Service)
    requires Growing(cfg, allowed, w.ingresses, svc) && other.Id() != svc.Id() && AllUsable(w.ingresses)
    requires WellKeyed(w.services) && other.Id() in w.services && w.services[other.Id()] == other
    ensures forall w' | w' in {w, AddTo(ByIngress(cfg), w, other, NO_FAULTS), RemoveFrom(ByIngress(cfg), w, other, NO_FAULTS)} ::
      && WellKeyed(w'.services) && AllUsable(w'.ingresses)
      && Find(w'.services, svc.Id()) == Find(w.services, svc.Id())
      && Growing(cfg, allowed, w'.ingresses, svc)
  {
    hide Growing, AllUsable, AfterAdd, AfterRemove, Rewritten, Unexposed, ServicesAfterAdd, ServicesAfterRemove;
    var x := ByIngress(cfg);
    OthersListNothing(cfg, allowed, w.ingresses, other, svc);
    AddTouchesOneService(x, w, other, NO_FAULTS);
    RemoveTouchesOneService(x, w, other, NO_FAULTS);
    RewrittenIsRewrite(x, other);
    assert Unexposed(other).Id() == other.Id() by { UnexposedKeepsIdentity(other); }
  }

  lemma UnexposedKeepsIdentity(svc: Service)
    ensures Unexposed(svc).Id() == svc.Id()
  {
  }

  lemma OtherDelivery(cfg: Config, allowed: seq<string>, st: Loop, key: Key, i: nat)
    requires Running(cfg, allowed, st, key) && i < |st.queue| && st.queue[i] != key
    ensures Running(cfg, allowed, Deliver(ByIngress(cfg), allowed, st, i, NO_FAULTS), key)
  {
    hide Matches, Whitelisted, Growing, AllUsable, AddTo, RemoveFrom;
    var k := st.queue[i];
    assert key in st.queue[..i] || key in st.queue[i + 1..];
    if k in st.world.services {
      OtherWorld(cfg, allowed, st.world, st.world.services[k], st.world.services[key]);
    }
  }

  // ---- For ever ------------------------------------------------------------

  /** A schedule on which no request fails. */
  ghost predicate FaultFree(schedule: Schedule) {
    forall n :: schedule(n).1 == NO_FAULTS
  }

  /** Without failing requests a growing service has an event due for ever, in whatever
      order events are delivered and whatever the other services do. */
  lemma {:induction false} NeverDrains(
    cfg: Config, allowed: seq<string>, st: Loop, key: Key, schedule: Schedule, n: nat)
    requires Running(cfg, allowed, st, key) && FaultFree(schedule)
    ensures Running(cfg, allowed, At(ByIngress(cfg), allowed, st, schedule, n), key)
  {
    hide Deliver, Growing, AllUsable, WellKeyed;
    if n > 0 {
      NeverDrains(cfg, allowed, st, key, schedule, n - 1);
      var before := At(ByIngress(cfg), allowed, st, schedule, n - 1);
      var i := schedule(n - 1).0 % |before.queue|;
      if before.queue[i] == key {
        OwnDelivery(cfg, allowed, before, key, i);
      } else {
        OtherDelivery(cfg, allowed, before, key, i);
      }
    }
  }

  /** No runaway service has its exposeHostNameAs name itself, or is listed at or beyond its next target. */
  ghost predicate Unhindered(cfg: Config, allowed: seq<string>, st: Loop) {
    forall key | Runaway(cfg, allowed, st, key) ::
      && HostKey(st.world.services[key]) != ANN_HOST_NAME_AS
      && AllBehind(cfg, st.world.ingresses, st.world.services[key])
  }

  /** Without failing requests, for any services of which no growing one lets
      exposeHostNameAs name itself: the loop drains exactly when no service with an event
      due that the handlers act on, and that Add can handle, grows. */
  lemma DrainsIffNothingGrows(cfg: Config, allowed: seq<string>, st: Loop, schedule: Schedule, keys: seq<Key>)
    requires FaultFree(schedule)
    requires WellKeyed(st.world.services) && AllUsable(st.world.ingresses)
    requires forall key | key in st.world.services :: key in keys
    requires Unhindered(cfg, allowed, st)
    ensures (exists n: nat :: At(ByIngress(cfg), allowed, st, schedule, n).queue == [])
       <==> forall key :: !Runaway(cfg, allowed, st, key)
  {
    hide GrowsUnder, Handled, WellFormed, AllBehind, Reach, AllUsable, WellKeyed;
    var x := ByIngress(cfg);
    if key :| Runaway(cfg, allowed, st, key) {
      assert Growing(cfg, allowed, st.world.ingresses, st.world.services[key]);
      forall n: nat
        ensures At(x, allowed, st, schedule, n).queue != []
      {
        NeverDrains(cfg, allowed, st, key, schedule, n);
      }
    } else {
      assert At(x, allowed, st, schedule, 0) == st;
      var n := LoopDrains(x, allowed, st, schedule, keys, 0);
    }
  }

  // ---- When exposeHostNameAs names itself ----------------------------------

  /** Delivering any event does not change a service whose target is listed. */
  lemma ListedIsLeftAlone(cfg: Config, allowed: seq<string>, st: Loop, key: Key, i: nat, faults: Faults)
    requires WellKeyed(st.world.services) && key in st.world.services && Handled(st.world.services[key], allowed)
    requires IsListed(cfg, st.world.ingresses, st.world.services[key]) && i < |st.queue|
    ensures var next := Deliver(ByIngress(cfg), allowed, st, i, faults);
            WellKeyed(next.world.services) && Find(next.world.services, key) == Find(st.world.services, key)
  {
    hide Matches, Whitelisted, AddTo, RemoveFrom, IsListed;
    var x, k := ByIngress(cfg), st.queue[i];
    if k == key {
      ListedIsQuiet(cfg, st.world, st.world.services[key], faults);
    } else if k in st.world.services {
      var other := st.world.services[k];
      AddTouchesOneService(x, st.world, other, faults);
      RemoveTouchesOneService(x, st.world, other, faults);
      RewrittenIsRewrite(x, other);
      UnexposedKeepsIdentity(other);
      hide Rewritten, Unexposed;
    }
  }

  lemma ListedIsQuiet(cfg: Config, w: World, svc: Service, faults: Faults)
    requires IsListed(cfg, w.ingresses, svc)
    ensures AddTo(ByIngress(cfg), w, svc, faults) == w
  {
    ListedDoesNotLand(cfg, w.ingresses, svc, faults);
    hide Lands, IsListed;
  }

  /** As long as a service stays listed at its target it keeps its version, in whatever order
      events are delivered, whichever requests fail and whatever the other services do. */
  lemma {:induction false} ListedKeepsItsVersion(
    cfg: Config, allowed: seq<string>, st: Loop, key: Key, schedule: Schedule, n: nat)
    requires WellKeyed(st.world.services) && key in st.world.services && Handled(st.world.services[key], allowed)
    requires forall m: nat | m < n ::
      IsListed(cfg, At(ByIngress(cfg), allowed, st, schedule, m).world.ingresses, st.world.services[key])
    ensures var now := At(ByIngress(cfg), allowed, st, schedule, n).world.services;
            WellKeyed(now) && Find(now, key) == Find(st.world.services, key)
  {
    hide Deliver, WellKeyed, IsListed, Handled;
    if n > 0 {
      ListedKeepsItsVersion(cfg, allowed, st, key, schedule, n - 1);
      var before := At(ByIngress(cfg), allowed, st, schedule, n - 1);
      if before.queue != [] {
        ListedIsLeftAlone(cfg, allowed, before, key, schedule(n - 1).0 % |before.queue|, schedule(n - 1).1);
      }
    }
  }

  /** When exposeHostNameAs names itself, the delivery whose Add lands is the last to rewrite
      the service, however its rewritten version may grow, as long as nobody deletes its
      ingress: the rewrite moves the host, but not yet the target, and that is listed now. */
  lemma SelfNamedIsRewrittenOnce(
    cfg: Config, allowed: seq<string>, st: Loop, i: nat, faults: Faults, schedule: Schedule, n: nat)
    requires WellKeyed(st.world.services) && i < |st.queue| && st.queue[i] in st.world.services
    requires var svc := st.world.services[st.queue[i]];
      Handled(svc, allowed) && HostKey(svc) == ANN_HOST_NAME_AS && Lands(cfg, st.world.ingresses, svc, faults)
    requires var x, svc := ByIngress(cfg), st.world.services[st.queue[i]];
      var one := Deliver(x, allowed, st, i, faults);
      forall m: nat | m < n :: IsListed(cfg, At(x, allowed, one, schedule, m).world.ingresses, svc)
    ensures var x, key := ByIngress(cfg), st.queue[i];
      var one := Deliver(x, allowed, st, i, faults);
      && IsListed(cfg, one.world.ingresses, st.world.services[key])
      && Find(At(x, allowed, one, schedule, n).world.services, key) == Find(one.world.services, key)
  {
    var x, key := ByIngress(cfg), st.queue[i];
    var svc := st.world.services[key];
    var one := Deliver(x, allowed, st, i, faults);
    SelfNamedLanding(cfg, allowed, st, i, faults);
    var next := one.world.services[key];
    forall m: nat | m < n
      ensures IsListed(cfg, At(x, allowed, one, schedule, m).world.ingresses, next)
    {
      SameListing(At(x, allowed, one, schedule, m).world.ingresses, svc, next);
    }
    hide Deliver, IsListed, Handled, WellKeyed, At;
    ListedKeepsItsVersion(cfg, allowed, one, key, schedule, n);
  }

  lemma SelfNamedLanding(cfg: Config, allowed: seq<string>, st: Loop, i: nat, faults: Faults)
    requires WellKeyed(st.world.services) && i < |st.queue| && st.queue[i] in st.world.services
    requires var svc := st.world.services[st.queue[i]];
      Handled(svc, allowed) && HostKey(svc) == ANN_HOST_NAME_AS && Lands(cfg, st.world.ingresses, svc, faults)
    ensures var key := st.queue[i];
      var svc, one := st.world.services[key], Deliver(ByIngress(cfg), allowed, st, i, faults);
      && IsListed(cfg, one.world.ingresses, svc) && WellKeyed(one.world.services) && key in one.world.services
      && var next := one.world.services[key];
         Handled(next, allowed) && Target(cfg, next) == Target(cfg, svc) && next.name == svc.name && next.namespace == svc.namespace
  {
    hide AfterAdd, Exposed, Target, FullHost, Patched, ServicesAfterAdd, Lands, Whitelisted, ListedAt;
    var x, key := ByIngress(cfg), st.queue[i];
    var svc := st.world.services[key];
    SelfNamedKeepsTheRest(cfg, svc);
    AddLists(cfg, st.world.ingresses, svc, faults);
    AddTouchesOneService(x, st.world, svc, faults);
    hide HostKey, Matches;
  }

  lemma SelfNamedKeepsTheRest(cfg: Config, svc: Service)
    requires HostKey(svc) == ANN_HOST_NAME_AS
    ensures var next := Exposed(cfg, svc);
      && (Matches(next) <==> Matches(svc)) && Target(cfg, next) == Target(cfg, svc)
      && next.name == svc.name && next.namespace == svc.namespace
  {
    hide Exposed, Target, FullHost;
    SelfNamedStep(cfg, svc);
    ExposedLookup(cfg, svc, ANN_EXPOSE);
    ExposedLookup(cfg, svc, ANN_INJECT);
    ExposedKeepsIdentity(cfg, svc);
  }
}
