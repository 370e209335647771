/** Whether the ingress of a service is there tracks the version delivered last. */
module Exposure {
  import opened Text
  import opened Objects
  import opened ApiServer
  import opened Ingresses
  import opened IngressRuns
  import opened Handlers

  /** An Add event has no old version, an Update has one. */
  datatype Delivery = Delivery(old': Option<Service>, svc: Service)

  function Handle(cfg: Config, allowed: seq<string>, w: World, d: Delivery): World {
    match d.old'
    case None => OnAdd(ByIngress(cfg), allowed, w, d.svc, NO_FAULTS)
    case Some(old') => OnUpdate(ByIngress(cfg), allowed, w, old', d.svc, NO_FAULTS)
  }

  function HandleAll(cfg: Config, allowed: seq<string>, w: World, ds: seq<Delivery>): World {
    if ds == [] then w
    else Handle(cfg, allowed, HandleAll(cfg, allowed, w, ds[..|ds| - 1]), ds[|ds| - 1])
  }

  /** The version of service `id` delivered last. */
  function Latest(ds: seq<Delivery>, id: Key): Option<Service> {
    if ds == [] then None
    else if ds[|ds| - 1].svc.Id() == id then Some(ds[|ds| - 1].svc)
    else Latest(ds[..|ds| - 1], id)
  }

  /** The informer hands out each version of `id` together with the one before it. */
  ghost predicate InOrder(ds: seq<Delivery>, id: Key) {
    forall i | 0 <= i < |ds| && ds[i].svc.Id() == id :: ds[i].old' == Latest(ds[..i], id)
  }

  /** Every version of `id` aims at `key` and can be added; no other service touches `key`. */
  predicate Unshared(d: Delivery, id: Key, key: Key) {
    if d.svc.Id() == id
    then AddKey(d.svc) == key && RemoveKey(d.svc) == key && WellFormed(d.svc)
    else AddKey(d.svc) != key && RemoveKey(d.svc) != key
  }

  /** The ingress is there iff the version delivered last matches and is whitelisted. */
  predicate Tracks(cfg: Config, allowed: seq<string>, w: World, ds: seq<Delivery>, id: Key, key: Key) {
    key in HandleAll(cfg, allowed, w, ds).ingresses
    <==> Latest(ds, id).Some? && Matches(Latest(ds, id).value) && Whitelisted(id.name, allowed)
  }

  /** A version that matched by its inject annotation only, followed by one that does not match. */
  predicate LosesInjectOnly(d: Delivery, id: Key) {
    d.svc.Id() == id && d.old'.Some? && !Matches(d.svc) && Matches(d.old'.value) && !Declared(d.old'.value)
  }

  /** What a delivery of `id` does to the ingress. */
  lemma OwnDelivery(cfg: Config, allowed: seq<string>, w: World, d: Delivery, id: Key, key: Key)
    requires Unshared(d, id, key) && d.svc.Id() == id
    requires Usable(w.ingresses, key)
    ensures var after := Handle(cfg, allowed, w, d).ingresses;
      && Usable(after, key)
      && (key in after <==>
            if Matches(d.svc) && Whitelisted(id.name, allowed) then true
            else if d.old'.Some? && Declared(d.old'.value) && !Matches(d.svc) && Whitelisted(id.name, allowed) then false
            else key in w.ingresses)
  {
    if Matches(d.svc) && Whitelisted(id.name, allowed) {
      var base := if key in w.ingresses then w.ingresses[key] else NEW_INGRESS;
      AttemptOutcome(cfg, w.ingresses, AddEvent(d.svc, NO_FAULTS), key, Backends(base).value);
      assert Handle(cfg, allowed, w, d).ingresses == Step(cfg, w.ingresses, AddEvent(d.svc, NO_FAULTS));
      hide Handle, Step, PathOf, RuleHost;
      if key !in w.ingresses {
        assert Backends(base).value == [];
      }
    }
  }

  /** Deliveries of other services leave the ingress alone. */
  lemma OtherDelivery(cfg: Config, allowed: seq<string>, w: World, d: Delivery, id: Key, key: Key)
    requires Unshared(d, id, key) && d.svc.Id() != id
    ensures Find(Handle(cfg, allowed, w, d).ingresses, key) == Find(w.ingresses, key)
  {
    hide Planned, Lands;
  }

  lemma {:induction false} StaysUsable(cfg: Config, allowed: seq<string>, w: World, ds: seq<Delivery>, id: Key, key: Key)
    requires key !in w.ingresses && forall d | d in ds :: Unshared(d, id, key)
    ensures Usable(HandleAll(cfg, allowed, w, ds).ingresses, key)
  {
    hide Handle, Unshared;
    if ds != [] {
      var init, d := ds[..|ds| - 1], ds[|ds| - 1];
      assert d in ds;
      StaysUsable(cfg, allowed, w, init, id, key);
      var before := HandleAll(cfg, allowed, w, init);
      if d.svc.Id() == id {
        OwnDelivery(cfg, allowed, before, d, id, key);
      } else {
        OtherDelivery(cfg, allowed, before, d, id, key);
      }
    }
  }

  /** One more delivery keeps tracking, unless it loses an inject-only exposure. */
  lemma TracksOn(cfg: Config, allowed: seq<string>, w: World, ds: seq<Delivery>, id: Key, key: Key)
    requires ds != [] && key !in w.ingresses && forall d | d in ds :: Unshared(d, id, key)
    requires InOrder(ds, id)
    requires Tracks(cfg, allowed, w, ds[..|ds| - 1], id, key)
    ensures Tracks(cfg, allowed, w, ds, id, key)
       <==> !(LosesInjectOnly(ds[|ds| - 1], id) && Whitelisted(id.name, allowed))
  {
    var init, d := ds[..|ds| - 1], ds[|ds| - 1];
    assert d in ds;
    StaysUsable(cfg, allowed, w, init, id, key);
    var before := HandleAll(cfg, allowed, w, init);
    hide Handle, Unshared, Declared, Injected, Whitelisted;
    if d.svc.Id() == id {
      OwnDelivery(cfg, allowed, before, d, id, key);
      assert d.old' == Latest(init, id);
    } else {
      OtherDelivery(cfg, allowed, before, d, id, key);
    }
  }

  /** For a whitelisted service the ingress is there after every delivery iff the version
      delivered last matches, exactly when no inject-only exposure is ever lost: the
      handler's inject test reads the new version, so such a loss removes nothing. */
  lemma {:induction false} ExposureTracksTheLastVersion(
    cfg: Config, allowed: seq<string>, w: World, ds: seq<Delivery>, id: Key, key: Key)
    requires key !in w.ingresses && InOrder(ds, id)
    requires forall d | d in ds :: Unshared(d, id, key)
    ensures (forall n | 0 <= n <= |ds| :: Tracks(cfg, allowed, w, ds[..n], id, key))
       <==> (Whitelisted(id.name, allowed) ==> forall d | d in ds :: !LosesInjectOnly(d, id))
  {
    hide Tracks, LosesInjectOnly, Whitelisted, Unshared;
    if ds == [] {
      NothingDelivered(cfg, allowed, w, id, key);
    } else {
      var init, d := ds[..|ds| - 1], ds[|ds| - 1];
      assert forall n | 0 <= n < |ds| :: init[..n] == ds[..n];
      assert InOrder(init, id);
      ExposureTracksTheLastVersion(cfg, allowed, w, init, id, key);
      assert init[..|init|] == init && ds[..|ds|] == ds;
      assert forall e :: e in ds <==> e in init || e == d;
      if Tracks(cfg, allowed, w, init, id, key) {
        TracksOn(cfg, allowed, w, ds, id, key);
      }
    }
  }

  lemma NothingDelivered(cfg: Config, allowed: seq<string>, w: World, id: Key, key: Key)
    requires key !in w.ingresses
    ensures Tracks(cfg, allowed, w, [], id, key)
  {
  }
}
