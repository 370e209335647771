/** What the informer's three handlers do to services and ingresses, as functions. */
module Handlers {
  import opened Text
  import opened Objects
  import opened ApiServer
  import opened Annotations
  import opened Ingresses
  import opened ServiceTypes

  /** The configured strategy. `portOf` is `net.SplitHostPort`. */
  datatype Exposer =
    | ByIngress(cfg: Config)
    | ByNodePort(nodeIP: string, portOf: string -> Option<string>)
    | ByLoadBalancer(portOf: string -> Option<string>)

  datatype World = World(services: map<Key, Service>, ingresses: map<Key, Ingress>)

  function AddTo(x: Exposer, w: World, svc: Service, faults: Faults): World {
    match x
    case ByIngress(cfg) =>
      World(ServicesAfterAdd(cfg, w.ingresses, w.services, svc, faults), AfterAdd(cfg, w.ingresses, svc, faults))
    case ByNodePort(nodeIP, portOf) =>
      (match AsNodePort(nodeIP, portOf, svc)
       case None => w
       case Some(clone) => w.(services := Patched(w.services, svc, clone, faults.patch)))
    case ByLoadBalancer(portOf) =>
      w.(services := Patched(w.services, svc, AsLoadBalancer(portOf, svc), faults.patch))
  }

  /** Whether that Add ends in a panic, before it writes anything. */
  predicate AddPanics(x: Exposer, w: World, svc: Service, faults: Faults) {
    x.ByIngress? && !faults.get && Planned(x.cfg, svc, Find(w.ingresses, AddKey(svc))).Crash?
  }

  function RemoveFrom(x: Exposer, w: World, svc: Service, faults: Faults): World {
    if x.ByIngress?
    then World(ServicesAfterRemove(w.services, svc, faults), AfterRemove(w.ingresses, svc, faults))
    else w.(services := Patched(w.services, svc, Unexposed(svc), faults.patch))
  }

  // ---- Which services are handled ------------------------------------------

  /** Exposed by label or by the expose annotation. */
  predicate Declared(svc: Service) {
    Lookup(svc.labels, EXPOSE) == "true" || Lookup(svc.annotations, ANN_EXPOSE) == "true"
  }

  predicate Injected(svc: Service) {
    Lookup(svc.annotations, ANN_INJECT) == "true"
  }

  predicate Matches(svc: Service) {
    Declared(svc) || Injected(svc)
  }

  predicate Whitelisted(name: string, allowed: seq<string>) {
    allowed == [] || name in allowed
  }

  /** A version on which the handlers run the strategy's Add. */
  predicate Handled(svc: Service, allowed: seq<string>) {
    Matches(svc) && Whitelisted(svc.name, allowed)
  }

  // ---- The handlers --------------------------------------------------------

  function OnAdd(x: Exposer, allowed: seq<string>, w: World, svc: Service, faults: Faults): World {
    if Handled(svc, allowed) then AddTo(x, w, svc, faults) else w
  }

  /** When the new version does not match, it is the old version's label or expose
      annotation that decides; the inject test reads the new version again. */
  function OnUpdate(x: Exposer, allowed: seq<string>, w: World, old': Service, svc: Service, faults: Faults): World {
    if Matches(svc) then
      if Whitelisted(svc.name, allowed) then AddTo(x, w, svc, faults) else w
    else if (Declared(old') || Injected(svc)) && Whitelisted(svc.name, allowed) then RemoveFrom(x, w, svc, faults)
    else w
  }

  /** The service that DeleteFunc rebuilds from the key of a tombstone. */
  function Tombstone(key: Key): Service {
    Service(key.namespace, key.name, "", map[], map[], "", [], "", "", [])
  }

  /** Deletions seen as they happen do nothing; a tombstone removes. */
  function OnDelete(x: Exposer, allowed: seq<string>, w: World, tombstone: Option<Key>, faults: Faults): World {
    match tombstone
    case None => w
    case Some(key) =>
      if Whitelisted(key.name, allowed) then RemoveFrom(x, w, Tombstone(key), faults) else w
  }

  /** A tombstone takes the ingress of a service away exactly when that is named like the
      service itself: the rebuilt service has no release label and no name annotation.
      It changes no service. */
  lemma TombstoneFindsTheIngressIffServiceName(cfg: Config, allowed: seq<string>, w: World, svc: Service, faults: Faults)
    requires Lands(cfg, w.ingresses, svc, faults) && Whitelisted(svc.name, allowed)
    ensures var added := AddTo(ByIngress(cfg), w, svc, faults);
      var after := OnDelete(ByIngress(cfg), allowed, added, Some(svc.Id()), NO_FAULTS);
      && (AddKey(svc) !in after.ingresses <==> AppName(svc) == svc.name)
      && after.services == added.services
  {
    hide Planned, AppName, Patched, Exposed;
    var bare := Tombstone(svc.Id());
    NamedLikeItself(bare);
    assert bare.annotations == map[] && Stripped(bare.annotations) == map[];
    assert Unexposed(bare) == bare;
    NoPatch(AddTo(ByIngress(cfg), w, svc, faults).services, bare);
  }

  lemma NamedLikeItself(svc: Service)
    requires svc.labels == map[]
    ensures DefaultName(svc) == svc.name
  {
  }

  lemma NoPatch(services: map<Key, Service>, svc: Service)
    ensures Patched(services, svc, svc, false) == services
  {
  }
}
