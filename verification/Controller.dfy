/** The controller: the informer's handlers, over the store. */
module Controller {
  import opened Text
  import opened Objects
  import opened ApiServer
  import opened Ingresses
  import opened ServiceTypes
  import opened Handlers
  import Injections
  import ServiceMaps
  import OtherMaps

  datatype Strategy =
    | UseIngress(ingress: IngressStrategy)
    | UseNodePort(nodePort: NodePortStrategy)
    | UseLoadBalancer(loadBalancer: LoadBalancerStrategy)
  {
    /** The strategy as the handlers' functions see it. */
    function View(): Exposer {
      match this
      case UseIngress(i) => ByIngress(i.config)
      case UseNodePort(n) => ByNodePort(n.nodeIP, n.portOf)
      case UseLoadBalancer(l) => ByLoadBalancer(l.portOf)
    }

    predicate On(server: ApiServer) {
      match this
      case UseIngress(i) => i.server == server
      case UseNodePort(n) => n.server == server
      case UseLoadBalancer(l) => l.server == server
    }
  }

  /** What goes wrong while one event is handled. */
  datatype Troubles = Troubles(strategy: Faults, own: ServiceMaps.MapFaults, refusedMaps: set<string>)

  /** In which order deployments and config maps were listed, and where their loops stopped. */
  datatype Trace = Trace(deployments: seq<string>, rolled: nat, maps: seq<string>, visited: nat)

  const NOTHING_LISTED := Trace([], 0, [], 0)

  class Controller {
    const server: ApiServer
    const strategy: Strategy
    const allowed: seq<string>
    const settings: ServiceMaps.Settings
    const http: bool
    const noPath: string -> Option<string>

    constructor (
      server: ApiServer, strategy: Strategy, allowed: seq<string>, settings: ServiceMaps.Settings, http: bool,
      noPath: string -> Option<string>)
      requires strategy.On(server)
      ensures Valid()
      ensures this.server == server && this.strategy == strategy && this.allowed == allowed
      ensures this.settings == settings && this.http == http && this.noPath == noPath
    {
      this.server, this.strategy, this.allowed := server, strategy, allowed;
      this.settings, this.http, this.noPath := settings, http, noPath;
    }

    predicate Valid() {
      strategy.On(server)
    }

    function World(): World
      reads server`services, server`ingresses
    {
      Handlers.World(server.services, server.ingresses)
    }

    /** isServiceWhitelisted: an empty list allows every service. */
    method IsServiceWhitelisted(service: string) returns (ok: bool)
      ensures ok <==> Whitelisted(service, allowed)
    {
      if |allowed| == 0 {
        return true;
      }
      for i := 0 to |allowed|
        invariant service !in allowed[..i]
      {
        if allowed[i] == service {
          return true;
        }
      }
      ok := false;
    }

    method StrategyAdd(svc: Service, faults: Faults) returns (status: Status)
      requires Valid()
      modifies server`services, server`ingresses
      ensures World() == AddTo(strategy.View(), old(World()), svc, faults)
      ensures status == Panicked <==> AddPanics(strategy.View(), old(World()), svc, faults)
    {
      hide AfterAdd, ServicesAfterAdd, AsNodePort, AsLoadBalancer, Planned;
      match strategy {
        case UseIngress(i) => status := i.Add(svc, faults);
        case UseNodePort(n) => status := n.Add(svc, faults);
        case UseLoadBalancer(l) => status := l.Add(svc, faults);
      }
    }

    method StrategyRemove(svc: Service, faults: Faults)
      requires Valid()
      modifies server`services, server`ingresses
      ensures World() == RemoveFrom(strategy.View(), old(World()), svc, faults)
    {
      match strategy {
        case UseIngress(i) => var _ := i.Remove(svc, faults);
        case UseNodePort(n) => var _ := RemoveAnnotations(n.server, svc, faults);
        case UseLoadBalancer(l) => var _ := RemoveAnnotations(l.server, svc, faults);
      }
    }

    /** The config maps and deployments around the injections for one service: its own map and
        the deployments that follow it first; then, unless that panicked, once the service
        has a URL, all maps of the namespace that ask for it. */
    ghost predicate Related(
      svc: Service, t: Troubles, maps: map<Key, ConfigMap>, maps': map<Key, ConfigMap>,
      deployments: map<Key, Deployment>, deployments': map<Key, Deployment>, trace: Trace)
    {
      var own, url := ServiceMaps.MapsAfter(settings, svc, t.own, maps), Lookup(svc.annotations, ANN_URL);
      && ServiceMaps.DeploymentsFollow(settings, svc, t.own, maps, deployments, deployments', trace.deployments, trace.rolled)
      && if url == "" || ServiceMaps.Panics(settings, svc, t.own, maps) then maps' == own
         else OtherMaps.Visited(
                OtherMaps.Source(svc.name, http, noPath), own, maps', svc.namespace, url, t.refusedMaps, trace.maps, trace.visited)
    }

    /** The config maps after a pass in which no request fails. The service's own map gets the
        injected data, unless it has none. If the service has a URL, and its own map did not
        make the pass panic, the maps of its namespace then ask for that URL by its name, one
        after the other. */
    lemma MapsAreInjected(
      svc: Service, t: Troubles, maps: map<Key, ConfigMap>, maps': map<Key, ConfigMap>,
      deployments: map<Key, Deployment>, deployments': map<Key, Deployment>, trace: Trace)
      returns (urls: seq<string>)
      requires Related(svc, t, maps, maps', deployments, deployments', trace)
      requires !t.own.lost && !t.own.refused && t.refusedMaps == {}
      ensures var key, url := Key(svc.namespace, svc.name), Lookup(svc.annotations, "fabric8.io/exposeUrl");
        var own := if key !in maps || maps[key].data == map[] then maps
                   else maps[key := maps[key].(data := ServiceMaps.Injected(settings, svc, maps[key]))];
        var panics := key in maps && maps[key].data == map[] && ServiceMaps.Injected(settings, svc, maps[key]) != map[];
        if url == "" || panics then maps' == own
        else
          && OtherMaps.AllVisited(OtherMaps.Source(svc.name, http, noPath), own, maps', svc.namespace, trace.maps, urls)
          && urls[0] == url
    {
      hide ServiceMaps.MapsAfter, ServiceMaps.Panics, ServiceMaps.DeploymentsFollow, ServiceMaps.Injected;
      hide OtherMaps.Visited, OtherMaps.AllVisited;
      Injections.OwnMapIsStored(settings, svc, t.own, maps);
      Injections.PanicsIffAnEntryIsAdded(settings, svc, t.own, maps);
      urls := [];
      var own, url := ServiceMaps.MapsAfter(settings, svc, t.own, maps), Lookup(svc.annotations, ANN_URL);
      if url != "" && !ServiceMaps.Panics(settings, svc, t.own, maps) {
        urls := OtherMaps.UnrefusedLoop(
          OtherMaps.Source(svc.name, http, noPath), own, maps', svc.namespace, url, trace.maps, trace.visited);
      }
    }

    /** updateRelatedResources. */
    method UpdateRelatedResources(svc: Service, t: Troubles) returns (ghost trace: Trace)
      modifies server`configMaps, server`deployments
      ensures Related(
        svc, t, old(server.configMaps), server.configMaps, old(server.deployments), server.deployments, trace)
    {
      hide ServiceMaps.MapsAfter, ServiceMaps.Panics, ServiceMaps.DeploymentsFollow, OtherMaps.Visited;
      var panicked;
      ghost var deployments, rolled;
      panicked, deployments, rolled := ServiceMaps.UpdateServiceConfigMap(server, settings, svc, t.own);
      trace := Trace(deployments, rolled, [], 0);
      if panicked {
        return;
      }
      var exposeUrl := Lookup(svc.annotations, ANN_URL);
      if |exposeUrl| > 0 {
        var failed;
        ghost var maps, visited;
        failed, maps, visited := OtherMaps.UpdateOtherConfigMaps(
          server, OtherMaps.Source(svc.name, http, noPath), svc.namespace, exposeUrl, t.refusedMaps);
        trace := Trace(deployments, rolled, maps, visited);
      }
    }

    /** Whether an Add or Update event gets as far as updateRelatedResources. */
    predicate Reaches(w: Handlers.World, svc: Service, t: Troubles) {
      Handled(svc, allowed) && !AddPanics(strategy.View(), w, svc, t.strategy)
    }

    /** The config maps and deployments around an event: what updateRelatedResources makes of
        them if the event gets that far, the old ones if not. */
    ghost predicate Followed(
      reached: bool, svc: Service, t: Troubles, maps: map<Key, ConfigMap>, maps': map<Key, ConfigMap>,
      deployments: map<Key, Deployment>, deployments': map<Key, Deployment>, trace: Trace)
    {
      if reached then Related(svc, t, maps, maps', deployments, deployments', trace)
      else maps' == maps && deployments' == deployments
    }

    method AddFunc(svc: Service, t: Troubles) returns (ghost trace: Trace)
      requires Valid()
      modifies server`services, server`ingresses, server`configMaps, server`deployments
      ensures World() == OnAdd(strategy.View(), allowed, old(World()), svc, t.strategy)
      ensures Followed(
        Reaches(old(World()), svc, t), svc, t, old(server.configMaps), server.configMaps,
        old(server.deployments), server.deployments, trace)
    {
      hide AddTo, RemoveFrom, AddPanics, Related;
      trace := NOTHING_LISTED;
      if Matches(svc) {
        var ok := IsServiceWhitelisted(svc.name);
        if !ok {
          return;
        }
        var status := StrategyAdd(svc, t.strategy);
        if status == Panicked {
          return;
        }
        trace := UpdateRelatedResources(svc, t);
      }
    }

    method UpdateFunc(oldSvc: Service, svc: Service, t: Troubles) returns (ghost trace: Trace)
      requires Valid()
      modifies server`services, server`ingresses, server`configMaps, server`deployments
      ensures World() == OnUpdate(strategy.View(), allowed, old(World()), oldSvc, svc, t.strategy)
      ensures Followed(
        Reaches(old(World()), svc, t), svc, t, old(server.configMaps), server.configMaps,
        old(server.deployments), server.deployments, trace)
    {
      hide AddTo, RemoveFrom, AddPanics, Related;
      trace := NOTHING_LISTED;
      if Matches(svc) {
        var ok := IsServiceWhitelisted(svc.name);
        if !ok {
          return;
        }
        var status := StrategyAdd(svc, t.strategy);
        if status == Panicked {
          return;
        }
        trace := UpdateRelatedResources(svc, t);
      } else if Declared(oldSvc) || Injected(svc) {
        var ok := IsServiceWhitelisted(svc.name);
        if !ok {
          return;
        }
        StrategyRemove(svc, t.strategy);
      }
    }

    /** Only a tombstone, which knows no more than the key, leads to a removal. */
    method DeleteFunc(tombstone: Option<Key>, t: Troubles)
      requires Valid()
      modifies server`services, server`ingresses
      ensures World() == OnDelete(strategy.View(), allowed, old(World()), tombstone, t.strategy)
    {
      hide RemoveFrom;
      if tombstone.Some? {
        var ok := IsServiceWhitelisted(tombstone.value.name);
        if !ok {
          return;
        }
        StrategyRemove(Tombstone(tombstone.value), t.strategy);
      }
    }
  }
}
