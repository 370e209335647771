/** The OpenShift route strategy: create a missing route, recreate one whose host or path
    is wrong, and update its own. */
module Routes {
  import opened Text
  import opened Objects
  import opened ApiServer
  import opened Annotations
  import opened ServiceTypes

  /** The fields of RouteStrategy; `portOf` is `net.SplitHostPort`, `defaultHost` the host
      that the server gives to a route created without one. */
  datatype RouteConfig = RouteConfig(
    host: string, usePath: bool, http: bool, portOf: string -> Option<string>, defaultHost: Key -> string)

  /** Which requests of one Add fail. */
  datatype RouteFaults = RouteFaults(get: bool, delete: bool, create: bool, update: bool, patch: bool)

  const NO_ROUTE_FAULTS := RouteFaults(false, false, false, false, false)

  const EDGE := RouteTls("edge", "Redirect")

  /** What the server stores for a route it is asked to create. */
  function Admitted(cfg: RouteConfig, key: Key, r: Route): Route {
    if r.host == "" then r.(host := cfg.defaultHost(key)) else r
  }

  function RoutePath(cfg: RouteConfig, name: string): string {
    if cfg.usePath then "/" + name else ""
  }

  function NewRoute(cfg: RouteConfig, name: string): Route {
    Route(map["provider" := "fabric8", "generator" := GENERATOR], name, cfg.host, RoutePath(cfg, name),
          if cfg.http then None else Some(EDGE))
  }

  /** The old route with the configured host and path, marked as generated. */
  function Reshaped(cfg: RouteConfig, name: string, r: Route): Route {
    Route(r.labels["generator" := GENERATOR], r.target, cfg.host, RoutePath(cfg, name),
          if cfg.http then r.tls else Some(EDGE))
  }

  predicate NeedsRecreation(cfg: RouteConfig, name: string, r: Route) {
    cfg.usePath && (r.path != RoutePath(cfg, name) || r.host != cfg.host)
  }

  /** The routes after one Add. A failed creation after a deletion leaves no route at all. */
  function RoutesAfterAdd(cfg: RouteConfig, routes: map<Key, Route>, key: Key, f: RouteFaults): map<Key, Route> {
    if f.get then routes
    else if key !in routes then
      if f.create then routes else routes[key := Admitted(cfg, key, NewRoute(cfg, key.name))]
    else if NeedsRecreation(cfg, key.name, routes[key]) then
      if f.delete then routes
      else if f.create then Without(routes, key)
      else routes[key := Admitted(cfg, key, Reshaped(cfg, key.name, routes[key]))]
    else routes
  }

  /** Whether the Add gets as far as exposing the service, and then the route is in the store. */
  predicate Exposes(cfg: RouteConfig, routes: map<Key, Route>, key: Key, f: RouteFaults) {
    !f.get
    && if key !in routes then !f.create
       else if NeedsRecreation(cfg, key.name, routes[key]) then !f.delete && !f.create
       else Lookup(routes[key].labels, "generator") == GENERATOR ==> !f.update
  }

  function RouteHostName(r: Route): string {
    r.host + r.path
  }

  function RouteProtocol(cfg: RouteConfig, svc: Service, r: Route): string {
    if r.tls.Some? then "https" else Protocol(svc.ports, cfg.portOf(RouteHostName(r)))
  }

  function ExposedBy(cfg: RouteConfig, svc: Service, r: Route): Service {
    svc.(annotations := Annotated(svc.annotations, RouteHostName(r), RouteProtocol(cfg, svc, r)))
  }

  function ServicesAfter(cfg: RouteConfig, routes: map<Key, Route>, services: map<Key, Service>, svc: Service, f: RouteFaults)
    : map<Key, Service>
  {
    var after := RoutesAfterAdd(cfg, routes, svc.Id(), f);
    if Exposes(cfg, routes, svc.Id(), f) && RouteHostName(after[svc.Id()]) != ""
    then Patched(services, svc, ExposedBy(cfg, svc, after[svc.Id()]), f.patch)
    else services
  }

  class RouteStrategy {
    const server: ApiServer
    const config: RouteConfig

    constructor (server: ApiServer, config: RouteConfig)
      ensures this.server == server && this.config == config
    {
      this.server, this.config := server, config;
    }

    method CreateRoute(key: Key, route: Route, fault: bool) returns (stored: Option<Route>)
      modifies server`routes
      ensures stored == if fault then None else Some(Admitted(config, key, route))
      ensures server.routes == if fault then old(server.routes) else old(server.routes)[key := Admitted(config, key, route)]
    {
      if fault {
        return None;
      }
      server.routes := server.routes[key := Admitted(config, key, route)];
      stored := Some(Admitted(config, key, route));
    }

    method HostNameAndProtocolFromRoute(svc: Service, route: Route) returns (hostName: string, protocol: string)
      ensures hostName == route.host + route.path && protocol in {"http", "https"}
      ensures protocol == "https" <==>
        route.tls.Some? || IsTlsPort(config.portOf(hostName)) || exists port | port in svc.ports :: port.name == "https"
      ensures hostName == RouteHostName(route) && protocol == RouteProtocol(config, svc, route)
    {
      hostName := route.host + route.path;
      if route.tls.Some? {
        protocol := "https";
      } else {
        protocol := FindHttpProtocol(svc, config.portOf(hostName));
      }
    }

    /** A service whose route has no host name is left without annotation, and Add still
        reports success. */
    method Add(svc: Service, f: RouteFaults) returns (status: Status)
      modifies server`routes, server`services
      ensures server.routes == RoutesAfterAdd(config, old(server.routes), svc.Id(), f)
      ensures Exposes(config, old(server.routes), svc.Id(), f) ==> svc.Id() in server.routes
      ensures server.services == ServicesAfter(config, old(server.routes), old(server.services), svc, f)
      ensures status == Done <==>
        && Exposes(config, old(server.routes), svc.Id(), f)
        && (RouteHostName(server.routes[svc.Id()]) == ""
            || PatchOk(old(server.services), svc, ExposedBy(config, svc, server.routes[svc.Id()]), f.patch))
    {
      var route := PlaceRoute(svc, f);
      if route.None? {
        return Failed;
      }
      var hostName, protocol := HostNameAndProtocolFromRoute(svc, route.value);
      if |hostName| == 0 {
        return Done;
      }
      var clone := AddServiceAnnotationWithProtocol(svc, hostName, protocol);
      var ok := server.PatchService(svc, clone, f.patch);
      status := if ok then Done else Failed;
    }

    /** The choice between creating, recreating, updating and leaving the route; `None` when a request failed. */
    method PlaceRoute(svc: Service, f: RouteFaults) returns (placed: Option<Route>)
      modifies server`routes
      ensures server.routes == RoutesAfterAdd(config, old(server.routes), svc.Id(), f)
      ensures placed.Some? <==> Exposes(config, old(server.routes), svc.Id(), f)
      ensures placed.Some? ==> svc.Id() in server.routes && placed.value == server.routes[svc.Id()]
    {
      var key := svc.Id();
      if f.get {
        return None;
      }
      var path := "";
      if config.usePath {
        path := "/" + svc.name;
      }
      if key !in server.routes {
        var route := Route(map["provider" := "fabric8"], svc.name, config.host, path, None);
        if !config.http {
          route := route.(tls := Some(EDGE));
        }
        route := route.(labels := route.labels["generator" := GENERATOR]);
        assert route == NewRoute(config, svc.name);
        placed := CreateRoute(key, route, f.create);
        return;
      }
      var route := server.routes[key];
      var generator := Lookup(route.labels, "generator");
      if config.usePath && (route.path != path || route.host != config.host) {
        if f.delete {
          return None;
        }
        server.routes := server.routes - {key};
        route := route.(host := config.host, path := path);
        if !config.http {
          route := route.(tls := Some(EDGE));
        }
        route := route.(labels := route.labels["generator" := GENERATOR]);
        assert route == Reshaped(config, svc.name, old(server.routes)[key]);
        hide Reshaped;
        placed := CreateRoute(key, route, f.create);
        assert placed.Some? ==> server.routes == old(server.routes)[key := placed.value];
      } else if generator == GENERATOR {
        if f.update {
          return None;
        }
        server.routes := server.routes[key := route];
        assert server.routes == old(server.routes);
        placed := Some(route);
      } else {
        placed := Some(route);
      }
    }

    method Remove(svc: Service, faults: Faults) returns (status: Status)
      modifies server`routes, server`services
      ensures server.routes == if faults.write then old(server.routes) else Without(old(server.routes), svc.Id())
      ensures server.services == if faults.write then old(server.services)
        else Patched(old(server.services), svc, svc.(annotations := Stripped(svc.annotations)), faults.patch)
    {
      if faults.write {
        return Failed;
      }
      server.routes := server.routes - {svc.Id()};
      status := RemoveAnnotations(server, svc, faults);
    }
  }

  // ---- Runs ----------------------------------------------------------------

  datatype RouteEvent = RouteEvent(key: Key, faults: RouteFaults)

  function RunAdds(cfg: RouteConfig, routes: map<Key, Route>, events: seq<RouteEvent>): map<Key, Route> {
    if events == [] then routes
    else
      var e := events[|events| - 1];
      RoutesAfterAdd(cfg, RunAdds(cfg, routes, events[..|events| - 1]), e.key, e.faults)
  }

  /** The route is where the configuration wants it. */
  predicate InPlace(cfg: RouteConfig, routes: map<Key, Route>, key: Key) {
    key in routes && routes[key].host == cfg.host && routes[key].path == "/" + key.name
  }

  /** Once in place it stays, whichever Adds follow and whichever of their requests fail:
      no later Add deletes or changes the route. */
  lemma {:induction false} InPlaceForEver(cfg: RouteConfig, routes: map<Key, Route>, events: seq<RouteEvent>, key: Key)
    requires cfg.usePath && InPlace(cfg, routes, key)
    ensures var after := RunAdds(cfg, routes, events);
            key in after && after[key] == routes[key]
  {
    if events != [] {
      InPlaceForEver(cfg, routes, events[..|events| - 1], key);
    }
  }

  /** An Add of the service whose requests are enough to put a misplaced route into place. */
  predicate Places(routes: map<Key, Route>, e: RouteEvent, key: Key) {
    e.key == key && !e.faults.get && !e.faults.create && (key in routes ==> !e.faults.delete)
  }

  predicate OneGotThrough(cfg: RouteConfig, routes: map<Key, Route>, events: seq<RouteEvent>, key: Key) {
    exists i | 0 <= i < |events| :: Places(RunAdds(cfg, routes, events[..i]), events[i], key)
  }

  lemma OneGotThroughLater(cfg: RouteConfig, routes: map<Key, Route>, events: seq<RouteEvent>, key: Key)
    requires events != []
    ensures var init, e := events[..|events| - 1], events[|events| - 1];
      OneGotThrough(cfg, routes, events, key)
      <==> OneGotThrough(cfg, routes, init, key) || Places(RunAdds(cfg, routes, init), e, key)
  {
    hide RunAdds, Places;
    var init := events[..|events| - 1];
    assert events[..|init|] == init;
    assert forall i | 0 <= i < |init| :: init[..i] == events[..i] && init[i] == events[i];
    if i :| 0 <= i < |events| && Places(RunAdds(cfg, routes, events[..i]), events[i], key) {
      assert i < |init| ==> Places(RunAdds(cfg, routes, init[..i]), init[i], key);
    }
  }

  /** With usePath and a configured host, after any run of Adds the route is in place
      exactly when it was at the start or one of its Adds got through. */
  lemma {:induction false} InPlaceIffOneAddGotThrough(
    cfg: RouteConfig, routes: map<Key, Route>, events: seq<RouteEvent>, key: Key)
    requires cfg.usePath && cfg.host != ""
    ensures InPlace(cfg, RunAdds(cfg, routes, events), key) <==> InPlace(cfg, routes, key) || OneGotThrough(cfg, routes, events, key)
  {
    if events != [] {
      var init, e := events[..|events| - 1], events[|events| - 1];
      InPlaceIffOneAddGotThrough(cfg, routes, init, key);
      OneGotThroughLater(cfg, routes, events, key);
      OneMoreAdd(cfg, RunAdds(cfg, routes, init), e, key);
      hide OneGotThrough, Places, InPlace, RoutesAfterAdd;
    }
  }

  lemma OneMoreAdd(cfg: RouteConfig, routes: map<Key, Route>, e: RouteEvent, key: Key)
    requires cfg.usePath && cfg.host != ""
    ensures InPlace(cfg, RoutesAfterAdd(cfg, routes, e.key, e.faults), key) <==> InPlace(cfg, routes, key) || Places(routes, e, key)
  {
  }

  /** Whether an Add of the service deletes its route. */
  predicate Deletes(cfg: RouteConfig, routes: map<Key, Route>, key: Key) {
    key in routes && NeedsRecreation(cfg, key.name, routes[key])
  }

  /** An Add that deletes the route and then fails to create it again. */
  predicate Loses(cfg: RouteConfig, routes: map<Key, Route>, e: RouteEvent, key: Key) {
    e.key == key && Deletes(cfg, routes, key) && !e.faults.get && !e.faults.delete && e.faults.create
  }

  /** Target and labels are those of the other route, up to the generator label. */
  ghost predicate Alike(a: Route, b: Route) {
    a.target == b.target && forall name | name != "generator" :: Lookup(a.labels, name) == Lookup(b.labels, name)
  }

  predicate NeverLost(cfg: RouteConfig, routes: map<Key, Route>, events: seq<RouteEvent>, key: Key) {
    forall i | 0 <= i < |events| :: !Loses(cfg, RunAdds(cfg, routes, events[..i]), events[i], key)
  }

  predicate AlwaysThere(cfg: RouteConfig, routes: map<Key, Route>, events: seq<RouteEvent>, key: Key) {
    forall n | 0 <= n <= |events| :: key in RunAdds(cfg, routes, events[..n])
  }

  lemma OneMoreEvent(cfg: RouteConfig, routes: map<Key, Route>, events: seq<RouteEvent>, key: Key)
    requires events != []
    ensures var init, e := events[..|events| - 1], events[|events| - 1];
      && (NeverLost(cfg, routes, events, key)
          <==> NeverLost(cfg, routes, init, key) && !Loses(cfg, RunAdds(cfg, routes, init), e, key))
      && (AlwaysThere(cfg, routes, events, key)
          <==> AlwaysThere(cfg, routes, init, key) && key in RunAdds(cfg, routes, events))
  {
    hide RunAdds, Loses;
    var init := events[..|events| - 1];
    assert events[..|events|] == events && events[..|init|] == init;
    assert forall i | 0 <= i <= |init| :: init[..i] == events[..i];
    assert forall i | 0 <= i < |init| :: init[i] == events[i];
  }

  /** In any run of Adds a route that was there, whoever made it, stays there throughout
      exactly when no Add loses it; and then it has kept its target and its labels, however
      often it was recreated. */
  lemma {:induction false} RouteIsKeptIffNeverLost(
    cfg: RouteConfig, routes: map<Key, Route>, events: seq<RouteEvent>, key: Key)
    requires key in routes
    ensures NeverLost(cfg, routes, events, key) <==> AlwaysThere(cfg, routes, events, key)
    ensures NeverLost(cfg, routes, events, key)
       ==> key in RunAdds(cfg, routes, events) && Alike(RunAdds(cfg, routes, events)[key], routes[key])
  {
    if events == [] {
      assert events[..0] == [];
    } else {
      var init, e := events[..|events| - 1], events[|events| - 1];
      RouteIsKeptIffNeverLost(cfg, routes, init, key);
      OneMoreEvent(cfg, routes, events, key);
      StepKeeps(cfg, RunAdds(cfg, routes, init), e, key);
      hide NeverLost, AlwaysThere, Loses, RoutesAfterAdd;
    }
  }

  lemma StepKeeps(cfg: RouteConfig, routes: map<Key, Route>, e: RouteEvent, key: Key)
    ensures var after := RoutesAfterAdd(cfg, routes, e.key, e.faults);
      && (key in routes && !Loses(cfg, routes, e, key) ==> key in after && Alike(after[key], routes[key]))
      && (Loses(cfg, routes, e, key) ==> key !in after)
  {
  }

  /** With usePath, a route that one Add created or recreated is deleted again by the next
      one exactly when no host is configured and the server fills one in. */
  lemma RecreationRepeatsIffHostIsDefaulted(cfg: RouteConfig, routes: map<Key, Route>, key: Key)
    requires cfg.usePath
    requires key !in routes || Deletes(cfg, routes, key)
    ensures Deletes(cfg, RoutesAfterAdd(cfg, routes, key, NO_ROUTE_FAULTS), key)
       <==> cfg.host == "" && cfg.defaultHost(key) != ""
  {
  }

  /** In that case every Add of the service deletes and recreates the route, for ever. */
  lemma {:induction false} RecreationNeverEnds(cfg: RouteConfig, routes: map<Key, Route>, events: seq<RouteEvent>, key: Key)
    requires cfg.usePath && cfg.host == "" && cfg.defaultHost(key) != ""
    requires Deletes(cfg, routes, key)
    requires forall e | e in events :: e.faults == NO_ROUTE_FAULTS
    ensures Deletes(cfg, RunAdds(cfg, routes, events), key)
  {
    hide NeedsRecreation;
    if events != [] {
      var e := events[|events| - 1];
      var before := RunAdds(cfg, routes, events[..|events| - 1]);
      RecreationNeverEnds(cfg, routes, events[..|events| - 1], key);
      if e.key == key {
        RecreationRepeatsIffHostIsDefaulted(cfg, before, key);
      }
    }
  }

  /** Without usePath no run of Adds changes any route that was there, whoever made it. */
  lemma {:induction false} WithoutPathRoutesStay(cfg: RouteConfig, routes: map<Key, Route>, events: seq<RouteEvent>)
    requires !cfg.usePath
    ensures var after := RunAdds(cfg, routes, events);
            forall key | key in routes :: key in after && after[key] == routes[key]
  {
    if events != [] {
      WithoutPathRoutesStay(cfg, routes, events[..|events| - 1]);
    }
  }

  // ---- Repeated Adds of one service ----------------------------------------

  /** The stored service after an Add, when no request fails and the routes are these. */
  function Announced(cfg: RouteConfig, routes: map<Key, Route>, svc: Service): Service {
    if svc.Id() in routes && RouteHostName(routes[svc.Id()]) != "" then ExposedBy(cfg, svc, routes[svc.Id()]) else svc
  }

  /** Routes and service after `n` Adds of the service as it is then, without failing requests. */
  function Repeated(cfg: RouteConfig, routes: map<Key, Route>, svc: Service, n: nat): (map<Key, Route>, Service) {
    if n == 0 then (routes, svc)
    else
      var (r, s) := Repeated(cfg, routes, svc, n - 1);
      var r' := RoutesAfterAdd(cfg, r, s.Id(), NO_ROUTE_FAULTS);
      (r', Announced(cfg, r', s))
  }

  /** An Add that follows an Add leaves the routes as they are: if it recreates the route,
      as it does for ever when the host is defaulted, it recreates the same one. */
  lemma SecondAddKeepsTheRoutes(cfg: RouteConfig, routes: map<Key, Route>, key: Key)
    ensures var once := RoutesAfterAdd(cfg, routes, key, NO_ROUTE_FAULTS);
            key in once && RoutesAfterAdd(cfg, once, key, NO_ROUTE_FAULTS) == once
  {
    var once := RoutesAfterAdd(cfg, routes, key, NO_ROUTE_FAULTS);
    assert once[key].labels["generator" := GENERATOR] == once[key].labels || !NeedsRecreation(cfg, key.name, once[key]);
  }

  lemma {:induction false} RepeatedForm(cfg: RouteConfig, routes: map<Key, Route>, svc: Service, n: nat)
    requires n >= 1
    ensures var once, (r, s) := RoutesAfterAdd(cfg, routes, svc.Id(), NO_ROUTE_FAULTS), Repeated(cfg, routes, svc, n);
      && r == once && svc.Id() in once
      && var host := RouteHostName(once[svc.Id()]);
         s == if host == "" then svc
              else svc.(annotations := Reannotated(svc.annotations, host, RouteProtocol(cfg, svc, once[svc.Id()]), n))
  {
    hide RoutesAfterAdd, Annotated, RouteHostName, Protocol;
    SecondAddKeepsTheRoutes(cfg, routes, svc.Id());
    if n == 1 {
      assert Repeated(cfg, routes, svc, 0) == (routes, svc);
      var route := RoutesAfterAdd(cfg, routes, svc.Id(), NO_ROUTE_FAULTS)[svc.Id()];
      Unrolled(svc.annotations, RouteHostName(route), RouteProtocol(cfg, svc, route));
    } else {
      RepeatedForm(cfg, routes, svc, n - 1);
    }
  }

  /** However often the service is added, its fourth Add and every later one leave both the
      service and the routes as they were: the loop of this strategy dries up as well. */
  lemma RepeatedAddsSettle(cfg: RouteConfig, routes: map<Key, Route>, svc: Service, n: nat)
    requires n >= 3
    ensures Repeated(cfg, routes, svc, n) == Repeated(cfg, routes, svc, 3)
  {
    RepeatedForm(cfg, routes, svc, n);
    RepeatedForm(cfg, routes, svc, 3);
    hide Repeated, RoutesAfterAdd, Reannotated, RouteHostName, RouteProtocol;
    var route := RoutesAfterAdd(cfg, routes, svc.Id(), NO_ROUTE_FAULTS)[svc.Id()];
    AnnotationSettles(svc.annotations, RouteHostName(route), RouteProtocol(cfg, svc, route), n);
  }

  // ---- What an Add leaves, read off the stored objects ---------------------

  /** A service without a route gets one: to itself, under its name as the path if paths are
      wanted, with the configured host or else the one that the server picks, and with edge
      termination and a redirect unless plain HTTP is configured. */
  lemma CreatedRoute(cfg: RouteConfig, routes: map<Key, Route>, key: Key, f: RouteFaults)
    requires key !in routes && !f.get && !f.create
    ensures var after := RoutesAfterAdd(cfg, routes, key, f);
      && key in after && after == routes[key := after[key]]
      && after[key].target == key.name
      && after[key].path == (if cfg.usePath then "/" + key.name else "")
      && after[key].host == (if cfg.host != "" then cfg.host else cfg.defaultHost(key))
      && after[key].tls == (if cfg.http then None else Some(RouteTls("edge", "Redirect")))
      && forall name :: Lookup(after[key].labels, name)
           == if name == "provider" then "fabric8" else if name == "generator" then "exposecontroller" else ""
  {
  }

  /** Whether a route of that name is in the way of the configuration. */
  predicate Misplaced(cfg: RouteConfig, key: Key, r: Route) {
    cfg.usePath && (r.path != "/" + key.name || r.host != cfg.host)
  }

  /** A misplaced route is replaced: it keeps its target, its other labels and, with plain
      HTTP, its TLS settings; otherwise it gets edge termination and a redirect. */
  lemma RecreatedRoute(cfg: RouteConfig, routes: map<Key, Route>, key: Key, f: RouteFaults)
    requires key in routes && Misplaced(cfg, key, routes[key]) && !f.get && !f.delete && !f.create
    ensures var was, after := routes[key], RoutesAfterAdd(cfg, routes, key, f);
      && key in after && after == routes[key := after[key]]
      && after[key].target == was.target
      && after[key].path == "/" + key.name
      && after[key].host == (if cfg.host != "" then cfg.host else cfg.defaultHost(key))
      && after[key].tls == (if cfg.http then was.tls else Some(RouteTls("edge", "Redirect")))
      && forall name :: Lookup(after[key].labels, name)
           == if name == "generator" then "exposecontroller" else Lookup(was.labels, name)
  {
  }

  /** Whether the requests that this Add has to make go through. */
  predicate GoesThrough(cfg: RouteConfig, routes: map<Key, Route>, key: Key, f: RouteFaults) {
    !f.get
    && if key !in routes then !f.create
       else if Misplaced(cfg, key, routes[key]) then !f.delete && !f.create
       else Lookup(routes[key].labels, "generator") == "exposecontroller" ==> !f.update
  }

  /** Every other Add leaves all routes as they are, except that a misplaced one whose
      replacement is refused is gone. */
  lemma OtherAddsChangeNothing(cfg: RouteConfig, routes: map<Key, Route>, key: Key, f: RouteFaults)
    requires GoesThrough(cfg, routes, key, f) ==> key in routes && !Misplaced(cfg, key, routes[key])
    ensures RoutesAfterAdd(cfg, routes, key, f)
         == if key in routes && Misplaced(cfg, key, routes[key]) && !f.get && !f.delete then routes - {key} else routes
  {
  }

  /** A service whose Add gets through is told the host and the path of its route as it is
      stored then, with https exactly when that has TLS, or names a TLS port, or the service has
      a port named https. A route without either tells it nothing, and nothing else changes. */
  lemma ServiceIsToldTheRoute(
    cfg: RouteConfig, routes: map<Key, Route>, services: map<Key, Service>, svc: Service, f: RouteFaults)
    requires svc.Id() in services && services[svc.Id()] == svc && !f.patch
    ensures var key := svc.Id();
      var after, services' := RoutesAfterAdd(cfg, routes, key, f), ServicesAfter(cfg, routes, services, svc, f);
      && (GoesThrough(cfg, routes, key, f) ==> key in after)
      && if !GoesThrough(cfg, routes, key, f) || after[key].host + after[key].path == "" then services' == services
         else
           var address := after[key].host + after[key].path;
           && key in services' && services' == services[key := svc.(annotations := services'[key].annotations)]
           && Tells(
                svc.annotations, services'[key].annotations,
                if after[key].tls.Some? || cfg.portOf(address) in {Some("443"), Some("8443")}
                   || exists port | port in svc.ports :: port.name == "https"
                then "https" else "http",
                address)
  {
    var key := svc.Id();
    assert Exposes(cfg, routes, key, f) <==> GoesThrough(cfg, routes, key, f);
    if Exposes(cfg, routes, key, f) {
      assert key in RoutesAfterAdd(cfg, routes, key, f);
      hide RoutesAfterAdd, Exposes, GoesThrough, ExposedBy, Tells;
      ExposedIsTold(cfg, svc, RoutesAfterAdd(cfg, routes, key, f)[key]);
      PatchedCurrent(services, svc, ExposedBy(cfg, svc, RoutesAfterAdd(cfg, routes, key, f)[key]), false);
    }
  }

  lemma ExposedIsTold(cfg: RouteConfig, svc: Service, r: Route)
    ensures IsRewrite(svc, ExposedBy(cfg, svc, r)) && ExposedBy(cfg, svc, r) == svc.(annotations := ExposedBy(cfg, svc, r).annotations)
    ensures Tells(
      svc.annotations, ExposedBy(cfg, svc, r).annotations,
      if r.tls.Some? || cfg.portOf(r.host + r.path) in {Some("443"), Some("8443")}
         || exists port | port in svc.ports :: port.name == "https"
      then "https" else "http",
      r.host + r.path)
  {
    TlsPorts(cfg.portOf(RouteHostName(r)));
    HttpsPorts(svc.ports);
    AnnotatedTells(svc.annotations, RouteHostName(r), RouteProtocol(cfg, svc, r));
    hide Annotated, Tells, HasHttpsPort, IsTlsPort;
  }
}
