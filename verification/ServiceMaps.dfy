/** Injection into the config map named like the service. */
module ServiceMaps {
  import opened Text
  import opened Objects
  import opened ApiServer
  import opened Annotations
  import opened Assignments
  import Lines
  import Rollouts
  import Tokens

  // ---- What is written -----------------------------------------------------

  const API_SERVER_KEY := "expose.config.fabric8.io/apiserver-key"
  const API_SERVER_URL_KEY := "expose.config.fabric8.io/apiserver-url-key"
  const API_SERVER_PROTOCOL_KEY := "expose.config.fabric8.io/apiserver-protocol-key"
  const CONSOLE_URL_KEY := "expose.config.fabric8.io/console-url-key"
  const AUTHORIZE_URL_KEY := "expose.config.fabric8.io/oauth-authorize-url-key"
  const CLUSTER_IP_KEY := "expose.config.fabric8.io/clusterip-key"
  const CLUSTER_IP_PORT_KEY := "expose.config.fabric8.io/clusterip-port-key"
  const CLUSTER_IP_PORT_IF_EMPTY_KEY := "expose.config.fabric8.io/clusterip-port-if-empty-key"
  const URL_KEY := "expose.config.fabric8.io/url-key"
  const HOST_KEY := "expose.config.fabric8.io/host-key"
  const PATH_KEY := "expose.config.fabric8.io/path-key"
  const CONFIG_YAML := "expose.config.fabric8.io/config-yaml"

  datatype Url = Url(host: string, path: string)

  /** The controller's configuration and the parsers it calls: `parseUrl` is
      `net/url.Parse`, `parseYaml` the decoding of a config-yaml annotation, `None` their
      errors. */
  datatype Settings = Settings(
    apiServer: string, apiServerProtocol: string, consoleUrl: string, openShift: bool,
    authorizeUrl: string, oauth: bool,
    parseUrl: string -> Option<Url>, parseYaml: string -> Option<seq<Lines.ConfigYaml>>)

  function ApiServerUrl(s: Settings): string {
    if s.apiServer == "" then "" else s.apiServerProtocol + "://" + s.apiServer
  }

  function ConsoleUrl(s: Settings): string {
    if s.apiServer != "" && s.consoleUrl == "" && s.openShift then JoinUrl(ApiServerUrl(s), "/console") else s.consoleUrl
  }

  /** The first target port that is set. */
  function ServicePort(ports: seq<Port>): string {
    if ports == [] then ""
    else if ports[0].targetPort.strVal != "" then ports[0].targetPort.strVal
    else if ports[0].targetPort.intVal > 0 then Itoa(ports[0].targetPort.intVal)
    else ServicePort(ports[1..])
  }

  method GetServicePort(svc: Service) returns (port: string)
    ensures port == ServicePort(svc.ports)
    ensures port == "" <==> forall p | p in svc.ports :: p.targetPort.strVal == "" && p.targetPort.intVal <= 0
  {
    for i := 0 to |svc.ports|
      invariant ServicePort(svc.ports[i..]) == ServicePort(svc.ports)
      invariant forall p | p in svc.ports[..i] :: p.targetPort.strVal == "" && p.targetPort.intVal <= 0
    {
      assert svc.ports[i..][0] == svc.ports[i] && svc.ports[i..][1..] == svc.ports[i + 1..];
      assert svc.ports[..i + 1] == svc.ports[..i] + [svc.ports[i]];
      assert svc.ports[i] in svc.ports;
      var tp := svc.ports[i].targetPort.strVal;
      if tp != "" {
        return tp;
      }
      var n := svc.ports[i].targetPort.intVal;
      if n > 0 {
        return Itoa(n);
      }
    }
    assert svc.ports[..|svc.ports|] == svc.ports;
    port := "";
  }

  function FirstValue(key: string, maps: seq<Dict>): string {
    if maps == [] then ""
    else if Lookup(maps[0], key) != "" then Lookup(maps[0], key)
    else FirstValue(key, maps[1..])
  }

  method FirstMapValue(key: string, maps: seq<Dict>) returns (value: string)
    ensures value == FirstValue(key, maps)
    ensures value == "" <==> forall m | m in maps :: Lookup(m, key) == ""
  {
    for i := 0 to |maps|
      invariant FirstValue(key, maps[i..]) == FirstValue(key, maps)
      invariant forall m | m in maps[..i] :: Lookup(m, key) == ""
    {
      assert maps[i..][0] == maps[i] && maps[i..][1..] == maps[i + 1..];
      assert maps[..i + 1] == maps[..i] + [maps[i]];
      assert maps[i] in maps;
      var v := Lookup(maps[i], key);
      if v != "" {
        return v;
      }
    }
    assert maps[..|maps|] == maps;
    value := "";
  }

  /** A write that is asked for when it is wanted and its annotation names a key. */
  function When(wanted: bool, a: Assign): Assign
    requires !a.Skip?
  {
    if wanted && a.key != "" then a else Skip
  }

  function UrlPath(s: Settings, url: string): string {
    match s.parseUrl(url)
    case None => "/"
    case Some(u) =>
      var answer := if u.path != "" then u.path else "/";
      if HasPrefix(answer, "/") then answer else "/" + answer
  }

  function UrlHost(s: Settings, url: string): string {
    match s.parseUrl(url)
    case None => ""
    case Some(u) => u.host
  }

  /** Everything updateServiceConfigMap may write before the config-yaml settings, in order. */
  function AllWrites(s: Settings, svc: Service, annotations: Dict): seq<Assign> {
    ServerWrites(s, annotations) + ClusterWrites(svc, annotations) + UrlWrites(s, svc, annotations)
  }

  function ServerWrites(s: Settings, annotations: Dict): seq<Assign> {
    [When(s.apiServer != "", Put(Lookup(annotations, API_SERVER_KEY), s.apiServer)),
     When(s.apiServer != "", Put(Lookup(annotations, API_SERVER_URL_KEY), ApiServerUrl(s))),
     When(ConsoleUrl(s) != "", Put(Lookup(annotations, CONSOLE_URL_KEY), ConsoleUrl(s))),
     When(true, Put(Lookup(annotations, API_SERVER_PROTOCOL_KEY), s.apiServerProtocol)),
     When(s.authorizeUrl != "" && s.oauth, Put(Lookup(annotations, AUTHORIZE_URL_KEY), s.authorizeUrl))]
  }

  function ClusterWrites(svc: Service, annotations: Dict): seq<Assign> {
    var ip, port := svc.clusterIP, ServicePort(svc.ports);
    var maps := [svc.annotations, annotations];
    [When(ip != "", Put(FirstValue(CLUSTER_IP_KEY, maps), ip)),
     When(ip != "" && port != "", Put(FirstValue(CLUSTER_IP_PORT_KEY, maps), ip + ":" + port)),
     When(ip != "" && port != "", PutIfEmpty(FirstValue(CLUSTER_IP_PORT_IF_EMPTY_KEY, maps), ip + ":" + port))]
  }

  function UrlWrites(s: Settings, svc: Service, annotations: Dict): seq<Assign> {
    var url := Lookup(svc.annotations, ANN_URL);
    [When(url != "", Put(Lookup(annotations, URL_KEY), url)),
     When(url != "" && UrlHost(s, url) != "", Put(Lookup(annotations, HOST_KEY), UrlHost(s, url))),
     When(url != "", Put(Lookup(annotations, PATH_KEY), UrlPath(s, url)))]
  }

  /** The config-yaml settings that are run: none without an exposed URL or on a parse error. */
  function YamlSettings(s: Settings, svc: Service): seq<Lines.ConfigYaml> {
    var text := Lookup(svc.annotations, CONFIG_YAML);
    if Lookup(svc.annotations, ANN_URL) == "" || text == "" then [] else s.parseYaml(text).GetOr([])
  }

  function YamlValues(s: Settings, svc: Service): Dict {
    var url := Lookup(svc.annotations, ANN_URL);
    map["host" := UrlHost(s, url), "url" := url, "apiserver" := s.apiServer, "apiserverURL" := ApiServerUrl(s),
        "apiserverProtocol" := s.apiServerProtocol, "consoleURL" := ConsoleUrl(s)]
  }

  function YamlApplied(data: Dict, configs: seq<Lines.ConfigYaml>, values: Dict): Dict
    decreases |configs|
  {
    if configs == [] then data else YamlApplied(Lines.Updated(configs[0], data, values), configs[1..], values)
  }

  predicate YamlFlagged(data: Dict, configs: seq<Lines.ConfigYaml>, values: Dict)
    decreases |configs|
  {
    configs != []
    && (Lines.Applies(configs[0], data, values) || YamlFlagged(Lines.Updated(configs[0], data, values), configs[1..], values))
  }

  /** The data after one pass, and whether the pass set the flag. */
  function Injected(s: Settings, svc: Service, cm: ConfigMap): Dict {
    YamlApplied(AppliedAll(cm.data, AllWrites(s, svc, cm.annotations)), YamlSettings(s, svc), YamlValues(s, svc))
  }

  predicate InjectedFlag(s: Settings, svc: Service, cm: ConfigMap) {
    var writes := AllWrites(s, svc, cm.annotations);
    Flagged(cm.data, writes) || YamlFlagged(AppliedAll(cm.data, writes), YamlSettings(s, svc), YamlValues(s, svc))
  }

  // ---- The method ----------------------------------------------------------

  method PutKey(data: Dict, key: string, value: string) returns (result: Dict, changed: bool)
    ensures result == Applied(data, When(true, Put(key, value)))
    ensures changed <==> Writes(data, When(true, Put(key, value)))
  {
    result, changed := data, false;
    if |key| > 0 {
      if Lookup(result, key) != value {
        result := result[key := value];
        changed := true;
      }
    }
  }

  method PutKeyIfEmpty(data: Dict, key: string, value: string) returns (result: Dict, changed: bool)
    ensures result == Applied(data, When(true, PutIfEmpty(key, value)))
    ensures changed <==> Writes(data, When(true, PutIfEmpty(key, value)))
  {
    result, changed := data, false;
    if key != "" {
      if Lookup(result, key) == "" {
        result := result[key := value];
        changed := true;
      }
    }
  }

  lemma SkipWritesNothing()
    ensures forall data :: Applied(data, Skip) == data && !Writes(data, Skip)
  {
  }

  /** The API server's own keys, and the console URL they may lead to. */
  method InjectApiServer(s: Settings, annotations: Dict, start: Dict) returns (data: Dict, updated: bool, consoleUrl: string)
    ensures var a := ServerWrites(s, annotations);
      && data == Applied(Applied(start, a[0]), a[1])
      && (updated <==> Writes(start, a[0]) || Writes(Applied(start, a[0]), a[1]))
    ensures consoleUrl == ConsoleUrl(s)
  {
    SkipWritesNothing();
    hide Applied, Writes, Lookup, JoinUrl;
    data, updated := start, false;
    var changed: bool;
    consoleUrl := s.consoleUrl;
    if |s.apiServer| > 0 {
      var url := s.apiServerProtocol + "://" + s.apiServer;
      data, changed := PutKey(data, Lookup(annotations, API_SERVER_KEY), s.apiServer);
      updated := updated || changed;
      data, changed := PutKey(data, Lookup(annotations, API_SERVER_URL_KEY), url);
      updated := updated || changed;
      if |consoleUrl| == 0 {
        if s.openShift {
          consoleUrl := JoinUrl(url, "/console");
        }
      }
    }
  }

  method InjectServer(s: Settings, annotations: Dict, start: Dict) returns (data: Dict, updated: bool)
    ensures data == AppliedAll(start, ServerWrites(s, annotations))
    ensures updated <==> Flagged(start, ServerWrites(s, annotations))
  {
    SkipWritesNothing();
    hide Applied, Writes, Lookup, AppliedAll, Flagged, ConsoleUrl, ApiServerUrl;
    var changed: bool, consoleUrl: string;
    data, updated, consoleUrl := InjectApiServer(s, annotations, start);
    if |consoleUrl| > 0 {
      data, changed := PutKey(data, Lookup(annotations, CONSOLE_URL_KEY), consoleUrl);
      updated := updated || changed;
    }
    data, changed := PutKey(data, Lookup(annotations, API_SERVER_PROTOCOL_KEY), s.apiServerProtocol);
    updated := updated || changed;
    if |s.authorizeUrl| > 0 && s.oauth {
      data, changed := PutKey(data, Lookup(annotations, AUTHORIZE_URL_KEY), s.authorizeUrl);
      updated := updated || changed;
    }
    FiveSteps(start, ServerWrites(s, annotations));
  }

  method InjectCluster(svc: Service, annotations: Dict, start: Dict) returns (data: Dict, updated: bool)
    ensures data == AppliedAll(start, ClusterWrites(svc, annotations))
    ensures updated <==> Flagged(start, ClusterWrites(svc, annotations))
  {
    SkipWritesNothing();
    hide Applied, Writes, Lookup, JoinUrl, AppliedAll, Flagged, FirstValue, ServicePort, UrlPath;
    data, updated := start, false;
    var changed: bool;
    var clusterIP := svc.clusterIP;
    if clusterIP != "" {
      var ipKey := FirstMapValue(CLUSTER_IP_KEY, [svc.annotations, annotations]);
      var portKey := FirstMapValue(CLUSTER_IP_PORT_KEY, [svc.annotations, annotations]);
      var ifEmptyKey := FirstMapValue(CLUSTER_IP_PORT_IF_EMPTY_KEY, [svc.annotations, annotations]);
      data, changed := PutKey(data, ipKey, clusterIP);
      updated := updated || changed;
      var port := GetServicePort(svc);
      if port != "" {
        data, changed := PutKey(data, portKey, clusterIP + ":" + port);
        updated := updated || changed;
        data, changed := PutKeyIfEmpty(data, ifEmptyKey, clusterIP + ":" + port);
        updated := updated || changed;
      }
    }
    ThreeSteps(start, ClusterWrites(svc, annotations));
  }

  method InjectUrl(s: Settings, svc: Service, annotations: Dict, start: Dict) returns (data: Dict, updated: bool)
    ensures data == AppliedAll(start, UrlWrites(s, svc, annotations))
    ensures updated <==> Flagged(start, UrlWrites(s, svc, annotations))
  {
    SkipWritesNothing();
    hide Applied, Writes, Lookup, JoinUrl, AppliedAll, Flagged, FirstValue, ServicePort, UrlPath;
    data, updated := start, false;
    var changed: bool;
    var exposeUrl := Lookup(svc.annotations, ANN_URL);
    if |exposeUrl| > 0 {
      var host := "";
      var url := s.parseUrl(exposeUrl);
      if url.Some? {
        host := url.value.host;
      }
      data, changed := PutKey(data, Lookup(annotations, URL_KEY), exposeUrl);
      updated := updated || changed;
      if |host| > 0 {
        data, changed := PutKey(data, Lookup(annotations, HOST_KEY), host);
        updated := updated || changed;
      }
      data, changed := PutKey(data, Lookup(annotations, PATH_KEY), UrlPath(s, exposeUrl));
      updated := updated || changed;
    }
    ThreeSteps(start, UrlWrites(s, svc, annotations));
  }

  method RunYaml(s: Settings, svc: Service, start: Dict) returns (data: Dict, updated: bool)
    ensures data == YamlApplied(start, YamlSettings(s, svc), YamlValues(s, svc))
    ensures updated <==> YamlFlagged(start, YamlSettings(s, svc), YamlValues(s, svc))
  {
    data, updated := start, false;
    var configs, values := YamlSettings(s, svc), YamlValues(s, svc);
    for i := 0 to |configs|
      invariant YamlApplied(data, configs[i..], values) == YamlApplied(start, configs, values)
      invariant updated || YamlFlagged(data, configs[i..], values) <==> YamlFlagged(start, configs, values)
    {
      assert configs[i..][0] == configs[i] && configs[i..][1..] == configs[i + 1..];
      var changed: bool;
      data, changed := Lines.UpdateConfigMap(configs[i], data, values);
      if changed {
        updated := true;
      }
    }
  }

  /** The rewriting of the data in memory. */
  method Inject(s: Settings, svc: Service, cm: ConfigMap) returns (data: Dict, updated: bool)
    ensures data == Injected(s, svc, cm)
    ensures updated <==> InjectedFlag(s, svc, cm)
  {
    data, updated := InjectServer(s, cm.annotations, cm.data);
    var changed: bool;
    data, changed := InjectCluster(svc, cm.annotations, data);
    updated := updated || changed;
    data, changed := InjectUrl(s, svc, cm.annotations, data);
    updated := updated || changed;
    data, changed := RunYaml(s, svc, data);
    updated := updated || changed;
    AppliedInThree(cm.data, ServerWrites(s, cm.annotations), ClusterWrites(svc, cm.annotations),
                UrlWrites(s, svc, cm.annotations));
  }

  /** What goes wrong: the config map cannot be read, its update is refused, or that of these deployments. */
  datatype MapFaults = MapFaults(lost: bool, refused: bool, broken: set<string>)

  /** Whether the pass gets to change the service's config map in memory. */
  predicate Changes(s: Settings, svc: Service, f: MapFaults, maps: map<Key, ConfigMap>) {
    !f.lost && svc.Id() in maps && InjectedFlag(s, svc, maps[svc.Id()])
  }

  /** The first write to a config map without data makes the source panic. */
  predicate Panics(s: Settings, svc: Service, f: MapFaults, maps: map<Key, ConfigMap>) {
    Changes(s, svc, f, maps) && maps[svc.Id()].data == map[]
  }

  /** The config maps afterwards: the service's own one is stored when the flag is set. */
  function MapsAfter(s: Settings, svc: Service, f: MapFaults, maps: map<Key, ConfigMap>): map<Key, ConfigMap> {
    var key := svc.Id();
    if Changes(s, svc, f, maps) && !Panics(s, svc, f, maps) && !f.refused
    then maps[key := maps[key].(data := Injected(s, svc, maps[key]))]
    else maps
  }

  /** The deployments afterwards: they are rolled when the flag is set, with the new data,
      even when the server refused to store those. */
  ghost predicate DeploymentsFollow(
    s: Settings, svc: Service, f: MapFaults, maps: map<Key, ConfigMap>,
    deployments: map<Key, Deployment>, deployments': map<Key, Deployment>, names: seq<string>, done: nat)
  {
    var key := svc.Id();
    if Changes(s, svc, f, maps) && !Panics(s, svc, f, maps)
    then Rollouts.RolledOut(
           deployments, deployments', key.namespace, key.name, Tokens.Token(Injected(s, svc, maps[key])), f.broken, names, done)
    else deployments' == deployments
  }

  /** updateServiceConfigMap: rewrite the data in memory, store it when the flag is set, and
      then roll the deployments. The order in which they were listed is returned along. */
  method UpdateServiceConfigMap(server: ApiServer, s: Settings, svc: Service, f: MapFaults)
    returns (panicked: bool, ghost names: seq<string>, ghost done: nat)
    modifies server`configMaps, server`deployments
    ensures panicked <==> Panics(s, svc, f, old(server.configMaps))
    ensures server.configMaps == MapsAfter(s, svc, f, old(server.configMaps))
    ensures DeploymentsFollow(s, svc, f, old(server.configMaps), old(server.deployments), server.deployments, names, done)
  {
    panicked, names, done := false, [], 0;
    var key := svc.Id();
    if !f.lost && key in server.configMaps {
      var cm := server.configMaps[key];
      var data, updated := Inject(s, svc, cm);
      hide Injected, InjectedFlag, Rollouts.RolledOut;
      if updated {
        if cm.data == map[] {
          return true, [], 0;
        }
        if !f.refused {
          server.configMaps := server.configMaps[key := cm.(data := data)];
        }
        var failed;
        failed, names, done := Rollouts.RollingUpgrade(server, key.namespace, key.name, data, f.broken);
      }
    }
  }

  // ---- Sequences of writes -------------------------------------------------

  lemma ThreeSteps(data: Dict, a: seq<Assign>)
    requires |a| == 3
    ensures var one, two := Applied(data, a[0]), Applied(Applied(data, a[0]), a[1]);
      && AppliedAll(data, a) == Applied(two, a[2])
      && (Flagged(data, a) <==> Writes(data, a[0]) || Writes(one, a[1]) || Writes(two, a[2]))
  {
    hide Applied, Writes;
    var one := Applied(data, a[0]);
    var two := Applied(one, a[1]);
    assert a[1..][1..] == [a[2]] && a[1..][0] == a[1];
    assert [a[2]][1..] == [];
    assert AppliedAll(two, [a[2]]) == Applied(two, a[2]);
    assert Flagged(two, [a[2]]) <==> Writes(two, a[2]);
    assert AppliedAll(one, a[1..]) == AppliedAll(two, [a[2]]);
    assert Flagged(one, a[1..]) <==> Writes(one, a[1]) || Flagged(two, [a[2]]);
  }

  lemma FiveSteps(data: Dict, a: seq<Assign>)
    requires |a| == 5
    ensures var one := Applied(data, a[0]);
      var two := Applied(one, a[1]);
      var three := Applied(two, a[2]);
      var four := Applied(three, a[3]);
      && AppliedAll(data, a) == Applied(four, a[4])
      && (Flagged(data, a) <==>
            Writes(data, a[0]) || Writes(one, a[1]) || Writes(two, a[2]) || Writes(three, a[3]) || Writes(four, a[4]))
  {
    hide Applied, Writes;
    var front, back := a[..2], a[2..];
    assert a == front + back;
    AppliedInTwo(data, front, back);
    assert front[1..] == [a[1]] && [a[1]][1..] == [];
    ThreeSteps(Applied(Applied(data, a[0]), a[1]), back);
  }

  // ---- The flag tells the truth --------------------------------------------

  lemma {:induction false} QuietYamlMeansUnchanged(data: Dict, configs: seq<Lines.ConfigYaml>, values: Dict)
    requires !YamlFlagged(data, configs, values)
    ensures YamlApplied(data, configs, values) == data
    decreases |configs|
  {
    if configs != [] {
      QuietYamlMeansUnchanged(data, configs[1..], values);
    }
  }

  lemma UnsetFlagMeansUnchanged(s: Settings, svc: Service, cm: ConfigMap)
    requires !InjectedFlag(s, svc, cm)
    ensures Injected(s, svc, cm) == cm.data
  {
    hide AllWrites, YamlSettings, YamlValues;
    QuietMeansUnchanged(cm.data, AllWrites(s, svc, cm.annotations));
    QuietYamlMeansUnchanged(cm.data, YamlSettings(s, svc), YamlValues(s, svc));
  }

  lemma AllWritesAreProper(s: Settings, svc: Service, annotations: Dict)
    ensures Proper(AllWrites(s, svc, annotations))
  {
    hide FirstValue, ServicePort, UrlHost, UrlPath, ConsoleUrl;
    assert forall a | a in ServerWrites(s, annotations) :: !a.PutIfEmpty?;
    assert forall a | a in UrlWrites(s, svc, annotations) :: !a.PutIfEmpty?;
  }

  /** Without config-yaml settings the flag tells for all data whether they change, exactly
      when no two of the writes that the annotations ask for disagree about an entry. */
  lemma InjectionFlagExactIffConsistent(s: Settings, svc: Service, cm: ConfigMap)
    requires YamlSettings(s, svc) == []
    ensures (forall data: Dict :: InjectedFlag(s, svc, cm.(data := data)) <==> Injected(s, svc, cm.(data := data)) != data)
       <==> Consistent(AllWrites(s, svc, cm.annotations))
  {
    hide AllWrites, YamlSettings, YamlValues, Flagged, AppliedAll, Consistent;
    var writes := AllWrites(s, svc, cm.annotations);
    AllWritesAreProper(s, svc, cm.annotations);
    if Consistent(writes) {
      FlagExactIffConsistent(writes);
      forall data: Dict
        ensures InjectedFlag(s, svc, cm.(data := data)) <==> Injected(s, svc, cm.(data := data)) != data
      {
        assert Flagged(data, writes) <==> AppliedAll(data, writes) != data;
      }
    } else {
      SecondPassQuietIffConsistent(map[], writes);
      SecondPassChangesNothing(map[], writes);
      var once := AppliedAll(map[], writes);
      assert InjectedFlag(s, svc, cm.(data := once)) && Injected(s, svc, cm.(data := once)) == once;
    }
  }

  /** A config map can get there: one that wants the API server and its URL under the same
      key is stored and rolled again on every event, although its data do not change. */
  lemma SharedKeyRaisesAFalseFlag(s: Settings, svc: Service, cm: ConfigMap)
    requires s.apiServer != "" && YamlSettings(s, svc) == []
    requires Lookup(cm.annotations, API_SERVER_KEY) == Lookup(cm.annotations, API_SERVER_URL_KEY) != ""
    ensures var again := cm.(data := Injected(s, svc, cm));
            InjectedFlag(s, svc, again) && Injected(s, svc, again) == again.data
  {
    hide FirstValue, ServicePort, UrlHost, UrlPath, ConsoleUrl, YamlSettings, YamlValues;
    var writes := AllWrites(s, svc, cm.annotations);
    assert writes[0] in writes && writes[1] in writes;
    assert !Agree(writes[0], writes[1]) by { assert |ApiServerUrl(s)| > |s.apiServer|; }
    hide AllWrites, Flagged, AppliedAll;
    AllWritesAreProper(s, svc, cm.annotations);
    SecondPassQuietIffConsistent(cm.data, writes);
    SecondPassChangesNothing(cm.data, writes);
  }

  // ---- Further passes ------------------------------------------------------

  /** One entry through the config-yaml settings. */
  function YamlTraced(x: Option<string>, configs: seq<Lines.ConfigYaml>, values: Dict, key: string): Option<string>
    decreases |configs|
  {
    if configs == [] then x else YamlTraced(YamlStepped(x, configs[0], values, key), configs[1..], values, key)
  }

  function YamlStepped(x: Option<string>, c: Lines.ConfigYaml, values: Dict, key: string): Option<string> {
    if c.key == key && Lines.Active(c, values) && x.GetOr("") != ""
    then Some(Lines.Rewrite(x.value, c.prefix, Lines.Replacement(c, values)))
    else x
  }

  lemma {:induction false} ReadIsYamlTraced(data: Dict, configs: seq<Lines.ConfigYaml>, values: Dict, key: string)
    ensures Read(YamlApplied(data, configs, values), key) == YamlTraced(Read(data, key), configs, values, key)
    decreases |configs|
  {
    hide Lines.Rewrite;
    if configs != [] {
      ReadIsYamlTraced(Lines.Updated(configs[0], data, values), configs[1..], values, key);
      assert Read(Lines.Updated(configs[0], data, values), key) == YamlStepped(Read(data, key), configs[0], values, key);
    }
  }

  /** Whether some setting edits this entry when it reads like that. */
  predicate Edited(x: Option<string>, configs: seq<Lines.ConfigYaml>, values: Dict, key: string) {
    x.GetOr("") != "" && exists c :: c in configs && c.key == key && Lines.Active(c, values)
  }

  /** The settings leave an entry alone, or add newlines to it. */
  lemma {:induction false} EditedGrows(x: Option<string>, configs: seq<Lines.ConfigYaml>, values: Dict, key: string)
    ensures var y := YamlTraced(x, configs, values, key);
      && (y.GetOr("") == "" <==> x.GetOr("") == "")
      && Lines.Newlines(y.GetOr("")) >= Lines.Newlines(x.GetOr(""))
      && (if Edited(x, configs, values, key) then Lines.Newlines(y.GetOr("")) > Lines.Newlines(x.GetOr("")) else y == x)
    decreases |configs|
  {
    if configs != [] {
      var c, rest := configs[0], configs[1..];
      var next := YamlStepped(x, c, values, key);
      if next != x {
        Lines.RewriteAddsNewlines(x.value, c.prefix, Lines.Replacement(c, values));
        assert Lines.Newlines("") == 0;
      }
      EditedGrows(next, rest, values, key);
      assert c in configs && forall d :: d in configs <==> d == c || d in rest;
      hide Lines.Rewrite, Lines.Newlines, YamlTraced;
      if x.GetOr("") != "" && c.key == key && Lines.Active(c, values) {
        Lines.RewriteAddsNewlines(x.value, c.prefix, Lines.Replacement(c, values));
      }
    }
  }

  /** One entry through a whole pass. */
  function PassTraced(x: Option<string>, writes: seq<Assign>, configs: seq<Lines.ConfigYaml>, values: Dict, key: string): Option<string> {
    YamlTraced(Traced(x, writes, key), configs, values, key)
  }

  /** What the next pass does to an entry after a pass: the same settings edit it, and it
      ends as it was exactly when none does, or the assignments write it first. */
  lemma EntryAfterPass(x: Option<string>, writes: seq<Assign>, configs: seq<Lines.ConfigYaml>, values: Dict, key: string)
    requires Proper(writes)
    ensures var once := PassTraced(x, writes, configs, values, key);
      && (Edited(Traced(once, writes, key), configs, values, key) <==> Edited(Traced(x, writes, key), configs, values, key))
      && (PassTraced(once, writes, configs, values, key) == once
          <==> !Edited(Traced(x, writes, key), configs, values, key) || HasPut(writes, key))
  {
    var mid := Traced(x, writes, key);
    var once := YamlTraced(mid, configs, values, key);
    var again := Traced(once, writes, key);
    EditedGrows(mid, configs, values, key);
    EditedGrows(again, configs, values, key);
    hide Traced, YamlTraced, Proper, HasPut, Lines.Newlines;
    TraceIsIdempotent(x, writes, key);
    if HasPut(writes, key) {
      PutDecides(x, once, writes, key);
      TraceKeepsPresence(once, writes, key);
    } else {
      ConditionalWritesKeepValues(once, writes, key);
    }
  }

  /** The data after `n` passes over a map that has data; one without any does not survive
      the first write (`Panics`). */
  function PassesOver(s: Settings, svc: Service, cm: ConfigMap, n: nat): Dict {
    if n == 0 then cm.data else Injected(s, svc, cm.(data := PassesOver(s, svc, cm, n - 1)))
  }

  /** Whether some config-yaml setting edits this entry in a pass over the data. */
  predicate EditedIn(s: Settings, svc: Service, cm: ConfigMap, data: Dict, key: string) {
    Edited(Traced(Read(data, key), AllWrites(s, svc, cm.annotations), key), YamlSettings(s, svc), YamlValues(s, svc), key)
  }

  /** Whether a config-yaml setting edits its entry in a pass over the config map. */
  predicate AppliesIn(s: Settings, svc: Service, cm: ConfigMap, c: Lines.ConfigYaml) {
    c in YamlSettings(s, svc) && Lines.Applies(c, AppliedAll(cm.data, AllWrites(s, svc, cm.annotations)), YamlValues(s, svc))
  }

  lemma EditedIffApplies(s: Settings, svc: Service, cm: ConfigMap, key: string)
    ensures EditedIn(s, svc, cm, cm.data, key) <==> exists c :: AppliesIn(s, svc, cm, c) && c.key == key
  {
    hide AllWrites, YamlSettings, YamlValues, AppliedAll, Traced;
    var writes := AllWrites(s, svc, cm.annotations);
    ReadIsTraced(cm.data, writes, key);
    if EditedIn(s, svc, cm, cm.data, key) {
      var c :| c in YamlSettings(s, svc) && c.key == key && Lines.Active(c, YamlValues(s, svc));
      assert AppliesIn(s, svc, cm, c);
    }
  }

  lemma ReadAfterPass(s: Settings, svc: Service, cm: ConfigMap, key: string)
    ensures Read(Injected(s, svc, cm), key)
         == PassTraced(Read(cm.data, key), AllWrites(s, svc, cm.annotations), YamlSettings(s, svc), YamlValues(s, svc), key)
  {
    hide AllWrites, YamlSettings, YamlValues, AppliedAll, YamlApplied, Traced, YamlTraced;
    var writes := AllWrites(s, svc, cm.annotations);
    ReadIsTraced(cm.data, writes, key);
    ReadIsYamlTraced(AppliedAll(cm.data, writes), YamlSettings(s, svc), YamlValues(s, svc), key);
  }

  /** Every pass finds the same entries to edit. */
  lemma {:induction false} SameEntriesEdited(s: Settings, svc: Service, cm: ConfigMap, n: nat, key: string)
    ensures EditedIn(s, svc, cm, PassesOver(s, svc, cm, n), key) <==> EditedIn(s, svc, cm, cm.data, key)
  {
    hide AllWrites, YamlSettings, YamlValues, Injected, Edited, Traced, PassTraced, Proper;
    if n > 0 {
      SameEntriesEdited(s, svc, cm, n - 1, key);
      var before := PassesOver(s, svc, cm, n - 1);
      ReadAfterPass(s, svc, cm.(data := before), key);
      AllWritesAreProper(s, svc, cm.annotations);
      EntryAfterPass(Read(before, key), AllWrites(s, svc, cm.annotations), YamlSettings(s, svc), YamlValues(s, svc), key);
    }
  }

  /** From the second pass on, a pass leaves the data as they are exactly when every
      config-yaml setting that applies edits an entry which is also written
      unconditionally; otherwise every pass changes them again. */
  lemma LaterPassesSettleIff(s: Settings, svc: Service, cm: ConfigMap, n: nat)
    ensures PassesOver(s, svc, cm, n + 2) == PassesOver(s, svc, cm, n + 1)
       <==> forall c | AppliesIn(s, svc, cm, c) :: HasPut(AllWrites(s, svc, cm.annotations), c.key)
  {
    hide AppliesIn, AllWrites, YamlSettings, YamlValues, Injected, EditedIn, Traced, PassTraced, Proper, HasPut;
    var writes := AllWrites(s, svc, cm.annotations);
    var before, once := PassesOver(s, svc, cm, n), PassesOver(s, svc, cm, n + 1);
    var again := PassesOver(s, svc, cm, n + 2);
    assert once == Injected(s, svc, cm.(data := before)) && again == Injected(s, svc, cm.(data := once));
    AllWritesAreProper(s, svc, cm.annotations);
    forall key: string
      ensures Read(again, key) == Read(once, key) <==> !EditedIn(s, svc, cm, cm.data, key) || HasPut(writes, key)
    {
      OneEntrySettlesIff(s, svc, cm, n, key);
    }
    hide PassesOver;
    forall key: string {
      EditedIffApplies(s, svc, cm, key);
    }
    if forall c | AppliesIn(s, svc, cm, c) :: HasPut(writes, c.key) {
      SameReadsSameData(again, once);
    } else {
      var c :| AppliesIn(s, svc, cm, c) && !HasPut(writes, c.key);
      assert Read(again, c.key) != Read(once, c.key);
    }
  }

  lemma OneEntrySettlesIff(s: Settings, svc: Service, cm: ConfigMap, n: nat, key: string)
    ensures Read(PassesOver(s, svc, cm, n + 2), key) == Read(PassesOver(s, svc, cm, n + 1), key)
       <==> !EditedIn(s, svc, cm, cm.data, key) || HasPut(AllWrites(s, svc, cm.annotations), key)
  {
    hide AllWrites, YamlSettings, YamlValues, Injected, Traced, PassTraced, Proper, HasPut, Edited;
    var before, once := PassesOver(s, svc, cm, n), PassesOver(s, svc, cm, n + 1);
    assert PassesOver(s, svc, cm, n + 2) == Injected(s, svc, cm.(data := once));
    AllWritesAreProper(s, svc, cm.annotations);
    SameEntriesEdited(s, svc, cm, n, key);
    ReadAfterPass(s, svc, cm.(data := before), key);
    ReadAfterPass(s, svc, cm.(data := once), key);
    EntryAfterPass(Read(before, key), AllWrites(s, svc, cm.annotations), YamlSettings(s, svc), YamlValues(s, svc), key);
  }

  lemma {:induction false} YamlFlaggedIffApplies(data: Dict, configs: seq<Lines.ConfigYaml>, values: Dict)
    ensures YamlFlagged(data, configs, values) <==> exists c :: c in configs && Lines.Applies(c, data, values)
    decreases |configs|
  {
    hide Lines.Applies;
    if configs != [] {
      assert forall c :: c in configs <==> c == configs[0] || c in configs[1..];
      if !Lines.Applies(configs[0], data, values) {
        YamlFlaggedIffApplies(data, configs[1..], values);
      }
    }
  }

  lemma YamlFlaggedIffEdited(s: Settings, svc: Service, cm: ConfigMap)
    ensures YamlFlagged(AppliedAll(cm.data, AllWrites(s, svc, cm.annotations)), YamlSettings(s, svc), YamlValues(s, svc))
       <==> exists key :: EditedIn(s, svc, cm, cm.data, key)
  {
    hide AllWrites, YamlSettings, YamlValues, AppliedAll, YamlFlagged, Traced;
    var writes, configs, values := AllWrites(s, svc, cm.annotations), YamlSettings(s, svc), YamlValues(s, svc);
    var data := AppliedAll(cm.data, writes);
    YamlFlaggedIffApplies(data, configs, values);
    forall key: string
      ensures Edited(Traced(Read(cm.data, key), writes, key), configs, values, key) <==> Edited(Read(data, key), configs, values, key)
    {
      ReadIsTraced(cm.data, writes, key);
    }
    if c :| c in configs && Lines.Applies(c, data, values) {
      assert Edited(Read(data, c.key), configs, values, c.key);
      assert EditedIn(s, svc, cm, cm.data, c.key);
    }
    if key :| EditedIn(s, svc, cm, cm.data, key) {
      assert Edited(Read(data, key), configs, values, key);
    }
  }

  /** The flag of a later pass is set exactly when some setting applies or two writes
      disagree: one applicable setting makes every event store the map and roll its
      deployments, even when the data settle. */
  lemma LaterPassesFlaggedIff(s: Settings, svc: Service, cm: ConfigMap, n: nat)
    ensures InjectedFlag(s, svc, cm.(data := PassesOver(s, svc, cm, n + 1)))
       <==> (exists c :: AppliesIn(s, svc, cm, c)) || !Consistent(AllWrites(s, svc, cm.annotations))
  {
    hide AppliesIn, AllWrites, YamlSettings, YamlValues, EditedIn;
    hide Proper, Consistent, Flagged, AppliedAll, YamlFlagged, YamlApplied;
    var writes := AllWrites(s, svc, cm.annotations);
    var before, once := PassesOver(s, svc, cm, n), PassesOver(s, svc, cm, n + 1);
    assert once == Injected(s, svc, cm.(data := before));
    YamlFlaggedIffEdited(s, svc, cm.(data := once));
    YamlFlaggedIffEdited(s, svc, cm.(data := before));
    forall key: string
      ensures EditedIn(s, svc, cm.(data := once), once, key) <==> EditedIn(s, svc, cm, cm.data, key)
      ensures EditedIn(s, svc, cm.(data := before), before, key) <==> EditedIn(s, svc, cm, cm.data, key)
    {
      SameEntriesEdited(s, svc, cm, n, key);
      SameEntriesEdited(s, svc, cm, n + 1, key);
      EditedByAnnotations(s, svc, cm, once, key);
      EditedByAnnotations(s, svc, cm, before, key);
    }
    forall key: string {
      EditedIffApplies(s, svc, cm, key);
    }
    assert forall c | AppliesIn(s, svc, cm, c) :: EditedIn(s, svc, cm, cm.data, c.key);
    hide PassesOver;
    if !exists c :: AppliesIn(s, svc, cm, c) {
      QuietYamlMeansUnchanged(AppliedAll(before, writes), YamlSettings(s, svc), YamlValues(s, svc));
      AllWritesAreProper(s, svc, cm.annotations);
      SecondPassQuietIffConsistent(before, writes);
    }
  }

  lemma EditedByAnnotations(s: Settings, svc: Service, cm: ConfigMap, data: Dict, key: string)
    ensures EditedIn(s, svc, cm.(data := data), data, key) <==> EditedIn(s, svc, cm, data, key)
  {
    hide AllWrites;
  }

  // ---- The panic -----------------------------------------------------------

  /** On a map without data, a pass gets to a write exactly when one of the writes that the
      annotations ask for has something to write. */
  lemma FlaggedWithoutDataIff(s: Settings, svc: Service, cm: ConfigMap)
    requires cm.data == map[]
    ensures InjectedFlag(s, svc, cm) <==> exists a :: a in AllWrites(s, svc, cm.annotations) && !a.Skip? && a.value != ""
  {
    hide AllWrites, YamlSettings, YamlValues, Flagged, AppliedAll, YamlFlagged;
    var writes := AllWrites(s, svc, cm.annotations);
    AllWritesAreProper(s, svc, cm.annotations);
    QuietIffNoneWrites(cm.data, writes);
    if !Flagged(cm.data, writes) {
      QuietMeansUnchanged(cm.data, writes);
      YamlFlaggedIffApplies(cm.data, YamlSettings(s, svc), YamlValues(s, svc));
    }
  }

  /** So handling the service's config map panics exactly when the map can be read, has no
      data, and some annotation asks for a value that is not empty. */
  lemma PanicsIff(s: Settings, svc: Service, f: MapFaults, maps: map<Key, ConfigMap>)
    ensures Panics(s, svc, f, maps)
       <==> && !f.lost && svc.Id() in maps && maps[svc.Id()].data == map[]
            && exists a :: a in AllWrites(s, svc, maps[svc.Id()].annotations) && !a.Skip? && a.value != ""
  {
    hide AllWrites, InjectedFlag;
    if svc.Id() in maps && maps[svc.Id()].data == map[] {
      FlaggedWithoutDataIff(s, svc, maps[svc.Id()]);
    }
  }
}
