/** What injection leaves in the config map named like a service, entry by entry, and in the
    deployments that follow it. */
module Injections {
  import opened Text
  import opened Objects
  import opened Assignments
  import opened ServiceMaps
  import Annotations
  import Lines
  import Rollouts
  import Tokens

  // ---- Which annotation decides about an entry -----------------------------

  /** The annotations that name entries, in the order in which they are followed. */
  const NAMING := [
    "expose.config.fabric8.io/apiserver-key",
    "expose.config.fabric8.io/apiserver-url-key",
    "expose.config.fabric8.io/console-url-key",
    "expose.config.fabric8.io/apiserver-protocol-key",
    "expose.config.fabric8.io/oauth-authorize-url-key",
    "expose.config.fabric8.io/clusterip-key",
    "expose.config.fabric8.io/clusterip-port-key",
    "expose.config.fabric8.io/clusterip-port-if-empty-key",
    "expose.config.fabric8.io/url-key",
    "expose.config.fabric8.io/host-key",
    "expose.config.fabric8.io/path-key"]

  /** The entry that an annotation names. For the cluster's addresses that of the service goes first. */
  function Named(svc: Service, cm: ConfigMap, name: string): string {
    var own := Lookup(svc.annotations, name);
    if own != "" && name in {"expose.config.fabric8.io/clusterip-key", "expose.config.fabric8.io/clusterip-port-key",
                             "expose.config.fabric8.io/clusterip-port-if-empty-key"}
    then own else Lookup(cm.annotations, name)
  }

  /** The target port of a service port that is set. */
  predicate IsSet(p: Port) {
    p.targetPort.strVal != "" || p.targetPort.intVal > 0
  }

  /** Whether there is something to write under the annotation. */
  predicate Wanted(s: Settings, svc: Service, name: string) {
    var url := Lookup(svc.annotations, "fabric8.io/exposeUrl");
    if name in {"expose.config.fabric8.io/apiserver-key", "expose.config.fabric8.io/apiserver-url-key"} then s.apiServer != ""
    else if name == "expose.config.fabric8.io/console-url-key" then s.consoleUrl != "" || (s.apiServer != "" && s.openShift)
    else if name == "expose.config.fabric8.io/apiserver-protocol-key" then true
    else if name == "expose.config.fabric8.io/oauth-authorize-url-key" then s.oauth && s.authorizeUrl != ""
    else if name == "expose.config.fabric8.io/clusterip-key" then svc.clusterIP != ""
    else if name in {"expose.config.fabric8.io/clusterip-port-key", "expose.config.fabric8.io/clusterip-port-if-empty-key"}
    then svc.clusterIP != "" && exists p :: p in svc.ports && IsSet(p)
    else if name == "expose.config.fabric8.io/host-key" then url != "" && s.parseUrl(url).Some? && s.parseUrl(url).value.host != ""
    else url != ""
  }

  /** The settings that edit entries afterwards. */
  function Edits(s: Settings, svc: Service): seq<Lines.ConfigYaml> {
    var text := Lookup(svc.annotations, "expose.config.fabric8.io/config-yaml");
    if Lookup(svc.annotations, "fabric8.io/exposeUrl") == "" || text == "" || s.parseYaml(text).None? then []
    else s.parseYaml(text).value
  }

  /** The annotation at this place writes to this entry. */
  predicate WritesTo(s: Settings, svc: Service, cm: ConfigMap, i: nat, key: string)
    requires i < |NAMING|
  {
    key != "" && Wanted(s, svc, NAMING[i]) && Named(svc, cm, NAMING[i]) == key
  }

  predicate Unedited(s: Settings, svc: Service, key: string) {
    forall c | c in Edits(s, svc) :: c.key != key
  }

  /** The annotation names an entry and has something to write there, none after it writes
      there too, and no setting edits the entry. */
  predicate Decides(s: Settings, svc: Service, cm: ConfigMap, name: string) {
    var key := Named(svc, cm, name);
    && name in NAMING && key != "" && Wanted(s, svc, name)
    && (forall i, j | 0 <= i < j < |NAMING| && NAMING[i] == name :: !WritesTo(s, svc, cm, j, key))
    && Unedited(s, svc, key)
  }

  // ---- The writes, one by one ----------------------------------------------

  lemma PortIsSet(ports: seq<Port>)
    ensures ServicePort(ports) != "" <==> exists p :: p in ports && IsSet(p)
  {
    if ports != [] {
      PortIsSet(ports[1..]);
      assert forall p :: p in ports <==> p == ports[0] || p in ports[1..];
      assert ServicePort(ports) != "" <==> IsSet(ports[0]) || ServicePort(ports[1..]) != "";
    }
  }

  lemma FirstPortIsTaken(ports: seq<Port>, i: nat)
    requires i < |ports| && IsSet(ports[i]) && forall j | 0 <= j < i :: !IsSet(ports[j])
    ensures ServicePort(ports)
         == if ports[i].targetPort.strVal != "" then ports[i].targetPort.strVal else Itoa(ports[i].targetPort.intVal)
  {
    hide Itoa;
    if i > 0 {
      assert !IsSet(ports[0]);
      var rest := ports[1..];
      assert rest[i - 1] == ports[i] && forall j | 0 <= j < i - 1 :: rest[j] == ports[j + 1];
      FirstPortIsTaken(rest, i - 1);
    }
  }

  lemma FirstOfTwo(key: string, a: Dict, b: Dict)
    ensures FirstValue(key, [a, b]) == if Lookup(a, key) != "" then Lookup(a, key) else Lookup(b, key)
  {
    assert [a, b][1..] == [b] && [b][1..] == [];
    assert FirstValue(key, [b]) == Lookup(b, key);
  }

  /** The write is about the entry exactly when the annotation at this place is. */
  ghost predicate Matches(s: Settings, svc: Service, cm: ConfigMap, i: nat, a: Assign)
    requires i < |NAMING|
  {
    forall key | key != "" :: Touches(a, key) <==> WritesTo(s, svc, cm, i, key)
  }

  lemma ConsoleIsWanted(s: Settings)
    ensures ConsoleUrl(s) != "" <==> s.consoleUrl != "" || (s.apiServer != "" && s.openShift)
  {
  }

  lemma ApiServerWritesMatch(s: Settings, svc: Service, cm: ConfigMap)
    ensures var writes := ServerWrites(s, cm.annotations);
      Matches(s, svc, cm, 0, writes[0]) && Matches(s, svc, cm, 1, writes[1]) && Matches(s, svc, cm, 3, writes[3])
  {
    hide Lookup, IsSet, ConsoleUrl, ApiServerUrl;
  }

  lemma ConsoleWritesMatch(s: Settings, svc: Service, cm: ConfigMap)
    ensures var writes := ServerWrites(s, cm.annotations);
      Matches(s, svc, cm, 2, writes[2]) && Matches(s, svc, cm, 4, writes[4])
  {
    ConsoleIsWanted(s);
    hide Lookup, IsSet, ConsoleUrl, ApiServerUrl;
  }

  lemma ServerWritesMatch(s: Settings, svc: Service, cm: ConfigMap)
    ensures var writes := ServerWrites(s, cm.annotations);
      |writes| == 5 && forall i | 0 <= i < 5 :: Matches(s, svc, cm, i, writes[i])
  {
    ApiServerWritesMatch(s, svc, cm);
    ConsoleWritesMatch(s, svc, cm);
    hide Matches;
  }

  lemma ClusterWritesMatch(s: Settings, svc: Service, cm: ConfigMap)
    ensures var writes := ClusterWrites(svc, cm.annotations);
      |writes| == 3 && forall i | 0 <= i < 3 :: Matches(s, svc, cm, 5 + i, writes[i])
  {
    PortIsSet(svc.ports);
    FirstOfTwo("expose.config.fabric8.io/clusterip-key", svc.annotations, cm.annotations);
    FirstOfTwo("expose.config.fabric8.io/clusterip-port-key", svc.annotations, cm.annotations);
    FirstOfTwo("expose.config.fabric8.io/clusterip-port-if-empty-key", svc.annotations, cm.annotations);
    hide Lookup, IsSet, FirstValue, ServicePort;
    var writes := ClusterWrites(svc, cm.annotations);
    assert Matches(s, svc, cm, 5, writes[0]);
    assert Matches(s, svc, cm, 6, writes[1]);
    assert Matches(s, svc, cm, 7, writes[2]);
  }

  lemma UrlWritesMatch(s: Settings, svc: Service, cm: ConfigMap)
    ensures var writes := UrlWrites(s, svc, cm.annotations);
      |writes| == 3 && forall i | 0 <= i < 3 :: Matches(s, svc, cm, 8 + i, writes[i])
  {
    hide Lookup, IsSet, UrlPath;
    var writes := UrlWrites(s, svc, cm.annotations);
    assert Matches(s, svc, cm, 8, writes[0]);
    assert Matches(s, svc, cm, 9, writes[1]);
    assert Matches(s, svc, cm, 10, writes[2]);
  }

  /** The writes are about the entries that the annotations name. */
  lemma WritesMatch(s: Settings, svc: Service, cm: ConfigMap)
    ensures var writes := AllWrites(s, svc, cm.annotations);
      && |writes| == |NAMING| == 11
      && (forall i | 0 <= i < 11 :: Matches(s, svc, cm, i, writes[i]))
      && (forall i | 0 <= i < 5 :: writes[i] == ServerWrites(s, cm.annotations)[i])
      && (forall i | 5 <= i < 8 :: writes[i] == ClusterWrites(svc, cm.annotations)[i - 5])
      && (forall i | 8 <= i < 11 :: writes[i] == UrlWrites(s, svc, cm.annotations)[i - 8])
  {
    ServerWritesMatch(s, svc, cm);
    ClusterWritesMatch(s, svc, cm);
    UrlWritesMatch(s, svc, cm);
    hide Matches, ServerWrites, ClusterWrites, UrlWrites;
    var writes := AllWrites(s, svc, cm.annotations);
    forall i | 0 <= i < 11
      ensures Matches(s, svc, cm, i, writes[i])
    {
      if i < 5 {
        assert Matches(s, svc, cm, i, ServerWrites(s, cm.annotations)[i]);
      } else if i < 8 {
        assert Matches(s, svc, cm, 5 + (i - 5), ClusterWrites(svc, cm.annotations)[i - 5]);
      } else {
        assert Matches(s, svc, cm, 8 + (i - 8), UrlWrites(s, svc, cm.annotations)[i - 8]);
      }
    }
  }

  lemma SettingsSpare(data: Dict, configs: seq<Lines.ConfigYaml>, values: Dict, key: string)
    requires forall c | c in configs :: c.key != key
    ensures Read(YamlApplied(data, configs, values), key) == Read(data, key)
  {
    ReadIsYamlTraced(data, configs, values, key);
    EditedGrows(Read(data, key), configs, values, key);
  }

  /** What the settings do not edit reads as the writes left it. */
  lemma UneditedStays(s: Settings, svc: Service, cm: ConfigMap, key: string)
    requires Unedited(s, svc, key)
    ensures Read(Injected(s, svc, cm), key) == Read(AppliedAll(cm.data, AllWrites(s, svc, cm.annotations)), key)
  {
    assert YamlSettings(s, svc) == Edits(s, svc);
    hide AllWrites, YamlSettings, YamlValues, Edits, AppliedAll;
    var data := AppliedAll(cm.data, AllWrites(s, svc, cm.annotations));
    SettingsSpare(data, YamlSettings(s, svc), YamlValues(s, svc), key);
  }

  lemma Decided(s: Settings, svc: Service, cm: ConfigMap, i: nat, value: string)
    requires i < |NAMING| && Decides(s, svc, cm, NAMING[i])
    requires var writes, key := AllWrites(s, svc, cm.annotations), Named(svc, cm, NAMING[i]);
             |writes| == |NAMING| && writes[i] == When(Wanted(s, svc, NAMING[i]), Put(key, value))
    ensures Lookup(Injected(s, svc, cm), Named(svc, cm, NAMING[i])) == value
  {
    var writes, key := AllWrites(s, svc, cm.annotations), Named(svc, cm, NAMING[i]);
    WritesMatch(s, svc, cm);
    UneditedStays(s, svc, cm, key);
    hide AllWrites, ServerWrites, ClusterWrites, UrlWrites, AppliedAll, Named, Wanted, Unedited, WritesTo, Injected;
    assert forall j | i < j < 11 :: Matches(s, svc, cm, j, writes[j]);
    LastWriteHolds(cm.data, writes, i, key, value);
  }

  // ---- Entry by entry ------------------------------------------------------

  /** The exposed URL goes under url-key. */
  lemma UrlEntry(s: Settings, svc: Service, cm: ConfigMap)
    requires Decides(s, svc, cm, "expose.config.fabric8.io/url-key")
    ensures Lookup(Injected(s, svc, cm), Lookup(cm.annotations, "expose.config.fabric8.io/url-key"))
         == Lookup(svc.annotations, "fabric8.io/exposeUrl") != ""
  {
    hide Injected, AllWrites, Lookup;
    WritesMatch(s, svc, cm);
    Decided(s, svc, cm, 8, Lookup(svc.annotations, ANN_URL));
  }

  /** The host of the exposed URL, if it has one, goes under host-key. */
  lemma HostEntry(s: Settings, svc: Service, cm: ConfigMap)
    requires Decides(s, svc, cm, "expose.config.fabric8.io/host-key")
    ensures var url := s.parseUrl(Lookup(svc.annotations, "fabric8.io/exposeUrl"));
      url.Some? && Lookup(Injected(s, svc, cm), Lookup(cm.annotations, "expose.config.fabric8.io/host-key")) == url.value.host != ""
  {
    hide Injected, AllWrites, Lookup;
    WritesMatch(s, svc, cm);
    Decided(s, svc, cm, 9, UrlHost(s, Lookup(svc.annotations, ANN_URL)));
  }

  /** The path of the exposed URL goes under path-key, and starts with a slash. */
  lemma PathEntry(s: Settings, svc: Service, cm: ConfigMap)
    requires Decides(s, svc, cm, "expose.config.fabric8.io/path-key")
    ensures var url := s.parseUrl(Lookup(svc.annotations, "fabric8.io/exposeUrl"));
      Lookup(Injected(s, svc, cm), Lookup(cm.annotations, "expose.config.fabric8.io/path-key"))
      == if url.None? || url.value.path == "" then "/"
         else if HasPrefix(url.value.path, "/") then url.value.path else "/" + url.value.path
  {
    hide Injected, AllWrites, Lookup;
    WritesMatch(s, svc, cm);
    Decided(s, svc, cm, 10, UrlPath(s, Lookup(svc.annotations, ANN_URL)));
  }

  /** The API server goes under apiserver-key. */
  lemma ApiServerEntry(s: Settings, svc: Service, cm: ConfigMap)
    requires Decides(s, svc, cm, "expose.config.fabric8.io/apiserver-key")
    ensures Lookup(Injected(s, svc, cm), Lookup(cm.annotations, "expose.config.fabric8.io/apiserver-key")) == s.apiServer != ""
  {
    hide Injected, AllWrites, Lookup;
    WritesMatch(s, svc, cm);
    Decided(s, svc, cm, 0, s.apiServer);
  }

  /** The URL of the API server goes under apiserver-url-key. */
  lemma ApiServerUrlEntry(s: Settings, svc: Service, cm: ConfigMap)
    requires Decides(s, svc, cm, "expose.config.fabric8.io/apiserver-url-key")
    ensures Lookup(Injected(s, svc, cm), Lookup(cm.annotations, "expose.config.fabric8.io/apiserver-url-key"))
         == s.apiServerProtocol + "://" + s.apiServer
  {
    hide Injected, AllWrites, Lookup;
    WritesMatch(s, svc, cm);
    Decided(s, svc, cm, 1, ApiServerUrl(s));
  }

  /** The protocol of the API server goes under apiserver-protocol-key. */
  lemma ProtocolEntry(s: Settings, svc: Service, cm: ConfigMap)
    requires Decides(s, svc, cm, "expose.config.fabric8.io/apiserver-protocol-key")
    ensures Lookup(Injected(s, svc, cm), Lookup(cm.annotations, "expose.config.fabric8.io/apiserver-protocol-key")) == s.apiServerProtocol
  {
    hide Injected, AllWrites, Lookup;
    WritesMatch(s, svc, cm);
    Decided(s, svc, cm, 3, s.apiServerProtocol);
  }

  /** The configured console URL, or else, on OpenShift, the one at the API server, goes under
      console-url-key. */
  lemma ConsoleEntry(s: Settings, svc: Service, cm: ConfigMap)
    requires Decides(s, svc, cm, "expose.config.fabric8.io/console-url-key")
    ensures Lookup(Injected(s, svc, cm), Lookup(cm.annotations, "expose.config.fabric8.io/console-url-key"))
         == if s.consoleUrl != "" then s.consoleUrl else TrimSuffix(s.apiServerProtocol + "://" + s.apiServer, "/") + "/console"
  {
    hide Injected, AllWrites, Lookup;
    WritesMatch(s, svc, cm);
    ConsoleIsWanted(s);
    ConsoleReads(s);
    hide ConsoleUrl;
    Decided(s, svc, cm, 2, ConsoleUrl(s));
  }

  /** Once OAuth is in use, the authorize URL goes under its key. */
  lemma AuthorizeEntry(s: Settings, svc: Service, cm: ConfigMap)
    requires Decides(s, svc, cm, "expose.config.fabric8.io/oauth-authorize-url-key")
    ensures Lookup(Injected(s, svc, cm), Lookup(cm.annotations, "expose.config.fabric8.io/oauth-authorize-url-key"))
         == s.authorizeUrl != ""
  {
    hide Injected, AllWrites, Lookup;
    WritesMatch(s, svc, cm);
    Decided(s, svc, cm, 4, s.authorizeUrl);
  }

  lemma ConsoleReads(s: Settings)
    requires s.consoleUrl != "" || (s.apiServer != "" && s.openShift)
    ensures ConsoleUrl(s) == if s.consoleUrl != "" then s.consoleUrl
                             else TrimSuffix(s.apiServerProtocol + "://" + s.apiServer, "/") + "/console"
  {
    var front := TrimSuffix(s.apiServerProtocol + "://" + s.apiServer, "/");
    assert TrimPrefix("/console", "/") == "console";
    assert front + "/" + "console" == front + "/console";
  }

  /** The first target port that is set, as a number or a name. */
  ghost predicate FirstPort(ports: seq<Port>, text: string) {
    exists i | 0 <= i < |ports| ::
      && IsSet(ports[i]) && (forall j | 0 <= j < i :: !IsSet(ports[j]))
      && text == if ports[i].targetPort.strVal != "" then ports[i].targetPort.strVal else Itoa(ports[i].targetPort.intVal)
  }

  lemma ServicePortIsFirst(ports: seq<Port>)
    requires exists p :: p in ports && IsSet(p)
    ensures FirstPort(ports, ServicePort(ports))
  {
    var i := FirstSet(ports);
    FirstPortIsTaken(ports, i);
  }

  lemma FirstSet(ports: seq<Port>) returns (i: nat)
    requires exists p :: p in ports && IsSet(p)
    ensures i < |ports| && IsSet(ports[i]) && forall j | 0 <= j < i :: !IsSet(ports[j])
  {
    i := 0;
    while !IsSet(ports[i])
      invariant i < |ports| && forall j | 0 <= j < i :: !IsSet(ports[j])
      decreases |ports| - i
    {
      i := i + 1;
    }
  }

  /** The cluster address goes under clusterip-key. */
  lemma ClusterIpEntry(s: Settings, svc: Service, cm: ConfigMap)
    requires Decides(s, svc, cm, "expose.config.fabric8.io/clusterip-key")
    ensures Lookup(Injected(s, svc, cm), Named(svc, cm, "expose.config.fabric8.io/clusterip-key")) == svc.clusterIP != ""
  {
    hide Injected, AllWrites, Lookup;
    WritesMatch(s, svc, cm);
    FirstOfTwo("expose.config.fabric8.io/clusterip-key", svc.annotations, cm.annotations);
    hide FirstValue, ServicePort;
    Decided(s, svc, cm, 5, svc.clusterIP);
  }

  /** The cluster address and the first target port that is set, with a colon between them,
      go under clusterip-port-key. */
  lemma ClusterIpPortEntry(s: Settings, svc: Service, cm: ConfigMap) returns (port: string)
    requires Decides(s, svc, cm, "expose.config.fabric8.io/clusterip-port-key")
    ensures FirstPort(svc.ports, port)
    ensures Lookup(Injected(s, svc, cm), Named(svc, cm, "expose.config.fabric8.io/clusterip-port-key")) == svc.clusterIP + ":" + port
  {
    port := ServicePort(svc.ports);
    WritesMatch(s, svc, cm);
    PortIsSet(svc.ports);
    FirstOfTwo("expose.config.fabric8.io/clusterip-port-key", svc.annotations, cm.annotations);
    hide Injected, AllWrites, Lookup, FirstValue, ServicePort, FirstPort;
    ServicePortIsFirst(svc.ports);
    Decided(s, svc, cm, 6, svc.clusterIP + ":" + port);
  }

  /** The same goes under clusterip-port-if-empty-key, if that entry is empty and no other
      annotation writes there; an entry that is not empty stays. */
  lemma ClusterIpPortIfEmptyEntry(s: Settings, svc: Service, cm: ConfigMap) returns (port: string)
    requires Decides(s, svc, cm, "expose.config.fabric8.io/clusterip-port-if-empty-key")
    requires forall j | 0 <= j < |NAMING| && NAMING[j] != "expose.config.fabric8.io/clusterip-port-if-empty-key" ::
      !WritesTo(s, svc, cm, j, Named(svc, cm, "expose.config.fabric8.io/clusterip-port-if-empty-key"))
    ensures FirstPort(svc.ports, port)
    ensures var key := Named(svc, cm, "expose.config.fabric8.io/clusterip-port-if-empty-key");
      Lookup(Injected(s, svc, cm), key) == if Lookup(cm.data, key) == "" then svc.clusterIP + ":" + port else Lookup(cm.data, key)
  {
    port := ServicePort(svc.ports);
    WritesMatch(s, svc, cm);
    PortIsSet(svc.ports);
    FirstOfTwo("expose.config.fabric8.io/clusterip-port-if-empty-key", svc.annotations, cm.annotations);
    hide Injected, AllWrites, Lookup, FirstValue, ServicePort, FirstPort, Unedited, IsSet, WritesTo, Matches;
    ServicePortIsFirst(svc.ports);
    DecidedIfEmpty(s, svc, cm, svc.clusterIP + ":" + port);
  }

  lemma DecidedIfEmpty(s: Settings, svc: Service, cm: ConfigMap, value: string)
    requires var writes, key := AllWrites(s, svc, cm.annotations), Named(svc, cm, NAMING[7]);
      && key != "" && Unedited(s, svc, key)
      && |writes| == |NAMING| && writes[7] == PutIfEmpty(key, value)
      && forall j | 0 <= j < |NAMING| && NAMING[j] != NAMING[7] :: !WritesTo(s, svc, cm, j, key)
    ensures var key := Named(svc, cm, NAMING[7]);
      Lookup(Injected(s, svc, cm), key) == if Lookup(cm.data, key) == "" then value else Lookup(cm.data, key)
  {
    var writes, key := AllWrites(s, svc, cm.annotations), Named(svc, cm, NAMING[7]);
    WritesMatch(s, svc, cm);
    UneditedStays(s, svc, cm, key);
    OnlyOnce();
    hide Injected, AllWrites, ServerWrites, ClusterWrites, UrlWrites, AppliedAll, Named, Wanted, Unedited, WritesTo;
    assert forall j | 0 <= j < 11 && j != 7 :: Matches(s, svc, cm, j, writes[j]) && NAMING[j] != NAMING[7];
    ConditionalWriteHolds(cm.data, writes, 7, key, value);
    SameRead(Injected(s, svc, cm), AppliedAll(cm.data, writes), key);
  }

  lemma OnlyOnce()
    ensures forall j | 0 <= j < |NAMING| && j != 7 :: NAMING[j] != NAMING[7]
  {
  }

  lemma SameRead(a: Dict, b: Dict, key: string)
    requires Read(a, key) == Read(b, key)
    ensures Lookup(a, key) == Lookup(b, key)
  {
  }

  /** An entry that no annotation writes to and no setting edits stays, absent or present. */
  lemma OtherEntriesStay(s: Settings, svc: Service, cm: ConfigMap, key: string)
    requires key == "" || forall i | 0 <= i < |NAMING| :: !WritesTo(s, svc, cm, i, key)
    requires Unedited(s, svc, key)
    ensures var data := Injected(s, svc, cm); (key in data <==> key in cm.data) && Lookup(data, key) == Lookup(cm.data, key)
  {
    var writes := AllWrites(s, svc, cm.annotations);
    WritesMatch(s, svc, cm);
    UneditedStays(s, svc, cm, key);
    WritesHaveKeys(s, svc, cm.annotations);
    hide AllWrites, AppliedAll, Injected, Wanted, Named, Unedited, WritesTo;
    forall i | 0 <= i < 11
      ensures !Touches(writes[i], key)
    {
      assert Matches(s, svc, cm, i, writes[i]);
    }
    UntouchedStays(cm.data, writes, key);
  }

  lemma WritesHaveKeys(s: Settings, svc: Service, annotations: Dict)
    ensures forall a | a in AllWrites(s, svc, annotations) :: !Touches(a, "")
  {
    hide FirstValue, ServicePort, UrlHost, UrlPath, ConsoleUrl, ApiServerUrl, Lookup;
  }

  // ---- The settings --------------------------------------------------------

  lemma {:induction false} LastSettingApplied(data: Dict, configs: seq<Lines.ConfigYaml>, values: Dict)
    requires configs != []
    ensures var front, c := configs[..|configs| - 1], configs[|configs| - 1];
      YamlApplied(data, configs, values) == Lines.Updated(c, YamlApplied(data, front, values), values)
    decreases |configs|
  {
    hide Lines.Updated;
    var front := configs[..|configs| - 1];
    if |configs| == 1 {
      assert configs[1..] == [] && front == [];
    } else {
      assert configs[1..][..|configs| - 2] == front[1..];
      LastSettingApplied(Lines.Updated(configs[0], data, values), configs[1..], values);
    }
  }

  /** The value of an expression in a setting. */
  function ValueOf(s: Settings, svc: Service, expression: string): string {
    var url := Lookup(svc.annotations, "fabric8.io/exposeUrl");
    if expression == "url" then url
    else if expression == "host" then (if s.parseUrl(url).Some? then s.parseUrl(url).value.host else "")
    else if expression == "apiserver" then s.apiServer
    else if expression == "apiserverURL" then (if s.apiServer == "" then "" else s.apiServerProtocol + "://" + s.apiServer)
    else if expression == "apiserverProtocol" then s.apiServerProtocol
    else if expression == "consoleURL" then
      (if s.consoleUrl == "" && s.apiServer != "" && s.openShift
       then TrimSuffix(s.apiServerProtocol + "://" + s.apiServer, "/") + "/console" else s.consoleUrl)
    else ""
  }

  lemma ValuesAre(s: Settings, svc: Service, expression: string)
    ensures Lookup(YamlValues(s, svc), expression) == ValueOf(s, svc, expression)
  {
    if s.consoleUrl == "" && s.apiServer != "" && s.openShift {
      ConsoleReads(s);
    }
    hide Annotations.JoinUrl, TrimSuffix;
  }

  /** The settings are run in order: the last of them finds the data as those before it
      left them. In the entry that it is about, if that and the value of its expression are
      not empty, every line that starts with its prefix becomes prefix, value and suffix, the
      other lines stay, and a newline follows the last one. Nothing else changes. */
  lemma SettingsRunInOrder(s: Settings, svc: Service, cm: ConfigMap) returns (lines: seq<string>)
    requires Edits(s, svc) != []
    ensures var n, edits := |Edits(s, svc)|, Edits(s, svc);
      var c, before := edits[n - 1], Injected(s.(parseYaml := _ => Some(edits[..n - 1])), svc, cm);
      var was, value := Split(Lookup(before, c.key), '\n'), ValueOf(s, svc, c.expression);
      && |lines| == |was|
      && (forall i | 0 <= i < |lines| :: lines[i] == if HasPrefix(was[i], c.prefix) then c.prefix + value + c.suffix else was[i])
      && Injected(s, svc, cm)
         == if c.key == "" || Lookup(before, c.key) == "" || value == "" then before
            else before[c.key := Join(lines, '\n') + "\n"]
  {
    var n, edits := |Edits(s, svc)|, Edits(s, svc);
    var before := Injected(s.(parseYaml := _ => Some(edits[..n - 1])), svc, cm);
    OneMoreSetting(s, svc, cm, edits[..n - 1], edits[n - 1]);
    ValuesAre(s, svc, edits[n - 1].expression);
    hide YamlValues, ValueOf, Edits, Split, Join, Injected;
    lines := Lines.SettingRewritesItsEntry(edits[n - 1], before, YamlValues(s, svc));
    hide Lines.Updated;
  }

  lemma OneMoreSetting(s: Settings, svc: Service, cm: ConfigMap, front: seq<Lines.ConfigYaml>, c: Lines.ConfigYaml)
    requires Edits(s, svc) == front + [c]
    ensures Injected(s, svc, cm) == Lines.Updated(c, Injected(s.(parseYaml := _ => Some(front)), svc, cm), YamlValues(s, svc))
  {
    var s', data := s.(parseYaml := _ => Some(front)), AppliedAll(cm.data, AllWrites(s, svc, cm.annotations));
    assert YamlSettings(s, svc) == front + [c] && YamlSettings(s', svc) == front;
    assert (front + [c])[..|front|] == front;
    SameBeforeSettings(s, svc, cm.annotations, s'.parseYaml);
    hide AllWrites, AppliedAll, YamlValues, YamlSettings, YamlApplied, Edits, Lines.Updated;
    assert Injected(s', svc, cm) == YamlApplied(data, front, YamlValues(s, svc));
    LastSettingApplied(data, front + [c], YamlValues(s, svc));
  }

  lemma SameBeforeSettings(s: Settings, svc: Service, annotations: Dict, parseYaml: string -> Option<seq<Lines.ConfigYaml>>)
    ensures AllWrites(s.(parseYaml := parseYaml), svc, annotations) == AllWrites(s, svc, annotations)
    ensures YamlValues(s.(parseYaml := parseYaml), svc) == YamlValues(s, svc)
  {
    hide Lookup, Annotations.JoinUrl, FirstValue, ServicePort;
  }

  // ---- What is stored and rolled -------------------------------------------

  /** The injected data are stored whenever the map can be read, has data, and its update is
      not refused, whether the flag was set or not; no other config map ever changes. */
  lemma OwnMapIsStored(s: Settings, svc: Service, f: MapFaults, maps: map<Key, ConfigMap>)
    ensures var key := Key(svc.namespace, svc.name);
      MapsAfter(s, svc, f, maps)
      == if f.lost || f.refused || key !in maps || maps[key].data == map[] then maps
         else maps[key := maps[key].(data := Injected(s, svc, maps[key]))]
  {
    hide Injected, InjectedFlag;
    var key := svc.Id();
    if key in maps && !InjectedFlag(s, svc, maps[key]) {
      UnsetFlagMeansUnchanged(s, svc, maps[key]);
      assert maps == maps[key := maps[key].(data := maps[key].data)];
    }
  }

  lemma {:induction false} SettingsKeepEntries(data: Dict, configs: seq<Lines.ConfigYaml>, values: Dict)
    ensures YamlApplied(data, configs, values).Keys == data.Keys
    ensures YamlFlagged(data, configs, values) ==> data != map[]
    decreases |configs|
  {
    hide Lines.Rewrite;
    if configs != [] {
      SettingsKeepEntries(Lines.Updated(configs[0], data, values), configs[1..], values);
    }
  }

  /** Handling the config map panics exactly when it can be read, has no data, and the
      injection would add an entry to it. */
  lemma PanicsIffAnEntryIsAdded(s: Settings, svc: Service, f: MapFaults, maps: map<Key, ConfigMap>)
    ensures var key := Key(svc.namespace, svc.name);
      Panics(s, svc, f, maps)
      <==> !f.lost && key in maps && maps[key].data == map[] && Injected(s, svc, maps[key]) != map[]
  {
    var key := svc.Id();
    if !f.lost && key in maps && maps[key].data == map[] {
      var writes := AllWrites(s, svc, maps[key].annotations);
      FlagFillsEmptyData(writes);
      SettingsKeepEntries(AppliedAll(map[], writes), YamlSettings(s, svc), YamlValues(s, svc));
      hide AllWrites, AppliedAll, YamlSettings, YamlValues, YamlApplied, YamlFlagged, Flagged;
      assert Injected(s, svc, maps[key]).Keys == AppliedAll(map[], writes).Keys;
    } else {
      hide InjectedFlag, Injected;
    }
  }

  /** When the data of the service's config map change, stored or not, and no deployment
      refuses its update, all containers of every deployment of the namespace that lists the
      map carry the token of the new data, and all other deployments stay; a map that cannot
      be read or has no data rolls nothing. */
  lemma ChangedDataReachTheDeployments(
    s: Settings, svc: Service, f: MapFaults, maps: map<Key, ConfigMap>,
    deployments: map<Key, Deployment>, deployments': map<Key, Deployment>, names: seq<string>, done: nat)
    requires DeploymentsFollow(s, svc, f, maps, deployments, deployments', names, done)
    ensures var key := Key(svc.namespace, svc.name);
      if f.lost || key !in maps || maps[key].data == map[] then deployments' == deployments
      else f.broken == {} && Injected(s, svc, maps[key]) != maps[key].data ==>
        && deployments'.Keys == deployments.Keys
        && forall d | d in deployments ::
             if d.namespace == svc.namespace && svc.name in Rollouts.ListedMaps(deployments[d])
             then Rollouts.DeploymentFollows(deployments[d], deployments'[d], Tokens.Token(Injected(s, svc, maps[key])))
             else deployments'[d] == deployments[d]
  {
    var key := svc.Id();
    hide Injected, InjectedFlag, Rollouts.RolledOut, Rollouts.ListedMaps, Rollouts.DeploymentFollows, Tokens.Token;
    if !f.lost && key in maps && maps[key].data != map[] && f.broken == {} && Injected(s, svc, maps[key]) != maps[key].data {
      assert InjectedFlag(s, svc, maps[key]) by { if !InjectedFlag(s, svc, maps[key]) { UnsetFlagMeansUnchanged(s, svc, maps[key]); } }
      var token := Tokens.Token(Injected(s, svc, maps[key]));
      NothingRefused(deployments, deployments', svc.namespace, svc.name, token, names, done);
      Rollouts.CompleteRollout(deployments, deployments', svc.namespace, svc.name, token, {}, names);
    }
  }

  lemma NothingRefused(
    was: map<Key, Deployment>, now: map<Key, Deployment>, namespace: string, configMap: string, token: string,
    names: seq<string>, done: nat)
    requires Rollouts.RolledOut(was, now, namespace, configMap, token, {}, names, done)
    ensures done == |names|
  {
    hide Rollouts.UpgradedUpTo;
  }
}
