/** The ingress strategy: several services may share one ingress, whose single rule
    lists their backends, the newest first. */
module Ingresses {
  import opened Text
  import opened Objects
  import opened ApiServer
  import opened Annotations
  import Paths
  import Templates

  /** The fields of IngressStrategy; `format` is the compiled URL template. */
  datatype Config = Config(
    domain: string, internalDomain: string, tlsSecretName: string, tlsUseWildcard: bool, tlsAcme: bool,
    format: string, pathMode: string, ingressClass: string)

  const PATH_MODE_USE_PATH := "path"

  // ---- Names, hosts and paths ----------------------------------------------

  /** The service's name without its release prefix. */
  function DefaultName(svc: Service): string {
    var release := Lookup(svc.labels, "release");
    if release != "" then ReplaceFirst(svc.name, release + "-", "") else svc.name
  }

  function AppName(svc: Service): string {
    var name := Lookup(svc.annotations, ANN_INGRESS_NAME);
    if name != "" then name else DefaultName(svc)
  }

  /** The ingress that Add writes. */
  function AddKey(svc: Service): Key {
    Key(svc.namespace, AppName(svc))
  }

  /** The ingress that Remove deletes: the name annotation is not consulted. */
  function RemoveKey(svc: Service): Key {
    Key(svc.namespace, DefaultName(svc))
  }

  function DomainOf(cfg: Config, svc: Service): string {
    if Lookup(svc.annotations, ANN_INTERNAL) == "true" then cfg.internalDomain else cfg.domain
  }

  predicate IsPathMode(cfg: Config, mode: string) {
    (if mode == "" then cfg.pathMode else mode) == PATH_MODE_USE_PATH
  }

  predicate UsesPath(cfg: Config, svc: Service) {
    IsPathMode(cfg, Lookup(svc.annotations, ANN_PATH_MODE))
  }

  /** The host in host mode. */
  function TemplateHost(cfg: Config, svc: Service): string {
    var name := Lookup(svc.annotations, ANN_HOST_NAME);
    Templates.Sprintf(cfg.format, if name == "" then AppName(svc) else name, svc.namespace, DomainOf(cfg, svc))
  }

  /** With the format compiled from a template, a service gets the host that the template
      renders for its name, its namespace and its domain, exactly when there is a field. */
  lemma HostIsRendered(cfg: Config, template: seq<Templates.Token>, svc: Service)
    requires cfg.format == Templates.UrlFormat(template) && Templates.PercentFree(template)
    ensures var name := Lookup(svc.annotations, ANN_HOST_NAME);
      TemplateHost(cfg, svc) == Templates.Render(
          Templates.Effective(template), if name == "" then AppName(svc) else name, svc.namespace, DomainOf(cfg, svc))
      <==> Templates.HasField(Templates.Effective(template))
  {
    hide ReplaceFirst;
    var name := Lookup(svc.annotations, ANN_HOST_NAME);
    Templates.CompilationPreservesMeaning(
      template, if name == "" then AppName(svc) else name, svc.namespace, DomainOf(cfg, svc));
  }

  function Suffix(svc: Service): string {
    var path := Lookup(svc.annotations, ANN_INGRESS_PATH);
    if path == "" then "/" else path
  }

  function PathOf(cfg: Config, svc: Service): string {
    if UsesPath(cfg, svc) then Paths.AppPath(svc.namespace, AppName(svc), Suffix(svc))
    else Lookup(svc.annotations, ANN_INGRESS_PATH)
  }

  /** The ingress name and path an Add of this service aims at. */
  function Target(cfg: Config, svc: Service): (string, string) {
    (AppName(svc), PathOf(cfg, svc))
  }

  function RuleHost(cfg: Config, svc: Service): string {
    if UsesPath(cfg, svc) then DomainOf(cfg, svc) else TemplateHost(cfg, svc)
  }

  function FullHost(cfg: Config, svc: Service): string {
    if UsesPath(cfg, svc) then Paths.UrlJoined([DomainOf(cfg, svc), PathOf(cfg, svc)]) else TemplateHost(cfg, svc)
  }

  function TlsHost(cfg: Config, svc: Service): string {
    if cfg.tlsUseWildcard then "*." + DomainOf(cfg, svc) else TemplateHost(cfg, svc)
  }

  predicate TlsEnabled(cfg: Config, svc: Service) {
    Lookup(svc.annotations, ANN_SKIP_TLS) != "true" && (cfg.tlsSecretName != "" || cfg.tlsAcme)
  }

  /** The secret named in the TLS entry: none at all unless ACME is on. */
  function TlsSecret(cfg: Config, svc: Service): string {
    if !cfg.tlsAcme then ""
    else if cfg.tlsSecretName == "" then "tls-" + AppName(svc) else cfg.tlsSecretName
  }

  // ---- Annotations and owners of the ingress -------------------------------

  /** `strings.SplitN(line, ":", 2)`, or `None` when there is no second part. */
  function CutAtColon(line: string): Option<(string, string)> {
    match Index(line, ":")
    case None => None
    case Some(i) => Some((line[..i], line[i + 1..]))
  }

  /** Setting one annotation a line; `None` when a line has no colon. */
  function WithLines(annotations: Dict, lines: seq<string>): Option<Dict>
    decreases |lines|
  {
    if lines == [] then Some(annotations)
    else match CutAtColon(lines[0])
         case None => None
         case Some((key, value)) => WithLines(annotations[key := TrimSpace(value)], lines[1..])
  }

  /** The lines of the service's ingress.annotations. */
  function ExtraLines(svc: Service): seq<string> {
    var text := Lookup(svc.annotations, ANN_INGRESS_ANNOTATIONS);
    if text == "" then [] else Split(text, '\n')
  }

  function WithDefault(annotations: Dict, key: string, value: string): Dict {
    if Lookup(annotations, key) == "" then annotations[key := value] else annotations
  }

  /** The annotations Add sets itself, before the service's own lines. */
  function OwnAnnotations(cfg: Config, svc: Service, annotations: Dict): Dict {
    var a := if annotations == map[] then map[ANN_GENERATED_BY := GENERATOR] else annotations;
    var b := if cfg.ingressClass == "" then a
             else a[ANN_CLASS := cfg.ingressClass][ANN_NGINX_CLASS := cfg.ingressClass];
    var c := if UsesPath(cfg, svc) then WithDefault(WithDefault(b, ANN_CLASS, "nginx"), ANN_NGINX_CLASS, "nginx") else b;
    if cfg.tlsAcme then c[ANN_TLS_ACME := "true"] else c
  }

  predicate HasOwner(owners: seq<Owner>, uid: string) {
    exists i | 0 <= i < |owners| :: owners[i].uid == uid
  }

  function WithOwner(owners: seq<Owner>, svc: Service): seq<Owner> {
    if HasOwner(owners, svc.uid) then owners else owners + [Owner(svc.name, svc.uid)]
  }

  // ---- Backends ------------------------------------------------------------

  /** The backends of the first rule; `None` when that rule is not an HTTP rule. */
  function Backends(ingress: Ingress): Option<seq<IngressPath>> {
    if ingress.rules == [] then Some([]) else ingress.rules[0].http
  }

  /** An Add to this ingress does not crash on its first rule. */
  predicate Usable(ingresses: map<Key, Ingress>, key: Key) {
    key in ingresses ==> Backends(ingresses[key]).Some?
  }

  ghost predicate AllUsable(ingresses: map<Key, Ingress>) {
    forall key :: Usable(ingresses, key)
  }

  predicate Listed(paths: seq<IngressPath>, service: string, path: string) {
    exists i | 0 <= i < |paths| :: paths[i].service == service && paths[i].path == path
  }

  predicate Declares(ports: seq<Port>, port: int) {
    exists i | 0 <= i < |ports| :: ports[i].port == port
  }

  /** The exposed port: the annotated one if the service declares it, else the first. */
  function ExposedPort(svc: Service): Option<int> {
    var wanted := Atoi(Lookup(svc.annotations, ANN_PORT));
    if wanted.Some? && Declares(svc.ports, wanted.value) then wanted
    else if svc.ports == [] then None
    else Some(svc.ports[0].port)
  }

  // ---- Add and Remove as functions -----------------------------------------

  const NEW_INGRESS := Ingress(map[], map[], [], [], [])

  /** What Add decides to do: nothing because the backend is listed, crash, or write. */
  datatype Plan = AlreadyListed | Crash | Write(ingress: Ingress)

  function Planned(cfg: Config, svc: Service, found: Option<Ingress>): Plan {
    var base := if found.Some? then found.value else NEW_INGRESS;
    match WithLines(OwnAnnotations(cfg, svc, base.annotations), ExtraLines(svc))
    case None => Crash
    case Some(annotations) =>
      match Backends(base)
      case None => Crash
      case Some(paths) =>
        if Listed(paths, svc.name, PathOf(cfg, svc)) then AlreadyListed
        else match ExposedPort(svc)
             case None => Crash
             case Some(port) => Write(Written(cfg, svc, base, annotations, paths, port))
  }

  function Written(cfg: Config, svc: Service, base: Ingress, annotations: Dict, paths: seq<IngressPath>, port: int): Ingress {
    Ingress(
      if base.labels == map[] then map["provider" := "fabric8"] else base.labels,
      annotations,
      WithOwner(base.owners, svc),
      [Rule(RuleHost(cfg, svc), Some([IngressPath(svc.name, port, PathOf(cfg, svc))] + paths))],
      if TlsEnabled(cfg, svc) then [TlsEntry(TlsHost(cfg, svc), TlsSecret(cfg, svc))] else base.tls)
  }

  function Find<V>(m: map<Key, V>, key: Key): Option<V> {
    if key in m then Some(m[key]) else None
  }

  /** Whether an Add gets as far as storing its ingress. */
  predicate Lands(cfg: Config, ingresses: map<Key, Ingress>, svc: Service, faults: Faults) {
    !faults.get && !faults.write && Planned(cfg, svc, Find(ingresses, AddKey(svc))).Write?
  }

  function AfterAdd(cfg: Config, ingresses: map<Key, Ingress>, svc: Service, faults: Faults): map<Key, Ingress> {
    if Lands(cfg, ingresses, svc, faults)
    then ingresses[AddKey(svc) := Planned(cfg, svc, Find(ingresses, AddKey(svc))).ingress]
    else ingresses
  }

  /** The service as a successful Add rewrites it. */
  function Exposed(cfg: Config, svc: Service): Service {
    svc.(annotations := Annotated(svc.annotations, FullHost(cfg, svc), if TlsEnabled(cfg, svc) then "https" else "http"))
  }

  function Unexposed(svc: Service): Service {
    svc.(annotations := Stripped(svc.annotations))
  }

  function ServicesAfterAdd(cfg: Config, ingresses: map<Key, Ingress>, services: map<Key, Service>, svc: Service, faults: Faults)
    : map<Key, Service>
  {
    if Lands(cfg, ingresses, svc, faults) then Patched(services, svc, Exposed(cfg, svc), faults.patch) else services
  }

  function AddStatus(cfg: Config, ingresses: map<Key, Ingress>, services: map<Key, Service>, svc: Service, faults: Faults): Status {
    if faults.get then Failed
    else match Planned(cfg, svc, Find(ingresses, AddKey(svc)))
         case Crash => Panicked
         case AlreadyListed => Done
         case Write(_) =>
           if faults.write || !PatchOk(services, svc, Exposed(cfg, svc), faults.patch) then Failed else Done
  }

  function AfterRemove(ingresses: map<Key, Ingress>, svc: Service, faults: Faults): map<Key, Ingress> {
    if faults.write then ingresses else Without(ingresses, RemoveKey(svc))
  }

  function ServicesAfterRemove(services: map<Key, Service>, svc: Service, faults: Faults): map<Key, Service> {
    if faults.write then services else Patched(services, svc, Unexposed(svc), faults.patch)
  }

  // ---- The strategy --------------------------------------------------------

  class IngressStrategy {
    const server: ApiServer
    const config: Config

    /** NewIngressStrategy with a known domain; the template is compiled once. */
    constructor (server: ApiServer, config: Config, template: seq<Templates.Token>)
      ensures this.server == server
      ensures this.config == config.(format := Templates.UrlFormat(template))
    {
      this.server := server;
      this.config := config.(format := Templates.UrlFormat(template));
    }

    method Add(svc: Service, faults: Faults) returns (status: Status)
      modifies server`ingresses, server`services
      ensures server.ingresses == AfterAdd(config, old(server.ingresses), svc, faults)
      ensures server.services == ServicesAfterAdd(config, old(server.ingresses), old(server.services), svc, faults)
      ensures status == AddStatus(config, old(server.ingresses), old(server.services), svc, faults)
    {
      hide Planned, TemplateHost, PathOf, TlsHost, Paths.UrlJoined, Annotated;
      var appName := Lookup(svc.annotations, ANN_INGRESS_NAME);
      if appName == "" {
        var release := Lookup(svc.labels, "release");
        appName := if release != "" then ReplaceFirst(svc.name, release + "-", "") else svc.name;
      }
      var hostName, fullHostName, tlsHostName, path, usesPath := Names(svc, appName);

      var key := Key(svc.namespace, appName);
      if faults.get {
        return Failed;
      }
      var found := server.GetIngress(key);
      var plan := Assemble(svc, found, hostName, tlsHostName, path, usesPath, appName);
      if plan.Crash? {
        return Panicked;
      }
      if plan.AlreadyListed? {
        return Done;
      }
      var ok;
      if found.None? {
        ok := server.CreateIngress(key, plan.ingress, faults.write);
      } else {
        ok := server.UpdateIngress(key, plan.ingress, faults.write);
      }
      if !ok {
        return Failed;
      }
      var clone := AddServiceAnnotationWithProtocol(svc, fullHostName, if TlsEnabled(config, svc) then "https" else "http");
      ok := server.PatchService(svc, clone, faults.patch);
      status := if ok then Done else Failed;
    }

    /** Everything Add does to the ingress in memory before it writes it. */
    method Assemble(
      svc: Service, found: Option<Ingress>, hostName: string, tlsHostName: string, path: string, usesPath: bool, appName: string)
      returns (plan: Plan)
      requires appName == AppName(svc) && hostName == RuleHost(config, svc) && tlsHostName == TlsHost(config, svc)
      requires path == PathOf(config, svc) && usesPath == UsesPath(config, svc)
      ensures plan == Planned(config, svc, found)
    {
      var ingress := if found.Some? then found.value else NEW_INGRESS;
      if ingress.labels == map[] {
        ingress := ingress.(labels := map["provider" := "fabric8"]);
      }
      ingress := OwnIngress(svc, ingress, usesPath);
      var tlsSecretName := "";
      if config.tlsAcme {
        tlsSecretName := if config.tlsSecretName == "" then "tls-" + appName else config.tlsSecretName;
      }
      var annotations := AddLines(svc, ingress.annotations);
      if annotations.None? {
        return Crash;
      }
      ingress := ingress.(annotations := annotations.value);

      var backendPaths: seq<IngressPath> := [];
      if ingress.rules != [] {
        if ingress.rules[0].http.None? {
          return Crash;
        }
        backendPaths := ingress.rules[0].http.value;
      }
      var listed := FindBackend(backendPaths, svc.name, path);
      if listed {
        return AlreadyListed;
      }
      var port := ChoosePort(svc);
      if port.None? {
        return Crash;
      }
      var ingressPaths := [IngressPath(svc.name, port.value, path)] + backendPaths;
      ingress := ingress.(rules := [Rule(hostName, Some(ingressPaths))]);
      if TlsEnabled(config, svc) {
        ingress := ingress.(tls := [TlsEntry(tlsHostName, tlsSecretName)]);
      }
      plan := Write(ingress);
    }

    /** The host names and the path of a service, worked out step by step. */
    method Names(svc: Service, appName: string)
      returns (hostName: string, fullHostName: string, tlsHostName: string, path: string, usesPath: bool)
      requires appName == AppName(svc)
      ensures hostName == RuleHost(config, svc) && fullHostName == FullHost(config, svc)
      ensures tlsHostName == TlsHost(config, svc) && path == PathOf(config, svc) && usesPath == UsesPath(config, svc)
    {
      hide Lookup, DefaultName, Templates.Sprintf, Paths.UrlJoined;
      hostName := Lookup(svc.annotations, ANN_HOST_NAME);
      if hostName == "" {
        hostName := appName;
      }
      var domain := config.domain;
      if Lookup(svc.annotations, ANN_INTERNAL) == "true" {
        domain := config.internalDomain;
      }
      hostName := Templates.Sprintf(config.format, hostName, svc.namespace, domain);
      tlsHostName := hostName;
      if config.tlsUseWildcard {
        tlsHostName := "*." + domain;
      }
      fullHostName := hostName;
      path := Lookup(svc.annotations, ANN_INGRESS_PATH);
      var pathMode := Lookup(svc.annotations, ANN_PATH_MODE);
      if pathMode == "" {
        pathMode := config.pathMode;
      }
      usesPath := pathMode == PATH_MODE_USE_PATH;
      if usesPath {
        var suffix := path;
        if |suffix| == 0 {
          suffix := "/";
        }
        path := Paths.UrlJoin(["/", svc.namespace, appName, suffix]);
        hostName := domain;
        fullHostName := Paths.UrlJoin([hostName, path]);
      }
    }

    /** The generated-by mark of a new ingress, the owner entry, and the annotations
        that the configuration asks for. */
    method OwnIngress(svc: Service, start: Ingress, usesPath: bool) returns (ingress: Ingress)
      requires usesPath == UsesPath(config, svc)
      ensures ingress == start.(
        annotations := OwnAnnotations(config, svc, start.annotations), owners := WithOwner(start.owners, svc))
    {
      ingress := start;
      if ingress.annotations == map[] {
        ingress := ingress.(annotations := map[ANN_GENERATED_BY := GENERATOR]);
      }
      var hasOwner := false;
      for i := 0 to |ingress.owners|
        invariant !hasOwner && !HasOwner(ingress.owners[..i], svc.uid)
      {
        if ingress.owners[i].uid == svc.uid {
          hasOwner := true;
          break;
        }
      }
      assert ingress.owners[..|ingress.owners|] == ingress.owners;
      if !hasOwner {
        ingress := ingress.(owners := ingress.owners + [Owner(svc.name, svc.uid)]);
      }
      if config.ingressClass != "" {
        ingress := ingress.(annotations := ingress.annotations[ANN_CLASS := config.ingressClass]);
        ingress := ingress.(annotations := ingress.annotations[ANN_NGINX_CLASS := config.ingressClass]);
      }
      if usesPath {
        ingress := ingress.(annotations := WithDefault(ingress.annotations, ANN_CLASS, "nginx"));
        ingress := ingress.(annotations := WithDefault(ingress.annotations, ANN_NGINX_CLASS, "nginx"));
      }
      if config.tlsAcme {
        ingress := ingress.(annotations := ingress.annotations[ANN_TLS_ACME := "true"]);
      }
    }

    /** Applies the service's annotation lines in order; `None` is the panic on a line without a colon. */
    method AddLines(svc: Service, start: Dict) returns (r: Option<Dict>)
      ensures r == WithLines(start, ExtraLines(svc))
    {
      var annotations := start;
      var text := Lookup(svc.annotations, ANN_INGRESS_ANNOTATIONS);
      if text != "" {
        var lines := Split(text, '\n');
        for i := 0 to |lines|
          invariant WithLines(annotations, lines[i..]) == WithLines(start, lines)
        {
          assert lines[i..][0] == lines[i] && lines[i..][1..] == lines[i + 1..];
          var cut := CutAtColon(lines[i]);
          if cut.None? {
            return None;
          }
          annotations := annotations[cut.value.0 := TrimSpace(cut.value.1)];
        }
      }
      r := Some(annotations);
    }

    method FindBackend(paths: seq<IngressPath>, service: string, path: string) returns (found: bool)
      ensures found == Listed(paths, service, path)
    {
      for i := 0 to |paths|
        invariant !Listed(paths[..i], service, path)
      {
        if paths[i].service == service && paths[i].path == path {
          return true;
        }
      }
      assert paths[..|paths|] == paths;
      found := false;
    }

    /** The port to expose; `None` is the panic on a service without ports. */
    method ChoosePort(svc: Service) returns (r: Option<int>)
      ensures r == ExposedPort(svc)
      ensures r.Some? ==> Declares(svc.ports, r.value)
    {
      var exposePort := Lookup(svc.annotations, ANN_PORT);
      if exposePort != "" {
        var port := Atoi(exposePort);
        if port.Some? {
          var found := false;
          for i := 0 to |svc.ports|
            invariant !found && !Declares(svc.ports[..i], port.value)
          {
            if port.value == svc.ports[i].port {
              found := true;
              break;
            }
          }
          assert svc.ports[..|svc.ports|] == svc.ports;
          if !found {
            exposePort := "";
          }
        } else {
          exposePort := "";
        }
      }
      if exposePort == "" {
        if svc.ports == [] {
          return None;
        }
        exposePort := Itoa(svc.ports[0].port);
        AtoiItoa(svc.ports[0].port);
      }
      r := Atoi(exposePort);
    }

    method Remove(svc: Service, faults: Faults) returns (status: Status)
      modifies server`ingresses, server`services
      ensures server.ingresses == AfterRemove(old(server.ingresses), svc, faults)
      ensures server.services == ServicesAfterRemove(old(server.services), svc, faults)
      ensures status == if faults.write || !PatchOk(old(server.services), svc, Unexposed(svc), faults.patch) then Failed else Done
    {
      var release := Lookup(svc.labels, "release");
      var appName := svc.name;
      if release != "" {
        appName := ReplaceFirst(svc.name, release + "-", "");
      }
      var ok := server.DeleteIngress(Key(svc.namespace, appName), faults.write);
      if !ok {
        return Failed;
      }
      var clone := RemoveServiceAnnotation(svc);
      ok := server.PatchService(svc, clone, faults.patch);
      status := if ok then Done else Failed;
    }
  }
}
