/** What Add and Remove of the ingress strategy leave in the cluster, read off the stored
    objects: which ingress is written, what its rule, its TLS entry and its annotations
    say, and that the service is told the address which that rule serves. */
module Addresses {
  import opened Text
  import opened Objects
  import opened ApiServer
  import opened Annotations
  import opened Ingresses
  import opened IngressRuns
  import Paths
  import Templates

  // ---- What the service and the configuration ask for ----------------------

  /** The service's path mode, or the configured one. */
  predicate InPathMode(cfg: Config, svc: Service) {
    var mode := Lookup(svc.annotations, "fabric8.io/path.mode");
    (mode == "" && cfg.pathMode == "path") || mode == "path"
  }

  predicate Secured(cfg: Config, svc: Service) {
    Lookup(svc.annotations, "jenkins-x.io/skip.tls") != "true" && (cfg.tlsSecretName != "" || cfg.tlsAcme)
  }

  function Domain(cfg: Config, svc: Service): string {
    if Lookup(svc.annotations, "fabric8.io/use.internal.domain") == "true" then cfg.internalDomain else cfg.domain
  }

  /** The ingress is named by the annotation, or else like the service without its release prefix. */
  ghost predicate Names(svc: Service, name: string) {
    var given := Lookup(svc.annotations, "fabric8.io/ingress.name");
    if given != "" then name == given else NamesByDefault(svc, name)
  }

  /** The first "release-" in the name goes, if the service has a release label that occurs there. */
  ghost predicate NamesByDefault(svc: Service, name: string) {
    var release := Lookup(svc.labels, "release");
    if release == "" then name == svc.name
    else
      || (!Contains(svc.name, release + "-") && name == svc.name)
      || exists a, b :: svc.name == a + (release + "-") + b && name == a + b
                        && forall j: nat | j < |a| :: !OccursAt(svc.name, release + "-", j)
  }

  /** The lines that the service adds to the annotations of its ingress. */
  function OwnLines(svc: Service): seq<string> {
    var text := Lookup(svc.annotations, "fabric8.io/ingress.annotations");
    if text == "" then [] else Split(text, '\n')
  }

  lemma DefaultNameNames(svc: Service)
    ensures NamesByDefault(svc, DefaultName(svc))
  {
    var release := Lookup(svc.labels, "release");
    if release != "" {
      var from := release + "-";
      match Index(svc.name, from) {
        case None =>
        case Some(i) =>
          var a, b := svc.name[..i], svc.name[i + |from|..];
          assert svc.name == a + from + b;
          assert ReplaceFirst(svc.name, from, "") == a + "" + b;
          assert a + "" + b == a + b;
      }
    }
  }

  lemma AddKeyNames(svc: Service)
    ensures AddKey(svc).namespace == svc.namespace && Names(svc, AddKey(svc).name)
  {
    DefaultNameNames(svc);
  }

  // ---- The ingress that is written -----------------------------------------

  function Old(ingresses: map<Key, Ingress>, key: Key): Ingress {
    if key in ingresses then ingresses[key] else Ingress(map[], map[], [], [], [])
  }

  /** The port that the service asks for if it declares it, else its first one. */
  predicate Exposes(svc: Service, port: int) {
    var wanted := Atoi(Lookup(svc.annotations, "fabric8.io/exposePort"));
    if wanted.Some? && exists p :: p in svc.ports && p.port == wanted.value then port == wanted.value
    else svc.ports != [] && port == svc.ports[0].port
  }

  lemma ExposedPortExposes(svc: Service)
    requires svc.ports != []
    ensures ExposedPort(svc).Some? && Exposes(svc, ExposedPort(svc).value)
  {
    hide Atoi;
    if wanted :| Atoi(Lookup(svc.annotations, "fabric8.io/exposePort")) == Some(wanted) && Declares(svc.ports, wanted) {
      var i :| 0 <= i < |svc.ports| && svc.ports[i].port == wanted;
      assert svc.ports[i] in svc.ports;
    }
  }

  /** An Add that lands writes one ingress, in the namespace of the service and under the
      name it asks for. Its one rule has a backend for the service in front, with the port
      and, in host mode, the path it asks for; the old backends stay behind it. The host is
      the domain in path mode, and else what the format makes of the service's host name, or
      of the name of the ingress. */
  lemma StoredRule(cfg: Config, ingresses: map<Key, Ingress>, svc: Service, faults: Faults)
    requires Lands(cfg, ingresses, svc, faults)
    ensures var after, key := AfterAdd(cfg, ingresses, svc, faults), AddKey(svc);
      && key.namespace == svc.namespace && Names(svc, key.name)
      && key in after && after == ingresses[key := after[key]]
      && var old', rules := Old(ingresses, key).rules, after[key].rules;
         && |rules| == 1 && rules[0].http.Some? && rules[0].http.value != []
         && (old' != [] ==> old'[0].http.Some?)
         && rules[0].http.value[1..] == (if old' == [] then [] else old'[0].http.value)
         && var front := rules[0].http.value[0];
            && front.service == svc.name && Exposes(svc, front.port)
            && (!InPathMode(cfg, svc) ==> front.path == Lookup(svc.annotations, "fabric8.io/ingress.path"))
  {
    hide WithLines, AppName, ExposedPort, OwnAnnotations, TlsHost, RuleHost, DefaultName, Exposes, Atoi, Paths.AppPath;
    AddKeyNames(svc);
    if svc.ports != [] {
      ExposedPortExposes(svc);
    } else {
      PortsNeeded(cfg, ingresses, svc, faults);
    }
    hide Names;
  }

  lemma PortsNeeded(cfg: Config, ingresses: map<Key, Ingress>, svc: Service, faults: Faults)
    requires Lands(cfg, ingresses, svc, faults)
    ensures svc.ports != []
  {
    if svc.ports == [] {
      MalformedNeverLands(cfg, ingresses, svc, faults);
    }
  }

  lemma StoredHost(cfg: Config, ingresses: map<Key, Ingress>, svc: Service, faults: Faults)
    requires Lands(cfg, ingresses, svc, faults)
    ensures var key := AddKey(svc);
      var stored, given := AfterAdd(cfg, ingresses, svc, faults)[key], Lookup(svc.annotations, "fabric8.io/host.name");
      && |stored.rules| == 1
      && stored.rules[0].host ==
           if InPathMode(cfg, svc) then Domain(cfg, svc)
           else Templates.Sprintf(cfg.format, if given == "" then key.name else given, svc.namespace, Domain(cfg, svc))
  {
    hide WithLines, AppName, ExposedPort, OwnAnnotations, TlsHost, Templates.Sprintf, PathOf;
  }

  /** In path mode, for names without slashes, the path is made of namespace, name and suffix. */
  lemma StoredPath(cfg: Config, ingresses: map<Key, Ingress>, svc: Service, faults: Faults)
    requires Lands(cfg, ingresses, svc, faults)
    ensures var key := AddKey(svc);
      var stored := AfterAdd(cfg, ingresses, svc, faults)[key];
      && |stored.rules| == 1 && stored.rules[0].http.Some? && stored.rules[0].http.value != []
      && (InPathMode(cfg, svc) && svc.namespace != "" && '/' !in svc.namespace && key.name != "" && '/' !in key.name ==>
            stored.rules[0].http.value[0].path
            == "/" + svc.namespace + "/" + key.name + "/" + TrimPrefix(Lookup(svc.annotations, "fabric8.io/ingress.path"), "/"))
  {
    StoredFront(cfg, ingresses, svc, faults);
    hide AfterAdd, Lands, RuleHost;
    if InPathMode(cfg, svc) && svc.namespace != "" && '/' !in svc.namespace && AppName(svc) != "" && '/' !in AppName(svc) {
      hide AppName, Paths.AppPath;
      Paths.AppPathForm(svc.namespace, AppName(svc), Suffix(svc));
      assert TrimPrefix("/", "/") == "" == TrimPrefix("", "/");
    }
  }

  /** The ingress that the service asks for has a backend with the name of the service and, in
      host mode, the path that it asks for. */
  ghost predicate HasBackend(cfg: Config, ingresses: map<Key, Ingress>, svc: Service) {
    exists name :: Names(svc, name) && Key(svc.namespace, name) in ingresses
      && var rules := ingresses[Key(svc.namespace, name)].rules;
         rules != [] && rules[0].http.Some?
         && exists b :: b in rules[0].http.value && b.service == svc.name
                        && (!InPathMode(cfg, svc) ==> b.path == Lookup(svc.annotations, "fabric8.io/ingress.path"))
  }

  lemma ListedHasBackend(cfg: Config, ingresses: map<Key, Ingress>, svc: Service)
    requires IsListed(cfg, ingresses, svc)
    ensures HasBackend(cfg, ingresses, svc)
  {
    AddKeyNames(svc);
    var key := AddKey(svc);
    var path := PathOf(cfg, svc);
    hide AppName, Names, Paths.AppPath;
    assert Names(svc, key.name) && Key(svc.namespace, key.name) in ingresses;
    var backends := ingresses[key].rules[0].http.value;
    var i :| 0 <= i < |backends| && backends[i].service == svc.name && backends[i].path == path;
    assert backends[i] in backends;
  }

  // ---- The rest of the ingress ---------------------------------------------

  /** The TLS entry: the wildcard of the domain, or the host that the service has in host mode,
      with a secret only when ACME is on; without TLS the old entries stay. */
  lemma StoredTls(cfg: Config, ingresses: map<Key, Ingress>, svc: Service, faults: Faults)
    requires Lands(cfg, ingresses, svc, faults)
    ensures var key := AddKey(svc);
      var stored, given := AfterAdd(cfg, ingresses, svc, faults)[key], Lookup(svc.annotations, "fabric8.io/host.name");
      if !Secured(cfg, svc) then stored.tls == Old(ingresses, key).tls
      else
        && |stored.tls| == 1
        && stored.tls[0].host
           == (if cfg.tlsUseWildcard then "*." + Domain(cfg, svc)
               else Templates.Sprintf(cfg.format, if given == "" then key.name else given, svc.namespace, Domain(cfg, svc)))
        && (cfg.tlsAcme ==> stored.tls[0].secret == if cfg.tlsSecretName != "" then cfg.tlsSecretName else "tls-" + key.name)
        && (!cfg.tlsAcme ==> stored.tls[0].secret == "")
  {
    hide WithLines, AppName, ExposedPort, OwnAnnotations, RuleHost, PathOf, Templates.Sprintf;
  }

  /** A new ingress gets the provider label; the service becomes an owner unless its UID is one. */
  lemma StoredOwners(cfg: Config, ingresses: map<Key, Ingress>, svc: Service, faults: Faults)
    requires Lands(cfg, ingresses, svc, faults)
    ensures var key := AddKey(svc);
      var stored, old' := AfterAdd(cfg, ingresses, svc, faults)[key], Old(ingresses, key);
      && stored.labels == (if old'.labels == map[] then map["provider" := "fabric8"] else old'.labels)
      && stored.owners == if exists o :: o in old'.owners && o.uid == svc.uid then old'.owners
                          else old'.owners + [Owner(svc.name, svc.uid)]
  {
    hide WithLines, AppName, ExposedPort, OwnAnnotations, RuleHost, PathOf, TlsHost;
    var owners := Old(ingresses, AddKey(svc)).owners;
    assert (exists o :: o in owners && o.uid == svc.uid) <==> HasOwner(owners, svc.uid);
  }

  predicate Sets(line: string, key: string) {
    HasPrefix(line, key + ":")
  }

  lemma CutIsFirstColon(line: string, key: string)
    requires ':' !in key && Sets(line, key)
    ensures CutAtColon(line) == Some((key, line[|key| + 1..]))
  {
    assert line[..|key|] == key && line[|key|] == ':';
    assert OccursAt(line, ":", |key|);
    forall j: nat | j < |key|
      ensures !OccursAt(line, ":", j)
    {
      assert line[j] == key[j] && key[j] in key;
      assert |line[j..j + 1]| == 1;
    }
  }

  lemma CutSets(line: string)
    requires CutAtColon(line).Some?
    ensures var cut := CutAtColon(line).value; Sets(line, cut.0) && ':' in line
  {
    var i := Index(line, ":").value;
    assert line[i] == line[i..i + 1][0] == ':';
    assert line[..i] + ":" == line[..i + 1];
  }

  /** An annotation that no line sets stays. */
  lemma {:induction false} LinesSpare(annotations: Dict, lines: seq<string>, key: string)
    requires WithLines(annotations, lines).Some?
    requires forall i | 0 <= i < |lines| :: !Sets(lines[i], key)
    ensures Lookup(WithLines(annotations, lines).value, key) == Lookup(annotations, key)
    decreases |lines|
  {
    hide Sets, CutAtColon, TrimSpace;
    if lines != [] {
      var cut := CutAtColon(lines[0]).value;
      CutSets(lines[0]);
      assert forall i | 0 <= i < |lines| - 1 :: lines[1..][i] == lines[i + 1];
      LinesSpare(annotations[cut.0 := TrimSpace(cut.1)], lines[1..], key);
    }
  }

  /** The last line that sets an annotation decides its value. */
  lemma {:induction false} LastLineDecides(annotations: Dict, lines: seq<string>, i: nat, key: string)
    requires WithLines(annotations, lines).Some?
    requires i < |lines| && ':' !in key && Sets(lines[i], key) && forall j | i < j < |lines| :: !Sets(lines[j], key)
    ensures Lookup(WithLines(annotations, lines).value, key) == TrimSpace(lines[i][|key| + 1..])
    decreases |lines|
  {
    hide CutAtColon, TrimSpace;
    var cut, rest := CutAtColon(lines[0]).value, lines[1..];
    var next := annotations[cut.0 := TrimSpace(cut.1)];
    assert forall j | 0 <= j < |rest| :: rest[j] == lines[j + 1];
    if i == 0 {
      CutIsFirstColon(lines[0], key);
      hide Sets;
      LinesSpare(next, rest, key);
    } else {
      LastLineDecides(next, rest, i - 1, key);
    }
  }

  /** An annotation that the service's own lines do not set: the mark on an ingress without
      annotations, the configured class, "nginx" in path mode where there is none, and ACME. */
  function Default(cfg: Config, svc: Service, old': Dict, key: string): string {
    if key == "kubernetes.io/ingress.class" || key == "nginx.ingress.kubernetes.io/ingress.class" then
      if cfg.ingressClass != "" then cfg.ingressClass
      else if InPathMode(cfg, svc) && Lookup(old', key) == "" then "nginx" else Lookup(old', key)
    else if key == "kubernetes.io/tls-acme" && cfg.tlsAcme then "true"
    else if key == "fabric8.io/generated-by" && old' == map[] then "exposecontroller"
    else Lookup(old', key)
  }

  lemma OwnAnnotationsByDefault(cfg: Config, svc: Service, old': Dict, key: string)
    ensures Lookup(OwnAnnotations(cfg, svc, old'), key) == Default(cfg, svc, old', key)
  {
  }

  lemma StoredAnnotations(cfg: Config, ingresses: map<Key, Ingress>, svc: Service, faults: Faults, key: string)
    requires Lands(cfg, ingresses, svc, faults)
    ensures var stored, old' := AfterAdd(cfg, ingresses, svc, faults)[AddKey(svc)].annotations, Old(ingresses, AddKey(svc)).annotations;
      var lines := OwnLines(svc);
      && (forall i | 0 <= i < |lines| && ':' !in key && Sets(lines[i], key) && (forall j | i < j < |lines| :: !Sets(lines[j], key)) ::
            Lookup(stored, key) == TrimSpace(lines[i][|key| + 1..]))
      && ((forall i | 0 <= i < |lines| :: !Sets(lines[i], key)) ==> Lookup(stored, key) == Default(cfg, svc, old', key))
  {
    var old' := Old(ingresses, AddKey(svc)).annotations;
    var own := OwnAnnotations(cfg, svc, old');
    StoredAreWithLines(cfg, ingresses, svc, faults);
    OwnAnnotationsByDefault(cfg, svc, old', key);
    assert OwnLines(svc) == ExtraLines(svc);
    hide OwnAnnotations, OwnLines, AfterAdd, Lands, Default, TrimSpace, WithLines, Sets, AddKey, ExtraLines;
    var lines := OwnLines(svc);
    if forall i | 0 <= i < |lines| :: !Sets(lines[i], key) {
      LinesSpare(own, lines, key);
    }
    forall i | 0 <= i < |lines| && ':' !in key && Sets(lines[i], key) && forall j | i < j < |lines| :: !Sets(lines[j], key) {
      LastLineDecides(own, lines, i, key);
    }
  }

  lemma StoredAreWithLines(cfg: Config, ingresses: map<Key, Ingress>, svc: Service, faults: Faults)
    requires Lands(cfg, ingresses, svc, faults)
    ensures var own := OwnAnnotations(cfg, svc, Old(ingresses, AddKey(svc)).annotations);
      && AddKey(svc) in AfterAdd(cfg, ingresses, svc, faults)
      && WithLines(own, ExtraLines(svc)) == Some(AfterAdd(cfg, ingresses, svc, faults)[AddKey(svc)].annotations)
  {
    hide WithLines, AppName, ExposedPort, OwnAnnotations, RuleHost, PathOf, TlsHost, ExtraLines, Listed, WithOwner;
  }

  // ---- The address the service is told -------------------------------------

  /** After an Add that lands and whose patch goes through, the service is told the address
      that the stored rule serves: the host of the rule, and in path mode the path of its
      front backend behind it; with https exactly when TLS is wanted and configured. */
  lemma ServiceIsToldTheRule(
    cfg: Config, ingresses: map<Key, Ingress>, services: map<Key, Service>, svc: Service, faults: Faults)
    requires Lands(cfg, ingresses, svc, faults) && !faults.patch
    requires svc.Id() in services && services[svc.Id()] == svc
    ensures var stored := AfterAdd(cfg, ingresses, svc, faults)[AddKey(svc)];
      var services' := ServicesAfterAdd(cfg, ingresses, services, svc, faults);
      && |stored.rules| == 1 && stored.rules[0].http.Some? && stored.rules[0].http.value != []
      && var host, path := stored.rules[0].host, stored.rules[0].http.value[0].path;
         svc.Id() in services' && services' == services[svc.Id() := svc.(annotations := services'[svc.Id()].annotations)]
         && Tells(svc.annotations, services'[svc.Id()].annotations,
                  if Secured(cfg, svc) then "https" else "http",
                  if InPathMode(cfg, svc) then TrimSuffix(host, "/") + path else host)
  {
    var host, path := RuleHost(cfg, svc), PathOf(cfg, svc);
    AddressOfRule(cfg, svc);
    AnnotatedTells(svc.annotations, FullHost(cfg, svc), if TlsEnabled(cfg, svc) then "https" else "http");
    StoredFront(cfg, ingresses, svc, faults);
    hide AfterAdd, Lands, RuleHost, PathOf, FullHost, Annotated, Tells, TrimSuffix, AddKey;
    var next := Exposed(cfg, svc);
    assert IsRewrite(svc, next);
    PatchedCurrent(services, svc, next, false);
  }

  lemma StoredFront(cfg: Config, ingresses: map<Key, Ingress>, svc: Service, faults: Faults)
    requires Lands(cfg, ingresses, svc, faults)
    ensures var after := AfterAdd(cfg, ingresses, svc, faults);
      && AddKey(svc) in after && |after[AddKey(svc)].rules| == 1
      && after[AddKey(svc)].rules[0].http.Some? && after[AddKey(svc)].rules[0].http.value != []
      && after[AddKey(svc)].rules[0].host == RuleHost(cfg, svc)
      && after[AddKey(svc)].rules[0].http.value[0].path == PathOf(cfg, svc)
  {
    hide WithLines, AppName, ExposedPort, OwnAnnotations, TlsHost, RuleHost, PathOf;
  }

  lemma AddressOfRule(cfg: Config, svc: Service)
    ensures FullHost(cfg, svc)
         == if InPathMode(cfg, svc) then TrimSuffix(RuleHost(cfg, svc), "/") + PathOf(cfg, svc) else RuleHost(cfg, svc)
  {
    hide Paths.UrlJoined, Templates.Sprintf, AppName, TrimSuffix;
    if InPathMode(cfg, svc) {
      Paths.AppPathLength(svc.namespace, AppName(svc), Suffix(svc));
      Paths.JoinTwo(RuleHost(cfg, svc), PathOf(cfg, svc));
    }
  }

  // ---- Remove and the outcome of Add ---------------------------------------

  /** Remove deletes the one ingress of the default name, and nothing tells an address any more. */
  lemma RemovedIngress(ingresses: map<Key, Ingress>, services: map<Key, Service>, svc: Service)
    requires svc.Id() in services && services[svc.Id()] == svc
    ensures var after, services' := AfterRemove(ingresses, svc, NO_FAULTS), ServicesAfterRemove(services, svc, NO_FAULTS);
      && (exists name | NamesByDefault(svc, name) :: after == ingresses - {Key(svc.namespace, name)})
      && svc.Id() in services' && services' == services[svc.Id() := svc.(annotations := services'[svc.Id()].annotations)]
      && Untells(svc.annotations, services'[svc.Id()].annotations)
  {
    DefaultNameNames(svc);
    StrippedUntells(svc.annotations);
    hide DefaultName, NamesByDefault, Stripped, Untells;
    assert IsRewrite(svc, Unexposed(svc));
    PatchedCurrent(services, svc, Unexposed(svc), false);
  }

  lemma CutNeedsColon(line: string)
    ensures CutAtColon(line).Some? <==> ':' in line
  {
    if CutAtColon(line).Some? {
      CutSets(line);
    }
    forall i | 0 <= i < |line| && line[i] == ':'
      ensures OccursAt(line, ":", i)
    {
      assert line[i..i + 1] == ":";
    }
  }

  lemma LinesOkMeans(svc: Service)
    ensures LinesOk(ExtraLines(svc)) <==> forall line | line in OwnLines(svc) :: ':' in line
  {
    assert OwnLines(svc) == ExtraLines(svc);
    forall line: string {
      CutNeedsColon(line);
    }
    hide CutAtColon, ExtraLines, OwnLines;
  }

  /** An Add panics on a line without a colon, on a first rule that is not an HTTP rule, and on
      a service without ports that is not listed yet. */
  predicate Breaks(cfg: Config, ingresses: map<Key, Ingress>, svc: Service) {
    || (exists line :: line in OwnLines(svc) && ':' !in line)
    || (Old(ingresses, AddKey(svc)).rules != [] && Old(ingresses, AddKey(svc)).rules[0].http.None?)
    || (svc.ports == [] && !IsListed(cfg, ingresses, svc))
  }

  lemma PlanOf(cfg: Config, ingresses: map<Key, Ingress>, svc: Service)
    ensures var plan := Planned(cfg, svc, Find(ingresses, AddKey(svc)));
      && (plan.Crash? <==> Breaks(cfg, ingresses, svc))
      && (plan.AlreadyListed? <==> !Breaks(cfg, ingresses, svc) && IsListed(cfg, ingresses, svc))
  {
    LinesOkMeans(svc);
    var base := if AddKey(svc) in ingresses then ingresses[AddKey(svc)] else NEW_INGRESS;
    WithLinesDefined(OwnAnnotations(cfg, svc, base.annotations), ExtraLines(svc));
    NothingListed(svc.name, PathOf(cfg, svc));
    hide WithLines, OwnAnnotations, PathOf, AppName, Written, Listed, OwnLines, ExtraLines, LinesOk, Atoi;
  }

  /** How an Add ends, for every combination of failing requests. */
  lemma AddEnds(cfg: Config, ingresses: map<Key, Ingress>, services: map<Key, Service>, svc: Service, faults: Faults)
    requires svc.Id() in services
    ensures var status := AddStatus(cfg, ingresses, services, svc, faults);
      && (status == Panicked <==> !faults.get && Breaks(cfg, ingresses, svc))
      && (status == Done <==>
            !faults.get && !Breaks(cfg, ingresses, svc)
            && (IsListed(cfg, ingresses, svc) || (!faults.write && (!faults.patch || Exposed(cfg, svc) == svc))))
  {
    PlanOf(cfg, ingresses, svc);
    hide Planned, Breaks, IsListed, FullHost, TlsEnabled, Annotated;
    assert IsRewrite(svc, Exposed(cfg, svc));
    PatchReachesOneService(services, svc, Exposed(cfg, svc), faults.patch);
    hide Exposed;
  }
}
