/** Where repeated Adds of one service aim. Add writes the host name onto the service
    under the annotation that exposeHostNameAs names; when that is an annotation Add
    itself reads, the next Add may aim at another ingress or path. This module says
    exactly when the targets keep changing. */
module Orbits {
  import opened Text
  import opened Objects
  import opened Annotations
  import opened Ingresses
  import Paths
  import Templates

  /** The annotation that exposeHostNameAs names. */
  function HostKey(svc: Service): string {
    Lookup(svc.annotations, ANN_HOST_NAME_AS)
  }

  /** Reading an annotation of the rewritten service. */
  lemma ExposedLookup(cfg: Config, svc: Service, key: string)
    ensures key != ANN_URL ==>
      Lookup(Exposed(cfg, svc).annotations, key)
        == if key != "" && key == HostKey(svc) then FullHost(cfg, svc) else Lookup(svc.annotations, key)
    ensures Exposed(cfg, svc) == svc.(annotations := Exposed(cfg, svc).annotations)
  {
    hide FullHost, ExposeUrl;
  }

  /** What decides the ingress name. */
  predicate SameNaming(a: Service, b: Service) {
    && a.name == b.name && a.namespace == b.namespace && a.labels == b.labels
    && Lookup(a.annotations, ANN_INGRESS_NAME) == Lookup(b.annotations, ANN_INGRESS_NAME)
  }

  /** What decides the path, besides the name. */
  predicate SamePathing(a: Service, b: Service) {
    && Lookup(a.annotations, ANN_INGRESS_PATH) == Lookup(b.annotations, ANN_INGRESS_PATH)
    && Lookup(a.annotations, ANN_PATH_MODE) == Lookup(b.annotations, ANN_PATH_MODE)
  }

  /** What decides the host, besides the name and the path. */
  predicate SameHosting(a: Service, b: Service) {
    && Lookup(a.annotations, ANN_HOST_NAME) == Lookup(b.annotations, ANN_HOST_NAME)
    && Lookup(a.annotations, ANN_INTERNAL) == Lookup(b.annotations, ANN_INTERNAL)
  }

  lemma SameTarget(cfg: Config, a: Service, b: Service)
    requires SameNaming(a, b) && SamePathing(a, b)
    ensures Target(cfg, a) == Target(cfg, b)
    ensures SameHosting(a, b) ==> FullHost(cfg, a) == FullHost(cfg, b)
  {
    hide Templates.Sprintf, Paths.AppPath, Paths.UrlJoined, ReplaceFirst;
  }

  // ---- Growing names -------------------------------------------------------

  /** Whether running the format makes this name longer, again and again. */
  predicate FormatGrows(format: string, namespace: string, domain: string, name: string) {
    var n := Templates.ServiceCopies(format);
    n >= 1 && (Templates.Surroundings(format, namespace, domain) != "" || (n >= 2 && name != ""))
  }

  /** In terms of the template that the format was compiled from. */
  lemma GrowthOfTemplates(template: seq<Templates.Token>, namespace: string, domain: string, name: string)
    requires Templates.PercentFree(template) && Templates.HasField(Templates.Effective(template))
    ensures var used := Templates.Effective(template);
      && FormatGrows(Templates.UrlFormat(template), namespace, domain, name)
         == (|| (Templates.ServiceFields(used) >= 1 && Templates.Render(used, "", namespace, domain) != "")
             || (Templates.ServiceFields(used) >= 2 && name != ""))
  {
    Templates.CompilationPreservesMeaning(template, "", namespace, domain);
    Templates.RunningThePlaceholders(Templates.Effective(template), "", namespace, domain);
    hide Templates.Sprintf, Templates.Render, Templates.Copies, Templates.ServiceFields, Templates.HasVerb;
  }

  // ---- When targets keep changing ------------------------------------------

  /** Writing the host under `key` again and again aims ever further: the ingress name
      feeds the host it is named after, or the path feeds itself in path mode. */
  predicate GrowsUnder(cfg: Config, svc: Service, key: string) {
    || (key == ANN_INGRESS_NAME
        && (UsesPath(cfg, svc)
            || (Lookup(svc.annotations, ANN_HOST_NAME) == ""
                && FormatGrows(cfg.format, svc.namespace, DomainOf(cfg, svc), AppName(svc)))))
    || (key == ANN_INGRESS_PATH && UsesPath(cfg, svc))
  }

  /** When exposeHostNameAs names itself, the first Add replaces it by the host. */
  function LastingKey(cfg: Config, svc: Service): string {
    if HostKey(svc) == ANN_HOST_NAME_AS then FullHost(cfg, svc) else HostKey(svc)
  }

  predicate Grows(cfg: Config, svc: Service) {
    GrowsUnder(cfg, svc, LastingKey(cfg, svc))
  }

  /** The targets of this Add and the next two. */
  function Orbit(cfg: Config, svc: Service): set<(string, string)> {
    var next := Exposed(cfg, svc);
    {Target(cfg, svc), Target(cfg, next), Target(cfg, Exposed(cfg, next))}
  }

  lemma LookupsOf(cfg: Config, svc: Service)
    ensures var next := Exposed(cfg, svc);
      && next == svc.(annotations := next.annotations)
      && (forall key | key in {ANN_INGRESS_NAME, ANN_INGRESS_PATH, ANN_PATH_MODE, ANN_HOST_NAME, ANN_INTERNAL, ANN_HOST_NAME_AS} ::
            Lookup(next.annotations, key)
              == if key == HostKey(svc) then FullHost(cfg, svc) else Lookup(svc.annotations, key))
  {
    hide FullHost, Exposed;
    forall key | key in {ANN_INGRESS_NAME, ANN_INGRESS_PATH, ANN_PATH_MODE, ANN_HOST_NAME, ANN_INTERNAL, ANN_HOST_NAME_AS}
      ensures Lookup(Exposed(cfg, svc).annotations, key)
           == if key == HostKey(svc) then FullHost(cfg, svc) else Lookup(svc.annotations, key)
    {
      ExposedLookup(cfg, svc, key);
    }
    ExposedLookup(cfg, svc, ANN_INTERNAL);
  }

  /** When exposeHostNameAs names itself, the first rewrite moves neither the target nor the host. */
  lemma SelfNamedStep(cfg: Config, svc: Service)
    requires HostKey(svc) == ANN_HOST_NAME_AS
    ensures var next := Exposed(cfg, svc);
      && SameNaming(svc, next) && SamePathing(svc, next) && SameHosting(svc, next)
      && Target(cfg, next) == Target(cfg, svc) && FullHost(cfg, next) == FullHost(cfg, svc)
      && HostKey(next) == FullHost(cfg, svc)
  {
    hide Templates.Sprintf, ReplaceFirst;
    hide FullHost, Exposed, Target;
    LookupsOf(cfg, svc);
    SameTarget(cfg, svc, Exposed(cfg, svc));
  }

  /** With any other chosen key, the target after two rewrites was seen before. */
  lemma SecondTargetIsOld(cfg: Config, svc: Service)
    requires HostKey(svc) != ANN_HOST_NAME_AS && !Grows(cfg, svc)
    ensures var next := Exposed(cfg, svc);
            Target(cfg, Exposed(cfg, next)) in {Target(cfg, svc), Target(cfg, next)}
  {
    hide Templates.Sprintf, Paths.AppPath, Paths.UrlJoined, ReplaceFirst;
    hide FullHost, Exposed, Target, FormatGrows;
    var next := Exposed(cfg, svc);
    var after := Exposed(cfg, next);
    var key := HostKey(svc);
    LookupsOf(cfg, svc);
    LookupsOf(cfg, next);
    assert HostKey(next) == key;
    if key == ANN_INGRESS_NAME {
      NameTargetIsOld(cfg, svc);
    } else if key == ANN_INGRESS_PATH {
      assert SameNaming(svc, next) && SameHosting(svc, next);
      SameHostInHostMode(cfg, svc, next);
      SameTarget(cfg, next, after);
    } else if key == ANN_PATH_MODE {
      ModeTargetIsOld(cfg, svc);
    } else {
      SameTarget(cfg, svc, next);
      SameTarget(cfg, next, after);
    }
  }

  lemma SameHostInHostMode(cfg: Config, a: Service, b: Service)
    requires SameNaming(a, b) && SameHosting(a, b)
    requires !UsesPath(cfg, a) && !UsesPath(cfg, b)
    ensures FullHost(cfg, a) == FullHost(cfg, b)
  {
    hide Templates.Sprintf, Paths.AppPath, Paths.UrlJoined, ReplaceFirst;
  }

  /** The chosen key is the path mode: there are only two modes to be in. */
  lemma ModeTargetIsOld(cfg: Config, svc: Service)
    requires HostKey(svc) == ANN_PATH_MODE
    ensures var next := Exposed(cfg, svc);
            Target(cfg, Exposed(cfg, next)) in {Target(cfg, svc), Target(cfg, next)}
  {
    hide Templates.Sprintf, Paths.AppPath, Paths.UrlJoined, ReplaceFirst;
    var next := Exposed(cfg, svc);
    var after := Exposed(cfg, next);
    LookupsOf(cfg, svc);
    LookupsOf(cfg, next);
    hide Exposed, FullHost;
    SameTargetInSameMode(cfg, svc, next);
    SameTargetInSameMode(cfg, svc, after);
    SameTargetInSameMode(cfg, next, after);
  }

  lemma SameTargetInSameMode(cfg: Config, a: Service, b: Service)
    requires SameNaming(a, b) && SameHosting(a, b)
    requires Lookup(a.annotations, ANN_INGRESS_PATH) == Lookup(b.annotations, ANN_INGRESS_PATH)
    ensures UsesPath(cfg, a) == UsesPath(cfg, b) ==> Target(cfg, a) == Target(cfg, b) && FullHost(cfg, a) == FullHost(cfg, b)
  {
    hide Templates.Sprintf, Paths.AppPath, Paths.UrlJoined, ReplaceFirst;
  }

  /** The chosen key is the ingress name, in host mode: unless the name grows, the
      name is settled after one rewrite. */
  lemma NameTargetIsOld(cfg: Config, svc: Service)
    requires HostKey(svc) == ANN_INGRESS_NAME && !Grows(cfg, svc)
    ensures var next := Exposed(cfg, svc);
            Target(cfg, Exposed(cfg, next)) == Target(cfg, next)
  {
    hide Templates.Sprintf, Paths.AppPath, Paths.UrlJoined, ReplaceFirst;
    var next := Exposed(cfg, svc);
    var after := Exposed(cfg, next);
    LookupsOf(cfg, svc);
    LookupsOf(cfg, next);
    hide Exposed, FormatGrows;
    assert FullHost(cfg, svc) == TemplateHost(cfg, svc) && FullHost(cfg, next) == TemplateHost(cfg, next);
    assert DomainOf(cfg, next) == DomainOf(cfg, svc);
    if Lookup(svc.annotations, ANN_HOST_NAME) == "" {
      NameSettles(cfg.format, svc.namespace, DomainOf(cfg, svc), AppName(svc), DefaultName(svc));
    }
    SameTarget(cfg, next, after);
  }

  /** Running the format on a name, where an empty outcome falls back to the default name. */
  function NextName(format: string, namespace: string, domain: string, name: string, default: string): string {
    var host := Templates.Sprintf(format, name, namespace, domain);
    if host == "" then default else host
  }

  lemma NameSettles(format: string, namespace: string, domain: string, name: string, default: string)
    requires !FormatGrows(format, namespace, domain, name)
    requires name == "" ==> default == ""
    ensures var one := NextName(format, namespace, domain, name, default);
            && Templates.Sprintf(format, one, namespace, domain) == Templates.Sprintf(format, name, namespace, domain)
            && !FormatGrows(format, namespace, domain, one)
  {
    hide Templates.Sprintf, Templates.ServiceCopies;
    var one := NextName(format, namespace, domain, name, default);
    if Templates.ServiceCopies(format) == 0 {
      Templates.HostWithoutService(format, name, namespace, domain);
      Templates.HostWithoutService(format, one, namespace, domain);
    } else if Templates.ServiceCopies(format) == 1 {
      Templates.HostIsService(format, name, namespace, domain);
    }
  }

  /** Not growing is kept by a rewrite. */
  lemma StaysTame(cfg: Config, svc: Service)
    requires !Grows(cfg, svc)
    ensures !Grows(cfg, Exposed(cfg, svc))
  {
    hide Templates.Sprintf, Paths.AppPath, Paths.UrlJoined, ReplaceFirst;
    hide Exposed, FormatGrows, PathOf, FullHost;
    var next := Exposed(cfg, svc);
    LookupsOf(cfg, svc);
    if HostKey(svc) == ANN_HOST_NAME_AS {
      SelfNamedStep(cfg, svc);
      assert LastingKey(cfg, next) == LastingKey(cfg, svc);
    } else if HostKey(svc) == ANN_INGRESS_NAME && !UsesPath(cfg, svc) && Lookup(svc.annotations, ANN_HOST_NAME) == "" {
      NameStaysTame(cfg, svc);
    }
  }

  lemma NameStaysTame(cfg: Config, svc: Service)
    requires HostKey(svc) == ANN_INGRESS_NAME
    requires !UsesPath(cfg, svc) && Lookup(svc.annotations, ANN_HOST_NAME) == ""
    requires !FormatGrows(cfg.format, svc.namespace, DomainOf(cfg, svc), AppName(svc))
    ensures var next := Exposed(cfg, svc);
            !FormatGrows(cfg.format, next.namespace, DomainOf(cfg, next), AppName(next))
  {
    hide Exposed, FormatGrows, ReplaceFirst, Templates.Sprintf;
    var next := Exposed(cfg, svc);
    LookupsOf(cfg, svc);
    assert FullHost(cfg, svc) == TemplateHost(cfg, svc);
    assert DomainOf(cfg, next) == DomainOf(cfg, svc);
    NameSettles(cfg.format, svc.namespace, DomainOf(cfg, svc), AppName(svc), DefaultName(svc));
  }

  /** Unless the service grows, its orbit is closed: the next target of the rewritten
      service is one of those already counted. */
  lemma OrbitCloses(cfg: Config, svc: Service)
    requires !Grows(cfg, svc)
    ensures Orbit(cfg, Exposed(cfg, svc)) <= Orbit(cfg, svc)
  {
    hide Templates.Sprintf, Paths.AppPath, Paths.UrlJoined, ReplaceFirst;
    var next := Exposed(cfg, svc);
    var after := Exposed(cfg, next);
    StaysTame(cfg, svc);
    LookupsOf(cfg, svc);
    hide Exposed, Target, Grows, FullHost;
    if HostKey(next) != ANN_HOST_NAME_AS {
      SecondTargetIsOld(cfg, next);
    } else {
      SelfNamedStep(cfg, next);
      if HostKey(svc) == ANN_HOST_NAME_AS {
        SelfNamedStep(cfg, svc);
      }
      SelfNamedStep(cfg, after);
    }
  }

  // ---- Growth --------------------------------------------------------------

  /** How far out a target is. */
  function Distance(target: (string, string)): nat {
    |target.0| + |target.1|
  }

  predicate Closer(a: (string, string), b: (string, string)) {
    Distance(a) < Distance(b)
  }

  function Reach(cfg: Config, svc: Service): nat {
    Distance(Target(cfg, svc))
  }

  /** In path mode the full host is longer than the name, and reaches beyond the path. */
  lemma PathModeLengths(cfg: Config, svc: Service)
    requires UsesPath(cfg, svc)
    ensures |FullHost(cfg, svc)| >= |PathOf(cfg, svc)| >= |AppName(svc)| + 1
    ensures |PathOf(cfg, svc)| >= |Suffix(svc)| + 2
  {
    hide AppName, Suffix, DomainOf, Paths.AppPath, Paths.UrlJoined;
    Paths.AppPathLength(svc.namespace, AppName(svc), Suffix(svc));
    Paths.FullLength(DomainOf(cfg, svc), PathOf(cfg, svc));
  }

  /** A service that grows under its chosen key aims further out after each rewrite, for ever. */
  lemma GrowthStep(cfg: Config, svc: Service)
    requires GrowsUnder(cfg, svc, HostKey(svc))
    ensures var next := Exposed(cfg, svc);
      && Reach(cfg, next) > Reach(cfg, svc)
      && HostKey(next) == HostKey(svc) && GrowsUnder(cfg, next, HostKey(next))
  {
    if UsesPath(cfg, svc) {
      GrowthInPathMode(cfg, svc);
    } else {
      GrowthInHostMode(cfg, svc);
    }
  }

  lemma GrowthInPathMode(cfg: Config, svc: Service)
    requires GrowsUnder(cfg, svc, HostKey(svc)) && UsesPath(cfg, svc)
    ensures var next := Exposed(cfg, svc);
      && Reach(cfg, next) > Reach(cfg, svc)
      && HostKey(next) == HostKey(svc) && GrowsUnder(cfg, next, HostKey(next))
  {
    hide FormatGrows, DomainOf, PathOf, FullHost, Exposed, ReplaceFirst;
    var next := Exposed(cfg, svc);
    LookupsOf(cfg, svc);
    PathModeLengths(cfg, svc);
    assert UsesPath(cfg, next);
    PathModeLengths(cfg, next);
    if HostKey(svc) == ANN_INGRESS_NAME {
      assert AppName(next) == FullHost(cfg, svc);
    } else {
      assert AppName(next) == AppName(svc) && Suffix(next) == FullHost(cfg, svc);
    }
  }

  lemma GrowthInHostMode(cfg: Config, svc: Service)
    requires GrowsUnder(cfg, svc, HostKey(svc)) && !UsesPath(cfg, svc)
    ensures var next := Exposed(cfg, svc);
      && Reach(cfg, next) > Reach(cfg, svc)
      && HostKey(next) == HostKey(svc) && GrowsUnder(cfg, next, HostKey(next))
  {
    hide TemplateHost, Exposed, ReplaceFirst, Paths.AppPath;
    var next := Exposed(cfg, svc);
    LookupsOf(cfg, svc);
    HostGrows(cfg, svc);
    assert !UsesPath(cfg, next) && PathOf(cfg, next) == PathOf(cfg, svc);
    assert AppName(next) == TemplateHost(cfg, svc);
  }

  lemma HostGrows(cfg: Config, svc: Service)
    requires Lookup(svc.annotations, ANN_HOST_NAME) == ""
    requires FormatGrows(cfg.format, svc.namespace, DomainOf(cfg, svc), AppName(svc))
    ensures |TemplateHost(cfg, svc)| > |AppName(svc)|
  {
    hide Templates.Sprintf, Templates.ServiceCopies, AppName, DomainOf;
    Templates.HostLength(cfg.format, AppName(svc), svc.namespace, DomainOf(cfg, svc));
  }
}
