/** How a strategy writes the exposed address onto a service, and takes it off again. */
module Annotations {
  import opened Text
  import opened Objects

  /** urlJoin: one separator between the parts, never two. */
  function JoinUrl(repo: string, path: string): string {
    TrimSuffix(repo, "/") + "/" + TrimPrefix(path, "/")
  }

  function ExposeUrl(annotations: Dict, host: string, protocol: string): string {
    var url := protocol + "://" + host;
    var path := Lookup(annotations, ANN_API_PATH);
    if path != "" then JoinUrl(url, path) else url
  }

  /** The annotations after addServiceAnnotationWithProtocol. */
  function Annotated(annotations: Dict, host: string, protocol: string): Dict {
    var withUrl := annotations[ANN_URL := ExposeUrl(annotations, host, protocol)];
    var key := Lookup(withUrl, ANN_HOST_NAME_AS);
    if key != "" then withUrl[key := host] else withUrl
  }

  /** The annotations after removeServiceAnnotation. */
  function Stripped(annotations: Dict): Dict {
    var withoutUrl := annotations - {ANN_URL};
    var key := Lookup(withoutUrl, ANN_HOST_NAME_AS);
    if key != "" then withoutUrl - {key} else withoutUrl
  }

  method AddServiceAnnotationWithProtocol(svc: Service, host: string, protocol: string) returns (clone: Service)
    ensures clone == svc.(annotations := Annotated(svc.annotations, host, protocol))
  {
    var annotations := svc.annotations;
    var exposeUrl := protocol + "://" + host;
    var path := Lookup(annotations, ANN_API_PATH);
    if |path| > 0 {
      exposeUrl := JoinUrl(exposeUrl, path);
    }
    annotations := annotations[ANN_URL := exposeUrl];
    var key := Lookup(annotations, ANN_HOST_NAME_AS);
    if |key| > 0 {
      annotations := annotations[key := host];
    }
    clone := svc.(annotations := annotations);
  }

  method RemoveServiceAnnotation(svc: Service) returns (clone: Service)
    ensures clone == svc.(annotations := Stripped(svc.annotations))
  {
    var annotations := svc.annotations - {ANN_URL};
    var key := Lookup(annotations, ANN_HOST_NAME_AS);
    if |key| > 0 {
      annotations := annotations - {key};
    }
    clone := svc.(annotations := annotations);
  }

  // ---- Convergence ---------------------------------------------------------

  /** `n` applications in a row with the same host and protocol. */
  function Reannotated(annotations: Dict, host: string, protocol: string, n: nat): Dict {
    if n == 0 then annotations else Annotated(Reannotated(annotations, host, protocol, n - 1), host, protocol)
  }

  /** Whether the application after the `n`-th changes nothing. */
  predicate SettledAfter(annotations: Dict, host: string, protocol: string, n: nat) {
    Reannotated(annotations, host, protocol, n + 1) == Reannotated(annotations, host, protocol, n)
  }

  /** When the chosen key is neither the path annotation nor exposeHostNameAs
      itself, a second application changes nothing. */
  lemma SettlesAtOnce(annotations: Dict, host: string, protocol: string)
    requires Lookup(annotations, ANN_HOST_NAME_AS) !in {ANN_API_PATH, ANN_HOST_NAME_AS}
    ensures SettledAfter(annotations, host, protocol, 1)
  {
    var once := Annotated(annotations, host, protocol);
    Unrolled(annotations, host, protocol);
    assert Lookup(once, ANN_HOST_NAME_AS) == Lookup(annotations, ANN_HOST_NAME_AS);
    assert ExposeUrl(once, host, protocol) == ExposeUrl(annotations, host, protocol);
    hide Reannotated, ExposeUrl;
    assert Annotated(once, host, protocol) == once;
  }

  lemma Unrolled(annotations: Dict, host: string, protocol: string)
    ensures var once := Annotated(annotations, host, protocol);
      && Reannotated(annotations, host, protocol, 0) == annotations
      && Reannotated(annotations, host, protocol, 1) == once
      && Reannotated(annotations, host, protocol, 2) == Annotated(once, host, protocol)
      && Reannotated(annotations, host, protocol, 3) == Annotated(Annotated(once, host, protocol), host, protocol)
  {
    hide Annotated;
    assert Reannotated(annotations, host, protocol, 0) == annotations;
    assert Reannotated(annotations, host, protocol, 1) == Annotated(annotations, host, protocol);
  }

  /** When the chosen key is the path annotation, the second application is the last one to change anything. */
  lemma SettlesOnPathKey(annotations: Dict, host: string, protocol: string)
    requires Lookup(annotations, ANN_HOST_NAME_AS) == ANN_API_PATH
    ensures SettledAfter(annotations, host, protocol, 2)
  {
    var once := Annotated(annotations, host, protocol);
    var twice := Annotated(once, host, protocol);
    Unrolled(annotations, host, protocol);
    assert Lookup(once, ANN_HOST_NAME_AS) == Lookup(twice, ANN_HOST_NAME_AS) == ANN_API_PATH;
    assert Lookup(once, ANN_API_PATH) == Lookup(twice, ANN_API_PATH) == host;
    hide Reannotated, JoinUrl;
    assert Annotated(twice, host, protocol) == twice;
  }

  /** Whatever the annotations, the host and the protocol, the fourth application and
      every later one change nothing, even when the chosen key is the path
      annotation, the URL annotation or exposeHostNameAs itself. */
  lemma {:induction false} AnnotationSettles(annotations: Dict, host: string, protocol: string, n: nat)
    ensures n >= 3 ==> Reannotated(annotations, host, protocol, n) == Reannotated(annotations, host, protocol, 3)
  {
    hide Annotated;
    if n > 3 {
      AnnotationSettles(annotations, host, protocol, n - 1);
      FourthIsThird(annotations, host, protocol);
    }
  }

  lemma FourthIsThird(annotations: Dict, host: string, protocol: string)
    ensures Reannotated(annotations, host, protocol, 4) == Reannotated(annotations, host, protocol, 3)
  {
    var key := Lookup(annotations, ANN_HOST_NAME_AS);
    if key == ANN_HOST_NAME_AS {
      SelfNamedSettles(annotations, host, protocol);
    } else if key == ANN_API_PATH {
      SettlesOnPathKey(annotations, host, protocol);
      StaysSettled(annotations, host, protocol, 2);
    } else {
      SettlesAtOnce(annotations, host, protocol);
      StaysSettled(annotations, host, protocol, 1);
      StaysSettled(annotations, host, protocol, 2);
    }
  }

  lemma StaysSettled(annotations: Dict, host: string, protocol: string, n: nat)
    requires SettledAfter(annotations, host, protocol, n)
    ensures SettledAfter(annotations, host, protocol, n + 1)
  {
    hide Annotated;
  }

  /** When exposeHostNameAs names itself, one application turns it into one of the other cases. */
  lemma SelfNamedSettles(annotations: Dict, host: string, protocol: string)
    requires Lookup(annotations, ANN_HOST_NAME_AS) == ANN_HOST_NAME_AS
    ensures SettledAfter(annotations, host, protocol, 3)
  {
    var once := Annotated(annotations, host, protocol);
    assert Lookup(once, ANN_HOST_NAME_AS) == host;
    Shift(annotations, host, protocol, 3);
    Shift(annotations, host, protocol, 2);
    if host == ANN_API_PATH {
      SettlesOnPathKey(once, host, protocol);
    } else if host == ANN_HOST_NAME_AS {
      SelfHosted(annotations, host, protocol);
      StaysSettled(once, host, protocol, 0);
      StaysSettled(once, host, protocol, 1);
    } else {
      SettlesAtOnce(once, host, protocol);
      StaysSettled(once, host, protocol, 1);
    }
    hide Reannotated, Annotated;
  }

  lemma SelfHosted(annotations: Dict, host: string, protocol: string)
    requires Lookup(annotations, ANN_HOST_NAME_AS) == ANN_HOST_NAME_AS == host
    ensures SettledAfter(Annotated(annotations, host, protocol), host, protocol, 0)
  {
    var once := Annotated(annotations, host, protocol);
    Unrolled(once, host, protocol);
    assert ExposeUrl(once, host, protocol) == ExposeUrl(annotations, host, protocol);
    hide Reannotated, ExposeUrl;
    assert Annotated(once, host, protocol) == once;
  }

  lemma {:induction false} Shift(annotations: Dict, host: string, protocol: string, n: nat)
    ensures Reannotated(annotations, host, protocol, n + 1)
         == Reannotated(Annotated(annotations, host, protocol), host, protocol, n)
  {
    hide Annotated;
    if n > 0 {
      Shift(annotations, host, protocol, n - 1);
    }
  }

  /** Three is the exact bound: here the third application still changes the URL. */
  lemma ThreeApplicationsCanBeNeeded()
    ensures var start := map[ANN_HOST_NAME_AS := ANN_HOST_NAME_AS];
            Reannotated(start, ANN_API_PATH, "http", 3) != Reannotated(start, ANN_API_PATH, "http", 2)
  {
    var start: Dict := map[ANN_HOST_NAME_AS := ANN_HOST_NAME_AS];
    var zero := Reannotated(start, ANN_API_PATH, "http", 0);
    var one := Reannotated(start, ANN_API_PATH, "http", 1);
    var two := Reannotated(start, ANN_API_PATH, "http", 2);
    var three := Reannotated(start, ANN_API_PATH, "http", 3);
    assert zero == start;
    assert one == Annotated(zero, ANN_API_PATH, "http");
    assert two == Annotated(one, ANN_API_PATH, "http");
    assert Lookup(one, ANN_API_PATH) == "";
    assert two[ANN_URL] == "http://" + ANN_API_PATH;
    assert Lookup(two, ANN_API_PATH) == ANN_API_PATH;
    assert three[ANN_URL] == JoinUrl("http://" + ANN_API_PATH, ANN_API_PATH);
    assert |three[ANN_URL]| > |two[ANN_URL]|;
  }

  /** Removing after adding is removing alone, except when exposeHostNameAs names
      itself and the host written there is something else. */
  lemma RemoveUndoesAdd(annotations: Dict, host: string, protocol: string)
    ensures Stripped(Annotated(annotations, host, protocol)) == Stripped(annotations)
       <==> (Lookup(annotations, ANN_HOST_NAME_AS) != ANN_HOST_NAME_AS || host == ANN_HOST_NAME_AS)
  {
    var once := Annotated(annotations, host, protocol);
    var key := Lookup(annotations, ANN_HOST_NAME_AS);
    if key != ANN_HOST_NAME_AS || host == ANN_HOST_NAME_AS {
      assert Stripped(once) == Stripped(annotations);
    } else {
      assert ANN_HOST_NAME_AS in Stripped(once);
      assert ANN_HOST_NAME_AS !in Stripped(annotations);
    }
  }

  // ---- Protocol ------------------------------------------------------------

  predicate IsTlsPort(port: Option<string>) {
    port.Some? && port.value in {"443", "8443"}
  }

  predicate HasHttpsPort(ports: seq<Port>) {
    exists i | 0 <= i < |ports| :: ports[i].name == "https"
  }

  function Protocol(ports: seq<Port>, hostPort: Option<string>): string {
    if IsTlsPort(hostPort) || HasHttpsPort(ports) then "https" else "http"
  }

  lemma TlsPorts(hostPort: Option<string>)
    ensures IsTlsPort(hostPort) <==> hostPort in {Some("443"), Some("8443")}
  {
  }

  lemma HttpsPorts(ports: seq<Port>)
    ensures HasHttpsPort(ports) <==> exists port | port in ports :: port.name == "https"
  {
    if i :| 0 <= i < |ports| && ports[i].name == "https" {
      assert ports[i] in ports;
    }
  }

  /** findHttpProtocol. `hostPort` is the port that `net.SplitHostPort` finds in the
      host name, or `None` when it reports an error. */
  method FindHttpProtocol(svc: Service, hostPort: Option<string>) returns (protocol: string)
    ensures protocol == "https" || protocol == "http"
    ensures protocol == "https" <==> IsTlsPort(hostPort) || exists port | port in svc.ports :: port.name == "https"
    ensures protocol == Protocol(svc.ports, hostPort)
  {
    protocol := "http";
    if IsTlsPort(hostPort) {
      protocol := "https";
    }
    for i := 0 to |svc.ports|
      invariant protocol == if IsTlsPort(hostPort) || HasHttpsPort(svc.ports[..i]) then "https" else "http"
    {
      assert svc.ports[..i + 1] == svc.ports[..i] + [svc.ports[i]];
      if svc.ports[i].name == "https" {
        protocol := svc.ports[i].name;
        assert svc.ports[..i + 1][i].name == "https";
      } else {
        assert forall j | 0 <= j < i + 1 :: svc.ports[..i + 1][j].name == "https" ==> j < i && svc.ports[..i][j].name == "https";
        assert forall j | 0 <= j < i :: svc.ports[..i + 1][j] == svc.ports[..i][j];
      }
    }
    assert svc.ports[..|svc.ports|] == svc.ports;
  }

  // ---- What the annotations tell -------------------------------------------

  /** The service is told this address: its URL, with the API path of the service behind it,
      under the URL annotation, and the bare address under the annotation of its choice;
      nothing else is touched. */
  ghost predicate Tells(before: Dict, after: Dict, scheme: string, address: string) {
    var base, api := scheme + "://" + address, Lookup(before, "api.service.kubernetes.io/path");
    var url := if api == "" then base else TrimSuffix(base, "/") + "/" + TrimPrefix(api, "/");
    var chosen := Lookup(before, "fabric8.io/exposeHostNameAs");
    && Lookup(after, "fabric8.io/exposeUrl") == (if chosen == "fabric8.io/exposeUrl" then address else url)
    && (chosen != "" ==> Lookup(after, chosen) == address)
    && forall key | key != "fabric8.io/exposeUrl" && key != chosen ::
         (key in after <==> key in before) && Lookup(after, key) == Lookup(before, key)
  }

  lemma AnnotatedTells(annotations: Dict, host: string, protocol: string)
    ensures Tells(annotations, Annotated(annotations, host, protocol), protocol, host)
  {
  }

  /** Neither the URL nor the chosen annotation is left, and everything else is. */
  ghost predicate Untells(before: Dict, after: Dict) {
    forall key ::
      if key == "fabric8.io/exposeUrl" || (key == Lookup(before, "fabric8.io/exposeHostNameAs") && key != "") then key !in after
      else (key in after <==> key in before) && Lookup(after, key) == Lookup(before, key)
  }

  lemma StrippedUntells(annotations: Dict)
    ensures Untells(annotations, Stripped(annotations))
  {
  }
}
