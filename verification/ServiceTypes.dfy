/** The node port and load balancer strategies: they rewrite the service itself. */
module ServiceTypes {
  import opened Text
  import opened Objects
  import opened ApiServer
  import opened Annotations

  /** `net.JoinHostPort`. */
  function JoinHostPort(host: string, port: string): string {
    if ':' in host then "[" + host + "]:" + port else host + ":" + port
  }

  /** The service as NodePortStrategy.Add rewrites it; `None` is the error on a service
      that does not have exactly one port. `portOf` is `net.SplitHostPort`. */
  function AsNodePort(nodeIP: string, portOf: string -> Option<string>, svc: Service): Option<Service> {
    if |svc.ports| != 1 then None
    else
      var port := svc.ports[0].nodePort;
      var host := JoinHostPort(nodeIP, Itoa(port));
      Some(svc.(
        serviceType := TYPE_NODE_PORT,
        annotations := if port > 0 then Annotated(svc.annotations, host, Protocol(svc.ports, portOf(host))) else svc.annotations,
        externalIPs := []))
  }

  /** The service as LoadBalancerStrategy.Add rewrites it. */
  function AsLoadBalancer(portOf: string -> Option<string>, svc: Service): Service {
    var ip := svc.loadBalancerIP;
    svc.(
      serviceType := TYPE_LOAD_BALANCER,
      annotations := if ip != "" then Annotated(svc.annotations, ip, Protocol(svc.ports, portOf(ip))) else svc.annotations)
  }

  class NodePortStrategy {
    const server: ApiServer
    const nodeIP: string
    const portOf: string -> Option<string>

    constructor (server: ApiServer, nodeIP: string, portOf: string -> Option<string>)
      ensures this.server == server && this.nodeIP == nodeIP && this.portOf == portOf
    {
      this.server, this.nodeIP, this.portOf := server, nodeIP, portOf;
    }

    method Add(svc: Service, faults: Faults) returns (status: Status)
      modifies server`services
      ensures var rewritten := AsNodePort(nodeIP, portOf, svc);
        match rewritten
        case None => server.services == old(server.services) && status == Failed
        case Some(clone) =>
          && server.services == Patched(old(server.services), svc, clone, faults.patch)
          && status == if PatchOk(old(server.services), svc, clone, faults.patch) then Done else Failed
    {
      var clone := svc.(serviceType := TYPE_NODE_PORT);
      if |svc.ports| == 0 {
        return Failed;
      }
      if |svc.ports| > 1 {
        return Failed;
      }
      var port := svc.ports[0].nodePort;
      var hostName := JoinHostPort(nodeIP, Itoa(port));
      if port > 0 {
        var protocol := FindHttpProtocol(clone, portOf(hostName));
        clone := AddServiceAnnotationWithProtocol(clone, hostName, protocol);
      }
      clone := clone.(externalIPs := []);
      var ok := server.PatchService(svc, clone, faults.patch);
      status := if ok then Done else Failed;
    }
  }

  class LoadBalancerStrategy {
    const server: ApiServer
    const portOf: string -> Option<string>

    constructor (server: ApiServer, portOf: string -> Option<string>)
      ensures this.server == server && this.portOf == portOf
    {
      this.server, this.portOf := server, portOf;
    }

    method Add(svc: Service, faults: Faults) returns (status: Status)
      modifies server`services
      ensures server.services == Patched(old(server.services), svc, AsLoadBalancer(portOf, svc), faults.patch)
      ensures status == if PatchOk(old(server.services), svc, AsLoadBalancer(portOf, svc), faults.patch) then Done else Failed
    {
      var clone := svc.(serviceType := TYPE_LOAD_BALANCER);
      if |clone.loadBalancerIP| > 0 {
        var protocol := FindHttpProtocol(clone, portOf(clone.loadBalancerIP));
        clone := AddServiceAnnotationWithProtocol(clone, clone.loadBalancerIP, protocol);
      }
      var ok := server.PatchService(svc, clone, faults.patch);
      status := if ok then Done else Failed;
    }
  }

  /** Remove of both strategies: only the annotations are taken off again. */
  method RemoveAnnotations(server: ApiServer, svc: Service, faults: Faults) returns (status: Status)
    modifies server`services
    ensures server.services == Patched(old(server.services), svc, svc.(annotations := Stripped(svc.annotations)), faults.patch)
    ensures status == if PatchOk(old(server.services), svc, svc.(annotations := Stripped(svc.annotations)), faults.patch)
                      then Done else Failed
  {
    var clone := RemoveServiceAnnotation(svc);
    var ok := server.PatchService(svc, clone, faults.patch);
    status := if ok then Done else Failed;
  }

  // ---- Convergence ---------------------------------------------------------

  /** `n` load balancer rewrites in a row. */
  function LoadBalancerTimes(portOf: string -> Option<string>, svc: Service, n: nat): Service {
    if n == 0 then svc else AsLoadBalancer(portOf, LoadBalancerTimes(portOf, svc, n - 1))
  }

  function NodePortTimes(nodeIP: string, portOf: string -> Option<string>, svc: Service, n: nat): Service
    requires |svc.ports| == 1
    ensures NodePortTimes(nodeIP, portOf, svc, n).ports == svc.ports
  {
    if n == 0 then svc else AsNodePort(nodeIP, portOf, NodePortTimes(nodeIP, portOf, svc, n - 1)).value
  }

  /** The annotations after `n` rewrites are those after `n` annotation steps. */
  lemma {:induction false} LoadBalancerAnnotations(portOf: string -> Option<string>, svc: Service, n: nat)
    ensures var s := LoadBalancerTimes(portOf, svc, n);
      s == svc.(
        serviceType := if n == 0 then svc.serviceType else TYPE_LOAD_BALANCER,
        annotations := if svc.loadBalancerIP == "" then svc.annotations
          else Reannotated(svc.annotations, svc.loadBalancerIP, Protocol(svc.ports, portOf(svc.loadBalancerIP)), n))
  {
    if n > 0 {
      LoadBalancerAnnotations(portOf, svc, n - 1);
    }
  }

  lemma {:induction false} NodePortAnnotations(nodeIP: string, portOf: string -> Option<string>, svc: Service, n: nat)
    requires |svc.ports| == 1
    ensures var s := NodePortTimes(nodeIP, portOf, svc, n);
      var host := JoinHostPort(nodeIP, Itoa(svc.ports[0].nodePort));
      s == svc.(
        serviceType := if n == 0 then svc.serviceType else TYPE_NODE_PORT,
        externalIPs := if n == 0 then svc.externalIPs else [],
        annotations := if svc.ports[0].nodePort <= 0 then svc.annotations
          else Reannotated(svc.annotations, host, Protocol(svc.ports, portOf(host)), n))
  {
    if n > 0 {
      NodePortAnnotations(nodeIP, portOf, svc, n - 1);
    }
  }

  /** The fourth rewrite changes nothing any more. */
  lemma LoadBalancerSettles(portOf: string -> Option<string>, svc: Service)
    ensures LoadBalancerTimes(portOf, svc, 4) == LoadBalancerTimes(portOf, svc, 3)
  {
    LoadBalancerAnnotations(portOf, svc, 3);
    LoadBalancerAnnotations(portOf, svc, 4);
    hide LoadBalancerTimes, Reannotated;
    if svc.loadBalancerIP != "" {
      FourthIsThird(svc.annotations, svc.loadBalancerIP, Protocol(svc.ports, portOf(svc.loadBalancerIP)));
    }
  }

  lemma NodePortSettles(nodeIP: string, portOf: string -> Option<string>, svc: Service)
    requires |svc.ports| == 1
    ensures NodePortTimes(nodeIP, portOf, svc, 4) == NodePortTimes(nodeIP, portOf, svc, 3)
  {
    NodePortAnnotations(nodeIP, portOf, svc, 3);
    NodePortAnnotations(nodeIP, portOf, svc, 4);
    hide NodePortTimes, Reannotated;
    var host := JoinHostPort(nodeIP, Itoa(svc.ports[0].nodePort));
    if svc.ports[0].nodePort > 0 {
      FourthIsThird(svc.annotations, host, Protocol(svc.ports, portOf(host)));
    }
  }

  // ---- The stored service --------------------------------------------------

  /** A node port Add of a service with exactly one port: the stored service has that type, no
      external addresses, and, once its node port is assigned, is told the node's address with
      that port, in brackets if it has colons itself. Every other service is an error. */
  lemma StoredNodePort(nodeIP: string, portOf: string -> Option<string>, services: map<Key, Service>, svc: Service)
    requires svc.Id() in services && services[svc.Id()] == svc
    ensures AsNodePort(nodeIP, portOf, svc).None? <==> |svc.ports| != 1
    ensures |svc.ports| == 1 ==>
      var after, port := Patched(services, svc, AsNodePort(nodeIP, portOf, svc).value, false), svc.ports[0];
      var address := (if ':' in nodeIP then "[" + nodeIP + "]" else nodeIP) + ":" + Itoa(port.nodePort);
      && svc.Id() in after
      && var stored := after[svc.Id()];
         && after == services[svc.Id() := stored]
         && stored == svc.(serviceType := "NodePort", externalIPs := [], annotations := stored.annotations)
         && if port.nodePort <= 0 then stored.annotations == svc.annotations
            else Tells(svc.annotations, stored.annotations,
                       if portOf(address) in {Some("443"), Some("8443")} || port.name == "https" then "https" else "http",
                       address)
  {
    if |svc.ports| == 1 {
      var next, address := AsNodePort(nodeIP, portOf, svc).value, JoinHostPort(nodeIP, Itoa(svc.ports[0].nodePort));
      assert "[" + nodeIP + "]:" == "[" + nodeIP + "]" + ":";
      TlsPorts(portOf(address));
      AnnotatedTells(svc.annotations, address, Protocol(svc.ports, portOf(address)));
      assert next == svc.(serviceType := "NodePort", externalIPs := [], annotations := next.annotations) && IsRewrite(svc, next);
      hide Annotated, Tells, IsTlsPort, NatToText;
      PatchedCurrent(services, svc, next, false);
      hide Patched;
    }
  }

  /** A load balancer Add: the stored service has that type, and is told the balancer's
      address as soon as there is one. */
  lemma StoredLoadBalancer(portOf: string -> Option<string>, services: map<Key, Service>, svc: Service)
    requires svc.Id() in services && services[svc.Id()] == svc
    ensures var after, ip := Patched(services, svc, AsLoadBalancer(portOf, svc), false), svc.loadBalancerIP;
      && svc.Id() in after
      && var stored := after[svc.Id()];
         && after == services[svc.Id() := stored]
         && stored == svc.(serviceType := "LoadBalancer", annotations := stored.annotations)
         && if ip == "" then stored.annotations == svc.annotations
            else Tells(svc.annotations, stored.annotations,
                       if portOf(ip) in {Some("443"), Some("8443")} || exists port | port in svc.ports :: port.name == "https"
                       then "https" else "http",
                       ip)
  {
    var next, ip := AsLoadBalancer(portOf, svc), svc.loadBalancerIP;
    TlsPorts(portOf(ip));
    HttpsPorts(svc.ports);
    AnnotatedTells(svc.annotations, ip, Protocol(svc.ports, portOf(ip)));
    assert next == svc.(serviceType := "LoadBalancer", annotations := next.annotations) && IsRewrite(svc, next);
    hide Annotated, Tells, IsTlsPort, HasHttpsPort;
    PatchedCurrent(services, svc, next, false);
    hide Patched;
  }

  /** Taking the annotations off again leaves everything else of the service, its type too. */
  lemma StoredRemoval(services: map<Key, Service>, svc: Service)
    requires svc.Id() in services && services[svc.Id()] == svc
    ensures var after := Patched(services, svc, svc.(annotations := Stripped(svc.annotations)), false);
      && svc.Id() in after && after == services[svc.Id() := svc.(annotations := after[svc.Id()].annotations)]
      && Untells(svc.annotations, after[svc.Id()].annotations)
  {
    StrippedUntells(svc.annotations);
    hide Stripped, Untells;
    PatchedCurrent(services, svc, svc.(annotations := Stripped(svc.annotations)), false);
    hide Patched;
  }
}
