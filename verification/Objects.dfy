/** The cluster objects the controller reads and writes. A nil map, a nil slice
    and an empty one are the same value: the API's encoding omits all of them. */
module Objects {
  import opened Text

  type Dict = map<string, string>

  datatype Key = Key(namespace: string, name: string)

  type Int32 = n: int | -0x8000_0000 <= n < 0x8000_0000

  datatype TargetPort = TargetPort(strVal: string, intVal: Int32)

  datatype Port = Port(name: string, port: Int32, nodePort: Int32, targetPort: TargetPort)

  datatype Service = Service(
    namespace: string, name: string, uid: string, labels: Dict, annotations: Dict,
    serviceType: string, ports: seq<Port>, clusterIP: string, loadBalancerIP: string, externalIPs: seq<string>)
  {
    function Id(): Key {
      Key(namespace, name)
    }
  }

  const TYPE_NODE_PORT := "NodePort"
  const TYPE_LOAD_BALANCER := "LoadBalancer"

  datatype Owner = Owner(name: string, uid: string)

  /** One path of an HTTP ingress rule, with the backend it leads to. */
  datatype IngressPath = IngressPath(service: string, port: int, path: string)

  /** `http` is `None` for a rule without HTTP paths. */
  datatype Rule = Rule(host: string, http: Option<seq<IngressPath>>)

  datatype TlsEntry = TlsEntry(host: string, secret: string)

  datatype Ingress = Ingress(
    labels: Dict, annotations: Dict, owners: seq<Owner>, rules: seq<Rule>, tls: seq<TlsEntry>)

  datatype RouteTls = RouteTls(termination: string, insecurePolicy: string)

  datatype Route = Route(labels: Dict, target: string, host: string, path: string, tls: Option<RouteTls>)

  datatype ConfigMap = ConfigMap(annotations: Dict, data: Dict)

  datatype EnvVar = EnvVar(name: string, value: string)

  datatype Container = Container(name: string, env: seq<EnvVar>)

  datatype Deployment = Deployment(annotations: Dict, containers: seq<Container>)

  /** How one call of a handler ends. A Go panic is an outcome of its own. */
  datatype Status = Done | Failed | Panicked

  /** Which requests to the API server fail for reasons outside the model. */
  datatype Faults = Faults(get: bool, write: bool, patch: bool)

  const NO_FAULTS := Faults(false, false, false)

  // ---- Annotation and label names ------------------------------------------

  const EXPOSE := "expose"
  const ANN_EXPOSE := "fabric8.io/expose"
  const ANN_INJECT := "fabric8.io/inject"
  const ANN_HOST_NAME_AS := "fabric8.io/exposeHostNameAs"
  const ANN_URL := "fabric8.io/exposeUrl"
  const ANN_PORT := "fabric8.io/exposePort"
  const ANN_API_PATH := "api.service.kubernetes.io/path"
  const ANN_INGRESS_NAME := "fabric8.io/ingress.name"
  const ANN_HOST_NAME := "fabric8.io/host.name"
  const ANN_INTERNAL := "fabric8.io/use.internal.domain"
  const ANN_INGRESS_PATH := "fabric8.io/ingress.path"
  const ANN_PATH_MODE := "fabric8.io/path.mode"
  const ANN_INGRESS_ANNOTATIONS := "fabric8.io/ingress.annotations"
  const ANN_SKIP_TLS := "jenkins-x.io/skip.tls"
  const ANN_GENERATED_BY := "fabric8.io/generated-by"
  const ANN_CLASS := "kubernetes.io/ingress.class"
  const ANN_NGINX_CLASS := "nginx.ingress.kubernetes.io/ingress.class"
  const ANN_TLS_ACME := "kubernetes.io/tls-acme"
  const GENERATOR := "exposecontroller"
}
