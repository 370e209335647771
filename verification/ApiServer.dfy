/** The API server: a store of objects. `Get` hands out a value, so a caller never
    shares state with the store; create, update, delete and patch change it. The
    `fault` argument of a request says that it fails on the way. */
module ApiServer {
  import opened Text
  import opened Objects

  /** A two-way merge patch of a service: annotations to set (`Some`) or delete
      (`None`), a new service type, and whether the external addresses go away. */
  datatype Patch = Patch(annotations: map<string, Option<string>>, serviceType: Option<string>, dropExternalIPs: bool)

  /** What the controller changes on a clone of a service: nothing but these three fields. */
  predicate IsRewrite(a: Service, b: Service) {
    && b == a.(annotations := b.annotations, serviceType := b.serviceType, externalIPs := b.externalIPs)
    && (b.externalIPs == a.externalIPs || b.externalIPs == [])
  }

  /** createPatch: no patch when the encodings agree, else the difference. */
  function CreatePatch(a: Service, b: Service): Option<Patch> {
    if a == b then None
    else
      var changed := set k | k in a.annotations.Keys + b.annotations.Keys
                          && (k !in a.annotations || k !in b.annotations || a.annotations[k] != b.annotations[k]);
      Some(Patch(
        map k | k in changed :: if k in b.annotations then Some(b.annotations[k]) else None,
        if a.serviceType == b.serviceType then None else Some(b.serviceType),
        a.externalIPs != b.externalIPs))
  }

  function ApplyPatch(s: Service, p: Patch): Service {
    s.(annotations :=
         map k | k in s.annotations.Keys + p.annotations.Keys && !(k in p.annotations && p.annotations[k].None?)
               :: if k in p.annotations then p.annotations[k].value else s.annotations[k],
       serviceType := if p.serviceType.Some? then p.serviceType.value else s.serviceType,
       externalIPs := if p.dropExternalIPs then [] else s.externalIPs)
  }

  /** The patch is absent exactly when nothing changed, and applied to the object
      it was computed from it gives the rewritten one. */
  lemma PatchLaw(a: Service, b: Service)
    requires IsRewrite(a, b)
    ensures CreatePatch(a, b).None? <==> a == b
    ensures a != b ==> ApplyPatch(a, CreatePatch(a, b).value) == b
  {
    if a != b {
      var r := ApplyPatch(a, CreatePatch(a, b).value);
      assert r.annotations == b.annotations;
    }
  }

  /** The services after sending the difference between `a` and `b`: a failed
      request or a missing service leaves everything as it was. */
  function Patched(services: map<Key, Service>, a: Service, b: Service, fault: bool): map<Key, Service> {
    match CreatePatch(a, b)
    case None => services
    case Some(p) =>
      if fault || a.Id() !in services then services
      else services[a.Id() := ApplyPatch(services[a.Id()], p)]
  }

  /** Whether that request, when there is one, goes through. */
  predicate PatchOk(services: map<Key, Service>, a: Service, b: Service, fault: bool) {
    CreatePatch(a, b).None? || (!fault && a.Id() in services)
  }

  /** A patch computed from the stored version itself stores the rewritten service. */
  lemma PatchedCurrent(services: map<Key, Service>, a: Service, b: Service, fault: bool)
    requires IsRewrite(a, b)
    requires a.Id() in services && services[a.Id()] == a
    ensures Patched(services, a, b, fault) == services[a.Id() := if fault then a else b]
  {
    PatchLaw(a, b);
    assert services == services[a.Id() := a];
  }

  function Without<V>(m: map<Key, V>, key: Key): map<Key, V> {
    m - {key}
  }

  /** `names` lists the objects of a namespace, each once. */
  ghost predicate Enumerates<V>(names: seq<string>, m: map<Key, V>, namespace: string) {
    && (forall name :: name in names <==> Key(namespace, name) in m)
    && (forall i, j | 0 <= i < j < |names| :: names[i] != names[j])
  }

  method ListNames<V>(m: map<Key, V>, namespace: string) returns (names: seq<string>)
    ensures Enumerates(names, m, namespace)
  {
    names := [];
    var rest := set key | key in m && key.namespace == namespace;
    while rest != {}
      invariant forall key | key in rest :: key in m && key.namespace == namespace && key.name !in names
      invariant forall name :: name in names ==> Key(namespace, name) in m
      invariant forall key | key in m && key.namespace == namespace :: key in rest || key.name in names
      invariant forall i, j | 0 <= i < j < |names| :: names[i] != names[j]
      decreases rest
    {
      var key :| key in rest;
      rest := rest - {key};
      names := names + [key.name];
    }
  }

  class ApiServer {
    var services: map<Key, Service>
    var ingresses: map<Key, Ingress>
    var routes: map<Key, Route>
    var configMaps: map<Key, ConfigMap>
    var deployments: map<Key, Deployment>

    method GetIngress(key: Key) returns (r: Option<Ingress>)
      ensures r == if key in ingresses then Some(ingresses[key]) else None
    {
      r := if key in ingresses then Some(ingresses[key]) else None;
    }

    /** Creation fails on a name that is taken. */
    method CreateIngress(key: Key, ingress: Ingress, fault: bool) returns (ok: bool)
      modifies this`ingresses
      ensures ok == (!fault && key !in old(ingresses))
      ensures ingresses == if ok then old(ingresses)[key := ingress] else old(ingresses)
    {
      ok := !fault && key !in ingresses;
      if ok {
        ingresses := ingresses[key := ingress];
      }
    }

    /** An update fails on a name that is not there. */
    method UpdateIngress(key: Key, ingress: Ingress, fault: bool) returns (ok: bool)
      modifies this`ingresses
      ensures ok == (!fault && key in old(ingresses))
      ensures ingresses == if ok then old(ingresses)[key := ingress] else old(ingresses)
    {
      ok := !fault && key in ingresses;
      if ok {
        ingresses := ingresses[key := ingress];
      }
    }

    /** Deleting an absent ingress succeeds as far as the callers are concerned. */
    method DeleteIngress(key: Key, fault: bool) returns (ok: bool)
      modifies this`ingresses
      ensures ok == !fault
      ensures ingresses == if fault then old(ingresses) else Without(old(ingresses), key)
    {
      ok := !fault;
      if ok {
        ingresses := ingresses - {key};
      }
    }

    /** The ingresses of a namespace, or all of them when none is named, in whatever order
        the server lists them. */
    method ListIngresses(namespace: string) returns (keys: seq<Key>)
      ensures forall key :: key in keys <==> key in ingresses && (namespace == "" || key.namespace == namespace)
      ensures forall i, j | 0 <= i < j < |keys| :: keys[i] != keys[j]
    {
      keys := [];
      var rest := set key | key in ingresses && (namespace == "" || key.namespace == namespace);
      while rest != {}
        invariant forall key | key in rest :: key in ingresses && (namespace == "" || key.namespace == namespace) && key !in keys
        invariant forall key | key in keys :: key in ingresses && (namespace == "" || key.namespace == namespace)
        invariant forall key | key in ingresses && (namespace == "" || key.namespace == namespace) :: key in rest || key in keys
        invariant forall i, j | 0 <= i < j < |keys| :: keys[i] != keys[j]
        decreases rest
      {
        var key :| key in rest;
        rest := rest - {key};
        keys := keys + [key];
      }
    }

    /** Compute and send the patch that turns `a` into `b`. */
    method PatchService(a: Service, b: Service, fault: bool) returns (ok: bool)
      modifies this`services
      ensures services == Patched(old(services), a, b, fault)
      ensures ok == PatchOk(old(services), a, b, fault)
    {
      var patch := CreatePatch(a, b);
      if patch.None? {
        return true;
      }
      ok := !fault && a.Id() in services;
      if ok {
        services := services[a.Id() := ApplyPatch(services[a.Id()], patch.value)];
      }
    }
  }

  /** Whatever version is stored by the time the patch arrives, it changes exactly what the
      rewrite changed: an annotation that differs is set or deleted, the others stay as they
      are stored, and so do the type and the external addresses unless they were rewritten. */
  lemma PatchMergesIntoAnyVersion(a: Service, b: Service, stored: Service)
    requires IsRewrite(a, b) && a != b
    ensures var r := ApplyPatch(stored, CreatePatch(a, b).value);
      && r == stored.(annotations := r.annotations, serviceType := r.serviceType, externalIPs := r.externalIPs)
      && (forall key :: (key in r.annotations <==>
            if (key in a.annotations <==> key in b.annotations) && Lookup(a.annotations, key) == Lookup(b.annotations, key)
            then key in stored.annotations else key in b.annotations))
      && (forall key | key in r.annotations :: r.annotations[key] ==
            if (key in a.annotations <==> key in b.annotations) && Lookup(a.annotations, key) == Lookup(b.annotations, key)
            then stored.annotations[key] else b.annotations[key])
      && r.serviceType == (if a.serviceType == b.serviceType then stored.serviceType else b.serviceType)
      && r.externalIPs == (if a.externalIPs == b.externalIPs then stored.externalIPs else b.externalIPs)
  {
  }

  /** A request to a service that is not there, or that fails, changes nothing; and no
      patch is ever sent to any other service. */
  lemma PatchReachesOneService(services: map<Key, Service>, a: Service, b: Service, fault: bool)
    requires IsRewrite(a, b)
    ensures var after := Patched(services, a, b, fault);
      && after.Keys == services.Keys
      && (forall key | key in services && key != Key(a.namespace, a.name) :: after[key] == services[key])
      && (fault || a == b ==> after == services)
      && (PatchOk(services, a, b, fault) <==> a == b || (!fault && Key(a.namespace, a.name) in services))
  {
    PatchLaw(a, b);
    hide CreatePatch, ApplyPatch;
  }
}
