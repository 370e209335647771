# A verified model of exposecontroller

exposecontroller watches the services of a cluster and keeps other objects in step with
them: it writes ingresses or routes, rewrites the services themselves, injects URLs into
config maps and rolls deployments whose config map changed. Its own writes cause further
events, so what matters is what holds over whole runs. This project models the
reconciler and proves such statements.

`dafny verify dfyconfig.toml` checks everything.

## How it is laid out

- `Text`, `Objects`, `ApiServer`: Go's string functions on ASCII text, the cluster objects, and
  the API server as a class of maps. A request can fail; which ones do is an input.
- `Annotations`, `Paths`, `Templates`: the exposed URL on a service, path-mode paths, and the URL
  template that is compiled to a printf format.
- `Ingresses`, `IngressRuns`, `Cleanup`: the ingress strategy step by step, what an ingress equals
  after any run, and the cleanup mode.
- `Addresses`, `Triggers`: what an Add and a Remove of that strategy leave in the stored objects, and
  which labels and annotations make the handlers act.
- `ServiceTypes`, `Routes`: the node port, load balancer and route strategies.
- `Handlers`, `Controller`: the informer's handlers, as functions and as methods over the store.
- `Orbits`, `EventLoop`, `Divergence`, `Settlement`, `Exposure`: the closed event loop. That it drains,
  exactly when it does, what it has achieved at any time whichever requests failed, and when the
  existence of an ingress follows the last delivered version.
- `EnvNames`, `Tokens`, `Rollouts`: the rolling upgrade of the deployments that follow a config map.
- `Assignments`, `Lines`, `ServiceMaps`, `OtherMaps`: config map injection, as conditional writes to
  entries and rewrites of their lines.
- `Injections`, `UrlForms`: what it leaves in a config map, annotation by annotation and entry by entry.

Each imperative part of the source is a method, with the source's loops and updates, that is
proved equal to a function of its inputs; the lemmas are about those functions. For every operation
some of them say what it leaves in the stored objects in terms of the inputs alone: the names of
labels and annotations are written out there, and hosts, paths, values and tokens are built from the
inputs again, not taken from the functions that the methods are proved equal to. A Go panic is
the outcome `Panicked`/`Crash`; all panics of an Add come before its first write, so the store is
then as it was. A nil map or slice and an empty one are one value, as in the API's encoding.
Parsers and libraries that the source calls (`net/url`, YAML, `net.SplitHostPort`, the host an
OpenShift server defaults) are function parameters.

## What the proofs found

- The annotation feedback loop of the ingress strategy drains because Add returns early once its
  backend is listed. It fails to drain when `fabric8.io/exposeHostNameAs` names
  `fabric8.io/ingress.name` (with a format that lengthens the name and no host name annotation,
  or in path mode) or `fabric8.io/ingress.path` in path mode. However many services share the
  ingresses, and unless the annotation names itself, there is no other case: one such service that
  Add can handle, with nothing of its own listed further out, keeps the queue busy for as long as
  no request is refused, and without one the queue runs empty. (A server that checks names ends
  the growth by refusing an ingress name with a slash, or one of more than 253 characters.)
- The same early return means that a service whose patch failed once is never annotated while
  its ingress exists.
- Remove does not read the name annotation that Add honours, and a lost inject-only exposure
  removes nothing.
- In path mode without a wildcard the TLS entry names the template host, not the host of the rule.
- Services that share an ingress but not a host are all told their own host, while the rule
  carries that of the one listed last; the rules carry what all of them were told exactly when
  services that share an ingress agree.
- A config-yaml setting that applies sets the flag on every pass, so the config map is written and
  its deployments are rolled on every event. The data themselves change on every pass exactly when
  some such setting edits an entry that is not also written unconditionally; otherwise they are
  settled after the first pass.
- Annotations that write different values under one key set the flag on every event, although the
  data stay the same, in the service's own config map as in the others.
- Injection into a config map without a data section panics as soon as one of its annotations asks
  for a value that is not empty.
- The token of a config map tells different data apart as long as no value has a semicolon with a
  legal key and an equals sign behind it. Any value that has one can stand under a key
  where a map with one entry more shares its token, and a change between the two rolls nothing.
- Cleanup finds an ingress by its mark alone, and that is what the annotation lines of the services
  listed in it, one after the other, have made of it.
- With `usePath` and no configured host, every Add deletes and recreates the route. A route is lost
  only by an Add that deletes it and fails to create it again.
- One config map that strips the protocol changes what the maps listed after it receive.

Where the repository's documentation and its code disagree, the model follows the code:
`configmap.fabric8.io/update-on-change` is read from deployments and lists config maps
(`controller/deployments.go:26-31`), the if-empty key is
`expose.config.fabric8.io/clusterip-port-if-empty-key` (`controller/controller.go:42`), and the
ingress annotation list is `fabric8.io/ingress.annotations` (`exposestrategy/ingress.go:192`).

## Model

| member | source | states |
|---|---|---|
| IngressRuns.RunRefinement | exposestrategy/ingress.go:204-270 | after any run of Adds and Removes on an ingress that started absent, with the events behind its last deletion: it exists iff an Add was attempted; its one rule lists the first occurrence of each attempted (service name, path), the latest in front, with the host of the latest of them |
| IngressRuns.FirstsAreTheFirstOccurrences | exposestrategy/ingress.go:209-214 | the positions used there are exactly the first occurrences, in increasing order |
| IngressRuns.NoDuplicateBackends | exposestrategy/ingress.go:209-214 | no (service, path) pair is listed twice, over all runs |
| IngressRuns.OldBackendsAreASuffix | exposestrategy/ingress.go:250-259 | as long as an ingress is not deleted, its old backends stay a suffix of its backends, whoever created it; one whose first rule is not HTTP stays untouched |
| IngressRuns.AttemptOutcome | exposestrategy/ingress.go:204-270 | an Add of a well-formed service either finds its backend and stores nothing, or stores exactly one more backend in front, its host and its owner |
| IngressRuns.OthersKeepOut | exposestrategy/ingress.go:81-214 | an Add for another ingress, with a failed request or a malformed service leaves the ingress as it was |
| IngressRuns.LandsIff | exposestrategy/ingress.go:122-281 | an Add stores its ingress iff its requests go through, the service is well formed and its backend is not listed there yet |
| IngressRuns.AddLists | exposestrategy/ingress.go:250-259 | a stored ingress lists its own service at its target, where it was not listed before, and changes nothing about any other service or target |
| IngressRuns.FailedPatchIsNotRetried | exposestrategy/ingress.go:209-214 | after a failed patch no later Add of that service name and path changes any service while the ingress is there |
| IngressRuns.TlsEntryOfStoredIngress | exposestrategy/ingress.go:103-119 | without a wildcard the TLS entry names the rule's host iff path mode is off or the two hosts coincide, and it has a secret iff ACME is on |
| IngressRuns.RemoveFindsTheIngressIffDefaultName | exposestrategy/ingress.go:329-336 | Remove after Add takes the ingress away iff the name annotation is absent or repeats the default name |
| IngressRuns.OwnersMatchBackends | exposestrategy/ingress.go:148-162 | in every reachable created ingress owners have distinct UIDs, their names are exactly the backend names, and each backend port was declared by its service when it was added |
| Ingresses.HostIsRendered | exposestrategy/ingress.go:60-78 | with the format compiled from the template when the strategy is built, every service gets the host that the template renders for it, iff the template has a field |
| Ingresses.IngressStrategy.Add | exposestrategy/ingress.go:81-327 | the stored ingresses and services after one Add, with every early return, failing request and panic |
| Addresses.ServiceIsToldTheRule | exposestrategy/ingress.go:112-120 | after an Add that lands and whose patch goes through, the service carries the scheme, the host of the stored rule, in path mode the path of its front backend with one slash between, and the API path; https iff TLS is not skipped and a secret or ACME is configured; nothing else of the service changes |
| Addresses.StoredRule | exposestrategy/ingress.go:204-270 | the stored ingress has the name that the annotation gives, else the service's without its first release prefix; its one rule has in front a backend with the service's name, its exposed port and, in host mode, its path annotation, and the old backends behind; no other ingress changes |
| Addresses.StoredHost | exposestrategy/ingress.go:91-118 | the host of that rule: the domain in path mode, else the format run on host name annotation or ingress name, namespace and domain, which is the internal one iff the service asks for it |
| Addresses.StoredPath | exposestrategy/ingress.go:112-117 | in path mode, for slash-free names, the front backend's path is the namespace, the ingress name and the path annotation, with one slash before each |
| Addresses.StoredTls | exposestrategy/ingress.go:102-105 | the TLS entry of the stored ingress: the wildcard or the host-mode host, and the secret iff ACME is on; the old entries if TLS is off |
| Addresses.StoredOwners | exposestrategy/ingress.go:138-162 | the provider label of an ingress without labels, and the service as an owner, once per UID |
| Addresses.StoredAnnotations | exposestrategy/ingress.go:143-200 | every annotation of the stored ingress: the value of the service's last line that sets it, else the class, the ACME mark, the generated-by mark of an ingress without annotations, or the old value |
| Addresses.AddEnds | exposestrategy/ingress.go:122-326 | how an Add ends: with a panic iff a line has no colon, the first rule is not HTTP, or an unlisted service has no ports; with success iff its requests go through |
| Text.TrimSpaceTrims | exposestrategy/ingress.go:197-197 | white space is taken off both ends of the value, all of it and nothing else |
| Ingresses.IngressStrategy.Assemble | exposestrategy/ingress.go:122-281 | the ingress built in memory, or the early return, or the panic |
| Ingresses.IngressStrategy.Names | exposestrategy/ingress.go:91-120 | hosts, TLS host and path in both modes |
| Ingresses.IngressStrategy.OwnIngress | exposestrategy/ingress.go:143-190 | generated-by mark, owner entry, class and ACME annotations |
| Ingresses.IngressStrategy.AddLines | exposestrategy/ingress.go:192-200 | annotation lines applied in order, panic on a line without a colon |
| Ingresses.IngressStrategy.FindBackend | exposestrategy/ingress.go:209-214 | found iff some backend has that service and path |
| Ingresses.IngressStrategy.ChoosePort | exposestrategy/ingress.go:216-247 | the annotated port if the service declares it, else the first, none without ports; always a declared port |
| Ingresses.IngressStrategy.Remove | exposestrategy/ingress.go:329-368 | deletes the whole ingress of the default name, then takes the annotations off |
| Addresses.RemovedIngress | exposestrategy/ingress.go:329-365 | only the ingress of the default name goes, and the service loses its URL and the annotation it chose, and nothing else |
| EventLoop.LoopDrains | controller/controller.go:148-190 | with no outside events, for any services sharing ingresses, any stored objects, any format as `Templates.Sprintf` runs it, any delivery order and any failing requests, the queue runs empty; for the ingress strategy provided no service with an event due that the handlers act on and Add can handle grows |
| EventLoop.DeliveryMakesProgress | controller/controller.go:163-190 | every single delivery lowers the measure (phases, outstanding writes, queue length) lexicographically and keeps its conditions |
| EventLoop.IngressWork | exposestrategy/ingress.go:209-324 | an Add that stores its ingress leaves fewer unlisted targets for its service and no more for any other |
| EventLoop.RankFalls | exposestrategy/nodeport.go:80-133 | a node port or load balancer rewrite that changes the service lowers the number of rewrites still to come |
| Orbits.OrbitCloses | exposestrategy/ingress.go:81-120 | unless the service grows, the targets of all later Adds are among those of this one and the next two |
| Orbits.GrowthStep | exposestrategy/utils.go:57-59 | a growing service aims strictly further out after each rewrite, and keeps growing |
| Orbits.StaysTame | exposestrategy/utils.go:45-62 | a service that does not grow does not start to after a rewrite |
| Orbits.GrowthOfTemplates | exposestrategy/utils.go:137-152 | for a format compiled from a template with a field: it lengthens a name iff the template has the service field and something else in it, or has it twice and the name is not empty |
| Divergence.DrainsIffNothingGrows | exposestrategy/utils.go:45-62 | without failing requests, for any number of services sharing ingresses: the loop drains iff no service with an event due that the handlers act on and Add can handle grows; growing ones do not let exposeHostNameAs name itself and are listed nowhere at or beyond their next target |
| Divergence.NeverDrains | exposestrategy/ingress.go:81-89 | while no request fails a growing service always has an event due, in any delivery order, whatever other services are added and removed meanwhile |
| Divergence.SelfNamedIsRewrittenOnce | exposestrategy/utils.go:57-59 | when exposeHostNameAs names itself, the delivery whose Add lands is the last to rewrite the service, among any other services, in any order and with any failing requests, as long as its backend stays listed |
| Settlement.RunIsRecorded | controller/controller.go:148-190 | at any time after the controller starts on services that are listed at their targets or nowhere, in any delivery order and with any failing requests: each service is as its own first delivery that reached its ingress left it, or as it was if it had been listed; it is listed at its target and nowhere else iff it had been, or there was such a delivery and Add can handle it |
| Settlement.CleanStartSettles | controller/controller.go:148-190 | from such a start with any failing requests the queue runs empty, and then a service the handlers act on is served (listed, and its annotations final) iff, having been listed, it carried its final annotations, or, not having been, Add can handle it, one of its deliveries reached its ingress, and the patch of the first of them went through or had nothing to change |
| Settlement.RestartIsClean | controller/controller.go:148-190 | wherever a run has got to, starting the controller again is such a start, so all of this holds over any number of restarts |
| Settlement.RulesCarryTheHostsIffAgreed | exposestrategy/ingress.go:260-270 | at any time the rules carry the host of every listed service iff listed services that share an ingress agree on it, provided each rule carried the host of some listed service at the start, which every run keeps |
| Settlement.CleanStartServesEveryService | controller/controller.go:148-190 | without failing requests: the queue runs empty; then exactly the services that were listed or that Add can handle are listed, those that were not are served iff Add can handle them, and the rules carry their hosts iff those that share an ingress agree |
| Settlement.RecordedLands | exposestrategy/ingress.go:204-324 | the step behind it: an Add stores its ingress iff the service was not listed at the start, this is its first delivery that gets its requests through, and Add can handle it |
| Settlement.PlainRewriteSettles | exposestrategy/ingress.go:302-324 | when the chosen key is not read by anything, a second rewrite of the whole service changes nothing |
| Exposure.ExposureTracksTheLastVersion | controller/controller.go:163-190 | the ingress is there iff the version delivered last matched and is whitelisted, after every delivery, exactly when no inject-only exposure of a whitelisted service is lost |
| Exposure.TracksOn | controller/controller.go:176-189 | one more delivery keeps that agreement iff it does not lose an inject-only exposure |
| Handlers.TombstoneFindsTheIngressIffServiceName | controller/controller.go:191-206 | a tombstone takes away the ingress that an Add of the service stored iff that is named like the service, and changes no service |
| Triggers.MarkedServiceIsListed | controller/controller.go:148-175 | a permitted service that Add can handle and that carries the expose label, the expose annotation or the inject annotation has its backend, with its name and in host mode its path annotation, in the ingress that it names after its Add event and after every Update to it |
| Triggers.UnmarkedServiceIsLeftAlone | controller/controller.go:149-189 | an event of a service that is not permitted, or carries none of the three, changes nothing, unless it is an Update and the old version had the label or the expose annotation |
| Triggers.UnmarkingRemoves | controller/controller.go:176-188 | such an Update takes the ingress of the default name and the annotations away |
| Triggers.DeletionRemovesByServiceName | controller/controller.go:191-206 | of the deletions only a tombstone of a permitted service does anything: the ingress named like it goes |
| Controller.Controller.AddFunc | controller/controller.go:148-162 | services, ingresses, config maps and deployments after the Add handler; no injection after a panic of the strategy, nothing at all for services that do not match or are not whitelisted |
| Controller.Controller.UpdateFunc | controller/controller.go:163-190 | the same after the Update handler, with the removal when the old version was declared |
| Controller.Controller.DeleteFunc | controller/controller.go:191-206 | the world after the Delete handler |
| Controller.Controller.IsServiceWhitelisted | controller/controller.go:215-226 | true iff the list is empty or contains the name |
| Controller.Controller.UpdateRelatedResources | controller/controller.go:281-291 | config maps and deployments after both injections, in that order, up to the refused update at which each loop stops; the second is skipped without a URL or after a panic of the first |
| Controller.Controller.MapsAreInjected | controller/controller.go:281-291 | the config maps after a pass without failing requests: the service's own map has the injected data, then, if it has a URL, each map of its namespace the data of one visit for the service's name, with the URL that the map before it left; all others stay |
| Cleanup.Clean | exposecontroller.go:171-189 | exactly the marked ingresses of the namespace whose names contain the filter go; it ends fatally iff one of them cannot be deleted; without a namespace it lists all of them and ends fatally at the first, with none deleted |
| Cleanup.CleanupLeaves | exposecontroller.go:171-188 | an ingress goes iff it is in the namespace, its generated-by annotation says exposecontroller, and the filter occurs somewhere in its name |
| Cleanup.MarkAfterRun | exposestrategy/ingress.go:143-200 | after any run of Adds and Removes, the mark of an ingress that started absent is what the annotation lines of the services listed in it, in the order in which they were listed, make of the generator's |
| Cleanup.CleanupRemovesTheSigned | exposecontroller.go:171-188 | after any run that keeps off the initial ingresses, cleanup with a filter removes exactly the created ingresses whose names contain it and whose marks come out as the generator's |
| Cleanup.CleanupRestoresTheStartIff | exposecontroller.go:171-188 | after such a run in one namespace, cleanup with the empty filter gives back exactly the initial ingresses iff the mark of every created ingress comes out as the generator's |
| Cleanup.LandingMark | exposestrategy/ingress.go:143-200 | an Add that stores its ingress leaves the mark that the service's own lines make of the old one, or of the generator's if the ingress is new |
| ApiServer.PatchLaw | exposestrategy/utils.go:78-103 | there is no patch iff the objects are equal, and applying it to the first gives the second |
| ApiServer.PatchMergesIntoAnyVersion | exposestrategy/utils.go:78-103 | applied to any stored version, the patch sets or deletes exactly what the rewrite changed and keeps what is stored otherwise |
| ApiServer.PatchReachesOneService | exposestrategy/ingress.go:311-324 | a request changes no other service, and none at all when it fails or its service is not there |
| Annotations.AddServiceAnnotationWithProtocol | exposestrategy/utils.go:45-62 | the annotations of the rewritten service |
| Annotations.RemoveServiceAnnotation | exposestrategy/utils.go:69-76 | the annotations after removal |
| Annotations.AnnotatedTells | exposestrategy/utils.go:45-62 | the URL annotation is scheme, "://", address and API path, joined by one slash; the chosen annotation is the bare address; no other annotation changes |
| Annotations.StrippedUntells | exposestrategy/utils.go:69-76 | the URL annotation and the chosen one are gone; no other annotation changes |
| Annotations.AnnotationSettles | exposestrategy/utils.go:45-62 | from the fourth application on nothing changes, whichever annotation the chosen key aliases |
| Annotations.ThreeApplicationsCanBeNeeded | exposestrategy/utils.go:51-59 | three is the exact bound |
| Annotations.RemoveUndoesAdd | exposestrategy/utils.go:45-76 | remove after add is remove alone iff the key does not name itself or the host is its own name |
| Annotations.FindHttpProtocol | exposestrategy/utils.go:20-38 | https iff the host's port is 443 or 8443 or some service port is named https |
| Paths.UrlJoin | exposestrategy/utils.go:155-170 | the joined parts, one separator before each but the first |
| Paths.JoinTwo | exposestrategy/utils.go:155-170 | a host and a path are joined by exactly one slash where they have at most one each |
| Paths.AppPathForm | exposestrategy/ingress.go:112-118 | for slash-free names the path is /namespace/app/suffix |
| Paths.PathsOfDifferentAppsAreDisjoint | exposestrategy/ingress.go:112-120 | one path is a prefix of another iff namespace and app agree and the suffixes are prefixes |
| Templates.CompilationPreservesMeaning | exposestrategy/utils.go:137-152 | running the compiled format equals rendering the template, iff the template has a field |
| Templates.DefaultHost | exposestrategy/utils.go:137-140 | without a template the host is the name, the namespace and the domain, with dots between |
| Templates.PlainFormatReports | exposestrategy/ingress.go:101-101 | a format without verbs is printed with Go's report of the three unused arguments behind it |
| Templates.HostsAreDistinct | exposestrategy/utils.go:137-140 | with the default template hosts agree iff host name and namespace agree, for dot-free namespaces |
| ServiceTypes.NodePortStrategy.Add | exposestrategy/nodeport.go:80-133 | the patched service, or the error on a service without exactly one port |
| ServiceTypes.LoadBalancerStrategy.Add | exposestrategy/loadbalancer.go:28-62 | the patched service |
| ServiceTypes.StoredNodePort | exposestrategy/nodeport.go:80-133 | the stored service has type NodePort, no external addresses and, once its node port is assigned, the node's address with that port, in brackets if that has colons, and the scheme; an error iff there is not exactly one port |
| ServiceTypes.StoredLoadBalancer | exposestrategy/loadbalancer.go:28-62 | the stored service has type LoadBalancer and, once there is one, the balancer's address with the scheme |
| ServiceTypes.RemoveAnnotations | exposestrategy/loadbalancer.go:64-92 | only the annotations are taken off, in both strategies |
| ServiceTypes.StoredRemoval | exposestrategy/loadbalancer.go:64-92 | the stored service loses its URL and the annotation it chose, and nothing else |
| ServiceTypes.NodePortSettles | exposestrategy/nodeport.go:90-113 | the fourth rewrite changes nothing |
| ServiceTypes.LoadBalancerSettles | exposestrategy/loadbalancer.go:38-44 | the fourth rewrite changes nothing |
| Routes.RouteStrategy.Add | exposestrategy/route.go:67-186 | routes and services after one Add, for every combination of failing requests |
| Routes.RouteStrategy.PlaceRoute | exposestrategy/route.go:71-153 | the choice between create, recreate, update and leave |
| Routes.CreatedRoute | exposestrategy/route.go:91-112 | a created route leads to the service's name, has the path "/name" iff paths are used, the configured host or else the server's, TLS iff http is off, then edge with redirect, and the two labels |
| Routes.RecreatedRoute | exposestrategy/route.go:117-140 | a recreated route keeps its target and other labels, and its TLS settings under http; without it, it gets edge and redirect |
| Routes.OtherAddsChangeNothing | exposestrategy/route.go:71-153 | every other Add leaves all routes alone, but for a misplaced one that could not be created again |
| Routes.ServiceIsToldTheRoute | exposestrategy/route.go:112-198 | a service whose Add gets through carries host and path of its route as stored then; https iff that has TLS, a TLS port, or the service a port named https; nothing is told without a host and path |
| Routes.RouteStrategy.HostNameAndProtocolFromRoute | exposestrategy/route.go:188-198 | host and path of the route; https iff the route has TLS, the port of that text is 443 or 8443, or some service port is named https, else http |
| Routes.RouteStrategy.Remove | exposestrategy/route.go:200-233 | the route goes, then the annotations |
| Routes.InPlaceIffOneAddGotThrough | exposestrategy/route.go:91-142 | with usePath and a host, after any run of Adds with any failing requests the route is in place iff it was at the start or one of its Adds got its requests through |
| Routes.InPlaceForEver | exposestrategy/route.go:117-153 | a route in place is never changed or deleted by any later run of Adds |
| Routes.RecreationRepeatsIffHostIsDefaulted | exposestrategy/route.go:119-141 | a route just created is deleted by the next Add iff no host is configured and the server fills one in |
| Routes.RecreationNeverEnds | exposestrategy/route.go:119-141 | and then at every later Add too |
| Routes.RepeatedAddsSettle | exposestrategy/route.go:67-186 | from the fourth fault-free Add of a service on, neither the routes nor the service change any more, even when the route is recreated every time |
| Routes.WithoutPathRoutesStay | exposestrategy/route.go:117-153 | without usePath no run of Adds changes any existing route |
| Routes.RouteIsKeptIffNeverLost | exposestrategy/route.go:119-140 | in any run of Adds a route, whoever made it, is there throughout iff no Add deletes it and then fails to create it; if so it keeps its target and its labels but for the generator |
| EnvNames.ConvertToEnvVarName | controller/deployments.go:100-117 | the upper-cased runs joined by single underscores, a trailing one iff there is a run and the text ends in another character |
| EnvNames.OneMoreCharacter | controller/deployments.go:100-117 | what one more character adds: its capital, itself if it is a capital or a digit, and otherwise one underscore iff it follows one of those |
| EnvNames.ConversionIsIdempotent | controller/deployments.go:100-117 | converting a name again changes nothing |
| EnvNames.SameNameIffSameRuns | controller/deployments.go:100-117 | two texts share a name iff their runs and the trailing flag agree |
| Tokens.ConvertConfigMapToToken | controller/deployments.go:52-62 | the token does not depend on the order of iteration |
| Tokens.TokenIgnoresOrder | controller/deployments.go:53-57 | every listing of the entries sorts to the same list |
| Tokens.SortedSorts | controller/deployments.go:57-57 | the sort used gives an ordered permutation |
| Tokens.FirstDifferenceDecides | controller/deployments.go:57-57 | the order of the sort: a prefix comes first, else the first differing character decides |
| Tokens.TokenReads | controller/deployments.go:52-62 | the token is one "key=value" for each entry, in that order, with semicolons between |
| Text.SplitJoin | controller/deployments.go:58-58 | joining loses nothing: splitting the joined text gives the parts back, as long as none has the separator in it |
| Tokens.TokenIsInjective | controller/deployments.go:52-62 | for any rule about keys: tokens agree iff the data agree, when the keys are legal and no value has a ';' followed by a legal key and '=' |
| Tokens.TokenIsUnambiguousIffSafe | controller/deployments.go:52-62 | a value can stand under every legal key without any other map sharing its token iff it has no ';' followed by a legal key and '=' |
| Tokens.SafeWhenKeysAreFree | controller/deployments.go:54-54 | under the weakest rule, keys free of '=' and ';', that says: no '=' anywhere behind a ';' |
| Tokens.SplitValueCollides | controller/deployments.go:54-58 | the map that shares the token, for every text around such a key; its other key is the first with a suffix |
| Rollouts.SetVariable | controller/deployments.go:72-93 | one variable of one environment, and whether it changed |
| Rollouts.UpdateContainers | controller/deployments.go:64-96 | the containers in place, and true iff one of them changed |
| Rollouts.UpgradeHasClosedForm | controller/deployments.go:68-94 | listed variables carry the token, all others keep value and place, missing ones are appended once each |
| Rollouts.UnchangedIffSettled | controller/deployments.go:72-93 | an environment is left alone iff each listed variable is defined and has the token everywhere |
| Rollouts.RollingUpgrade | controller/deployments.go:14-49 | the loop stops at the first listed deployment that follows the config map and refuses its update, if there is one; exactly the following ones listed before it are upgraded |
| Rollouts.RolloutIsCompleteIffNoneRefuses | controller/deployments.go:22-47 | all following deployments of the namespace are upgraded iff none of them refuses; otherwise one that follows is left as it was |
| Rollouts.RolloutSoFar | controller/deployments.go:22-47 | however far it gets: of the deployments that list the config map, those visited carry the token in every container, and all other deployments stay |
| Rollouts.CompleteRollout | controller/deployments.go:22-96 | after a complete rollout, in every container of every deployment of the namespace that lists the config map, each listed variable is there with the token wherever it occurs; all other variables, the names and number of containers, and all other deployments stay |
| Rollouts.RepeatedRolloutChangesNothing | controller/deployments.go:14-49 | a repeat with the same token changes nothing |
| Rollouts.RolloutIffChange | controller/deployments.go:14-62 | for data with legal keys and such values, a rollout after another changes a deployment iff the data differ, it follows the config map and it has a container |
| Lines.UpdateConfigMap | controller/controller.go:531-563 | the rewritten entry; the flag is set iff the setting applies, iff the data changed |
| Lines.SettingRewritesItsEntry | controller/controller.go:531-563 | in the entry of the setting, every line with the prefix becomes prefix, value and suffix, the others stay, and a newline follows the last; nothing happens without key, value or entry |
| Lines.LinesKeepTheirPlaces | controller/controller.go:547-556 | every line is kept or replaced in its place, with one empty line behind |
| Lines.RewriteAddsNewlines | controller/controller.go:549-558 | a rewrite always has more newlines than the text, whatever prefix, value and suffix |
| Lines.SecondPass | controller/controller.go:547-556 | a second pass adds just a newline iff the prefix is not empty |
| Lines.PassesAddNewlines | controller/controller.go:547-556 | n passes are one pass and n-1 newlines |
| Lines.RewritesCommuteIff | controller/controller.go:547-556 | two rewrites with one-line texts commute on every text iff both prefixes are empty or neither is, and the texts are the same whenever one prefix starts the other and the text of that one matches both |
| Lines.SettingsCommuteIff | controller/controller.go:479-483 | so two settings commute on all data iff they edit different entries, one of them does nothing, or their rewrites commute |
| ServiceMaps.UpdateServiceConfigMap | controller/controller.go:335-499 | what is stored and rolled, up to a refused deployment; nothing when the flag stays unset or the map has no data, and then the first write panics |
| ServiceMaps.PanicsIff | controller/controller.go:342-461 | it panics iff the map can be read, has no data, and some annotation asks for a value that is not empty |
| Injections.PanicsIffAnEntryIsAdded | controller/controller.go:342-497 | it panics iff the map can be read, has no data, and the injection would add an entry |
| Injections.OwnMapIsStored | controller/controller.go:487-492 | the stored map has the injected data when it can be read, has data and its update is not refused, whether the flag was set or not; otherwise it stays, as does every other map |
| Injections.ChangedDataReachTheDeployments | controller/controller.go:487-497 | when the data change and no deployment refuses, every container of every deployment that lists the map carries the token of the new data, and all other deployments stay |
| ServiceMaps.InjectServer | controller/controller.go:343-394 | data and flag after the API server and console keys |
| Injections.ApiServerEntry | controller/controller.go:348-356 | the API server under apiserver-key, in the same sense |
| Injections.ApiServerUrlEntry | controller/controller.go:349-362 | protocol, "://" and server under apiserver-url-key |
| Injections.ProtocolEntry | controller/controller.go:377-384 | the protocol under apiserver-protocol-key |
| Injections.ConsoleEntry | controller/controller.go:363-376 | the configured console URL, or on OpenShift the one at the API server, under console-url-key |
| Injections.AuthorizeEntry | controller/controller.go:385-393 | the authorize URL under oauth-authorize-url-key, once OAuth is in use |
| ServiceMaps.InjectCluster | controller/controller.go:396-426 | data and flag after the cluster address keys |
| Injections.ClusterIpEntry | controller/controller.go:395-406 | the cluster address under clusterip-key, which the service's own annotation names before that of the map |
| Injections.ClusterIpPortEntry | controller/controller.go:408-417 | address and first target port that is set under clusterip-port-key |
| Injections.ClusterIpPortIfEmptyEntry | controller/controller.go:418-423 | the same under clusterip-port-if-empty-key, if that entry was empty; otherwise it stays |
| Injections.OtherEntriesStay | controller/controller.go:343-485 | an entry that no annotation writes to and no setting edits stays |
| ServiceMaps.InjectUrl | controller/controller.go:427-460 | data and flag after the URL, host and path keys |
| Injections.UrlEntry | controller/controller.go:437-442 | the data after the whole injection read the exposed URL under the entry that url-key names, unless a later annotation or a setting writes there too |
| Injections.HostEntry | controller/controller.go:428-448 | the same for the parsed host, if there is one, under host-key |
| Injections.PathEntry | controller/controller.go:450-459 | the same for the path, with its leading slash, under path-key |
| ServiceMaps.RunYaml | controller/controller.go:462-485 | data and flag after the config-yaml settings |
| Injections.SettingsRunInOrder | controller/controller.go:462-485 | the last setting works on the data that those before it left: its lines get the host, URL, API server, its URL or protocol, or console URL, as its expression says |
| ServiceMaps.GetServicePort | controller/controller.go:314-326 | the first target port that is set, empty iff none is |
| ServiceMaps.FirstMapValue | controller/controller.go:519-529 | the first non-empty value, empty iff there is none |
| ServiceMaps.UnsetFlagMeansUnchanged | controller/controller.go:343-497 | an unset flag means unchanged data |
| Assignments.FlagExactIffConsistent | controller/controller.go:343-497 | for any list of conditional writes: the flag is set iff the data change, for all data, iff the writes agree (equal unconditional values per key, none of them empty where a conditional write shares the key) |
| Assignments.SecondPassQuietIffConsistent | controller/controller.go:343-497 | a second pass leaves the flag unset iff the writes agree, whatever the data were |
| Assignments.SecondPassChangesNothing | controller/controller.go:343-461 | a second pass gives the same data even when the writes disagree |
| ServiceMaps.InjectionFlagExactIffConsistent | controller/controller.go:343-497 | the same for the flag of the whole injection without config-yaml settings |
| ServiceMaps.SharedKeyRaisesAFalseFlag | controller/controller.go:348-362 | a config map that wants the API server and its URL under one key has the flag set by every later pass, although its data stay the same |
| ServiceMaps.LaterPassesSettleIff | controller/controller.go:343-497 | every pass after the first leaves the data as they are iff each config-yaml setting that applies edits an entry that is also written unconditionally; otherwise every pass changes them |
| ServiceMaps.LaterPassesFlaggedIff | controller/controller.go:479-497 | every pass after the first sets the flag iff some config-yaml setting applies or two writes disagree |
| OtherMaps.Visit | controller/controller.go:582-687 | data and carried URL after one config map; an update is due iff one of the writes finds another value |
| UrlForms.EntriesOfAnyUrl | controller/controller.go:582-687 | for each of the six annotations, what an entry reads that it lists and no later one does, and the URL that is carried on |
| UrlForms.EntriesOfAServiceUrl | controller/controller.go:588-676 | for the URL of a service, with or without a slash at the end: plain without it, full with it, with the protocol or without, whatever else the map asks for |
| UrlForms.UnlistedEntriesStay | controller/controller.go:582-687 | an entry that no annotation lists stays |
| OtherMaps.SecondVisit | controller/controller.go:582-687 | a second visit with the same URL changes no data, and no update is due iff no key is listed under two annotations that write different values |
| OtherMaps.SecondLoop | controller/controller.go:582-694 | the same for a second run of the whole loop, whatever the maps do to the URL on its way |
| OtherMaps.UpdateOtherConfigMaps | controller/controller.go:570-696 | the loop stops at the first listed map that needs an update and is refused it, if there is one; exactly those before it are stored |
| OtherMaps.LoopCarriesTheUrl | controller/controller.go:582-694 | the first listed map is visited with the exposed URL, each further one with the URL that the one before it left; visited maps have the data of that visit, all others stay |
| OtherMaps.StoredOutcomes | controller/controller.go:582-694 | each map ends as its own visit with the URL carried to it leaves it; other namespaces are untouched |
| OtherMaps.LoopIsPerMap | controller/controller.go:582-694 | when no map strips a protocol the loop does to each map what it would do to it alone, so the order is irrelevant |
| OtherMaps.CarriedFormIffNothingStripped | controller/controller.go:589-661 | the URL leaves a map as the same URL up to a slash iff the map strips nothing |
| OtherMaps.PlainMapSeesStripping | controller/controller.go:588-654 | a map asking for the plain URL is independent of another map before it iff that one strips nothing |

## Left out

- REST clients, the informer library, watches, resync timers, OpenShift discovery, OAuth lookup and node listing (with `getNodeHostIP`): foreign calls and small helpers around them. The informer is modelled as delivering the current stored version with the one delivered before.
- Errors of encoding, cloning and casting inside the strategies: they cannot occur for the modelled objects.
- The port that a server assigns to a new node port service: an outside event in the loop.
- The route strategy among the events of other services: its runs are proved on the routes, and its repeated Adds of one service with that service (`Routes.RepeatedAddsSettle`).
- `updateServiceOAuthClient` and `kubernetesServiceProtocol`: short single-loop checks.
- `exposestrategy/ambassador.go`, `exposestrategy/auto.go`, configuration loading, flags, logging, profiling and signals.
- Text is ASCII: Unicode case mapping and Unicode white space of `strings.ToUpper` and `strings.TrimSpace` are not modelled.
- A failing list request of deployments or config maps: it ends the loop before it starts.
- Parts of a route's TLS settings and target that the strategy neither reads nor writes are not in the model.
- Templates.CompilationPreservesMeaning: stated for templates whose literal text has no '%'; what Go prints for verbs other than indexed string verbs is not modelled, so statements about any format are about those whose only '%' are such verbs.
- The server's checks of object names and of the length of keys: a request fails only when the input says so.
- OtherMaps.LoopIsPerMap: that the URL has no query or fragment is stated as what it is needed for, namely that dropping the path gives the same URL with and without the trailing slash.
