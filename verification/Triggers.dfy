/** Which labels and annotations make the handlers act, and what they then leave behind. */
module Triggers {
  import opened Text
  import opened Objects
  import opened ApiServer
  import opened Ingresses
  import opened IngressRuns
  import opened ServiceTypes
  import opened Handlers
  import opened Addresses
  import Annotations

  predicate ExposedByMark(svc: Service) {
    Lookup(svc.labels, "expose") == "true" || Lookup(svc.annotations, "fabric8.io/expose") == "true"
  }

  predicate AsksToBeExposed(svc: Service) {
    ExposedByMark(svc) || Lookup(svc.annotations, "fabric8.io/inject") == "true"
  }

  predicate Permitted(name: string, allowed: seq<string>) {
    allowed == [] || name in allowed
  }

  lemma HandledMeansAsked(svc: Service, allowed: seq<string>)
    ensures Matches(svc) <==> AsksToBeExposed(svc)
    ensures Handled(svc, allowed) <==> AsksToBeExposed(svc) && Permitted(svc.name, allowed)
  {
  }

  /** A permitted service that carries any of the three marks, and that Add can handle, has
      its backend in its ingress after its Add event, and after every Update to it, whatever the
      old version was. */
  lemma MarkedServiceIsListed(cfg: Config, allowed: seq<string>, w: World, old': Service, svc: Service)
    requires Permitted(svc.name, allowed) && AsksToBeExposed(svc)
    requires (forall line | line in OwnLines(svc) :: ':' in line) && svc.ports != []
    requires Usable(w.ingresses, AddKey(svc))
    ensures HasBackend(cfg, OnAdd(ByIngress(cfg), allowed, w, svc, NO_FAULTS).ingresses, svc)
    ensures HasBackend(cfg, OnUpdate(ByIngress(cfg), allowed, w, old', svc, NO_FAULTS).ingresses, svc)
  {
    hide AfterAdd, ServicesAfterAdd, IsListed, OwnLines, HasBackend;
    HandledMeansAsked(svc, allowed);
    var after := AfterAdd(cfg, w.ingresses, svc, NO_FAULTS);
    AddLeavesItListed(cfg, w.ingresses, svc);
    ListedHasBackend(cfg, after, svc);
  }

  lemma AddLeavesItListed(cfg: Config, ingresses: map<Key, Ingress>, svc: Service)
    requires (forall line | line in OwnLines(svc) :: ':' in line) && svc.ports != []
    requires Usable(ingresses, AddKey(svc))
    ensures IsListed(cfg, AfterAdd(cfg, ingresses, svc, NO_FAULTS), svc)
  {
    WellFormedMeans(svc);
    hide AfterAdd, Lands, IsListed, OwnLines, WellFormed;
    LandsIff(cfg, ingresses, svc, NO_FAULTS);
    if Lands(cfg, ingresses, svc, NO_FAULTS) {
      LandingLists(cfg, ingresses, svc);
    } else {
      NothingStored(cfg, ingresses, svc);
    }
  }

  lemma WellFormedMeans(svc: Service)
    ensures WellFormed(svc) <==> (forall line | line in OwnLines(svc) :: ':' in line) && svc.ports != []
  {
    LinesOkMeans(svc);
    hide LinesOk, OwnLines, ExtraLines;
  }

  lemma LandingLists(cfg: Config, ingresses: map<Key, Ingress>, svc: Service)
    requires Lands(cfg, ingresses, svc, NO_FAULTS)
    ensures IsListed(cfg, AfterAdd(cfg, ingresses, svc, NO_FAULTS), svc)
  {
    hide Lands, AfterAdd, ListedAt, Target;
    AddLists(cfg, ingresses, svc, NO_FAULTS);
  }

  lemma NothingStored(cfg: Config, ingresses: map<Key, Ingress>, svc: Service)
    requires !Lands(cfg, ingresses, svc, NO_FAULTS)
    ensures AfterAdd(cfg, ingresses, svc, NO_FAULTS) == ingresses
  {
    hide Lands;
  }

  /** Whatever the strategy and whichever requests fail: an Add event of a service that is not
      permitted or carries no mark changes nothing, and neither does an Update to it unless
      the old version was exposed by label or expose annotation. */
  lemma UnmarkedServiceIsLeftAlone(x: Exposer, allowed: seq<string>, w: World, old': Service, svc: Service, faults: Faults)
    ensures !Permitted(svc.name, allowed) || !AsksToBeExposed(svc) ==> OnAdd(x, allowed, w, svc, faults) == w
    ensures !Permitted(svc.name, allowed) || (!AsksToBeExposed(svc) && !ExposedByMark(old')) ==>
      OnUpdate(x, allowed, w, old', svc, faults) == w
  {
    hide AddTo, RemoveFrom;
  }

  /** An Update that takes the last mark off a permitted service takes its ingress of the
      default name and its annotations away, when the old version was exposed by label or
      expose annotation. */
  lemma UnmarkingRemoves(cfg: Config, allowed: seq<string>, w: World, old': Service, svc: Service)
    requires Permitted(svc.name, allowed) && !AsksToBeExposed(svc) && ExposedByMark(old')
    requires svc.Id() in w.services && w.services[svc.Id()] == svc
    ensures var after := OnUpdate(ByIngress(cfg), allowed, w, old', svc, NO_FAULTS);
      && (exists name | NamesByDefault(svc, name) :: after.ingresses == w.ingresses - {Key(svc.namespace, name)})
      && svc.Id() in after.services && Annotations.Untells(svc.annotations, after.services[svc.Id()].annotations)
  {
    RemovedIngress(w.ingresses, w.services, svc);
    hide NamesByDefault, AfterRemove, ServicesAfterRemove, Annotations.Untells;
  }

  /** Of the deletions only a tombstone of a permitted service does anything: it takes the
      ingress named like the service away, and no service changes. */
  lemma DeletionRemovesByServiceName(cfg: Config, allowed: seq<string>, w: World, tombstone: Option<Key>)
    ensures OnDelete(ByIngress(cfg), allowed, w, tombstone, NO_FAULTS)
         == if tombstone.Some? && Permitted(tombstone.value.name, allowed)
            then w.(ingresses := w.ingresses - {tombstone.value}) else w
  {
    if tombstone.Some? {
      var bare := Tombstone(tombstone.value);
      NamedLikeItself(bare);
      assert bare.annotations == map[] && Annotations.Stripped(bare.annotations) == map[];
      assert Unexposed(bare) == bare;
      NoPatch(w.services, bare);
      hide Patched;
    }
  }
}
