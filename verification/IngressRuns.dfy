/** What an ingress equals after any run of Adds and Removes. */
module IngressRuns {
  import opened Text
  import opened Objects
  import opened ApiServer
  import opened Ingresses

  datatype Event = AddEvent(svc: Service, faults: Faults) | RemoveEvent(svc: Service, faults: Faults)

  function Step(cfg: Config, ingresses: map<Key, Ingress>, e: Event): map<Key, Ingress> {
    match e
    case AddEvent(svc, faults) => AfterAdd(cfg, ingresses, svc, faults)
    case RemoveEvent(svc, faults) => AfterRemove(ingresses, svc, faults)
  }

  function Run(cfg: Config, ingresses: map<Key, Ingress>, events: seq<Event>): map<Key, Ingress> {
    if events == [] then ingresses
    else Step(cfg, Run(cfg, ingresses, events[..|events| - 1]), events[|events| - 1])
  }

  // ---- What one Add does ---------------------------------------------------

  predicate LinesOk(lines: seq<string>) {
    forall i | 0 <= i < |lines| :: CutAtColon(lines[i]).Some?
  }

  lemma {:induction false} WithLinesDefined(annotations: Dict, lines: seq<string>)
    ensures WithLines(annotations, lines).Some? <==> LinesOk(lines)
    decreases |lines|
  {
    if lines != [] {
      match CutAtColon(lines[0]) {
        case None =>
        case Some((key, value)) =>
          WithLinesDefined(annotations[key := TrimSpace(value)], lines[1..]);
          assert LinesOk(lines) <==> LinesOk(lines[1..]) by {
            assert forall i | 0 < i < |lines| :: lines[i] == lines[1..][i - 1];
          }
      }
    }
  }

  /** A service that Add can handle. */
  predicate WellFormed(svc: Service) {
    LinesOk(ExtraLines(svc)) && svc.ports != []
  }

  /** Whether an event is an Add that reaches ingress `key`, is not cut short by a
      failed request, and has a service that Add can handle. */
  predicate Attempts(e: Event, key: Key) {
    && e.AddEvent? && AddKey(e.svc) == key
    && !e.faults.get && !e.faults.write
    && WellFormed(e.svc)
  }

  /** The backend that Add lists for a service with ports. */
  function Backend(cfg: Config, svc: Service): IngressPath {
    IngressPath(svc.name, if svc.ports == [] then 0 else ExposedPort(svc).value, PathOf(cfg, svc))
  }

  predicate SameBackend(cfg: Config, a: Service, b: Service) {
    a.name == b.name && PathOf(cfg, a) == PathOf(cfg, b)
  }

  /** An Add of a well-formed service to an ingress with a usable first rule either
      finds its backend listed, or puts it in front and takes over the host. */
  lemma AttemptOutcome(cfg: Config, ingresses: map<Key, Ingress>, e: Event, key: Key, paths: seq<IngressPath>)
    requires Attempts(e, key)
    requires Backends(if key in ingresses then ingresses[key] else NEW_INGRESS) == Some(paths)
    ensures var after := Step(cfg, ingresses, e);
            if Listed(paths, e.svc.name, PathOf(cfg, e.svc)) then after == ingresses
            else && key in after
                 && after == ingresses[key := after[key]]
                 && after[key].rules == [Rule(RuleHost(cfg, e.svc), Some([Backend(cfg, e.svc)] + paths))]
                 && after[key].owners == WithOwner((if key in ingresses then ingresses[key] else NEW_INGRESS).owners, e.svc)
  {
    hide PathOf, RuleHost, TlsHost, OwnAnnotations, ExtraLines, AppName, LinesOk, Listed, WithOwner;
    var base := if key in ingresses then ingresses[key] else NEW_INGRESS;
    WithLinesDefined(OwnAnnotations(cfg, e.svc, base.annotations), ExtraLines(e.svc));
  }

  /** Whether a backend of the service is listed at this ingress name and path. */
  predicate ListedAt(ingresses: map<Key, Ingress>, svc: Service, target: (string, string)) {
    var key := Key(svc.namespace, target.0);
    && key in ingresses && Backends(ingresses[key]).Some?
    && Listed(Backends(ingresses[key]).value, svc.name, target.1)
  }

  /** The backend of the service is listed in the ingress it aims at. */
  predicate IsListed(cfg: Config, ingresses: map<Key, Ingress>, svc: Service) {
    ListedAt(ingresses, svc, Target(cfg, svc))
  }

  /** An Add stores its ingress exactly when its requests go through, the service is well
      formed and its backend is not listed yet. */
  lemma LandsIff(cfg: Config, ingresses: map<Key, Ingress>, svc: Service, faults: Faults)
    requires Usable(ingresses, AddKey(svc))
    ensures Lands(cfg, ingresses, svc, faults)
       <==> !faults.get && !faults.write && WellFormed(svc) && !IsListed(cfg, ingresses, svc)
  {
    hide PathOf, OwnAnnotations, ExtraLines, AppName, LinesOk, Listed, WithLines, Written;
    var base := if AddKey(svc) in ingresses then ingresses[AddKey(svc)] else NEW_INGRESS;
    WithLinesDefined(OwnAnnotations(cfg, svc, base.annotations), ExtraLines(svc));
    NothingListed(svc.name, PathOf(cfg, svc));
  }

  /** Whatever ingress it finds, an Add of a malformed service stores nothing. */
  lemma MalformedNeverLands(cfg: Config, ingresses: map<Key, Ingress>, svc: Service, faults: Faults)
    requires !WellFormed(svc)
    ensures !Lands(cfg, ingresses, svc, faults)
  {
    hide PathOf, OwnAnnotations, ExtraLines, AppName, LinesOk, Listed, Written;
    var base := if AddKey(svc) in ingresses then ingresses[AddKey(svc)] else NEW_INGRESS;
    WithLinesDefined(OwnAnnotations(cfg, svc, base.annotations), ExtraLines(svc));
    hide WithLines;
  }

  lemma NothingListed(service: string, path: string)
    ensures !Listed([], service, path)
  {
  }

  /** An Add that stores its ingress lists its own service at its target, where it was not
      listed before, and nothing else changes about who is listed where. */
  lemma AddLists(cfg: Config, ingresses: map<Key, Ingress>, svc: Service, faults: Faults)
    requires Lands(cfg, ingresses, svc, faults)
    ensures !IsListed(cfg, ingresses, svc)
    ensures forall other: Service, target ::
      (ListedAt(AfterAdd(cfg, ingresses, svc, faults), other, target)
       <==> ListedAt(ingresses, other, target) || (other.Id() == svc.Id() && target == Target(cfg, svc)))
  {
    hide WithLines, PathOf, RuleHost, AppName, ExposedPort, TlsHost, Listed;
    var key := AddKey(svc);
    var base := if key in ingresses then ingresses[key] else NEW_INGRESS;
    var paths := Backends(base).value;
    var after := AfterAdd(cfg, ingresses, svc, faults);
    var added := Backends(after[key]).value[0];
    assert Backends(after[key]).value == [added] + paths;
    assert added.service == svc.name && added.path == PathOf(cfg, svc);
    forall other: Service, target
      ensures ListedAt(after, other, target)
        <==> ListedAt(ingresses, other, target) || (other.Id() == svc.Id() && target == Target(cfg, svc))
    {
      ListedInFront(added, paths, other.name, target.1);
      NothingListed(other.name, target.1);
    }
  }

  /** No Add makes an ingress unusable. */
  lemma AddKeepsUsable(cfg: Config, ingresses: map<Key, Ingress>, svc: Service, faults: Faults)
    requires AllUsable(ingresses)
    ensures AllUsable(AfterAdd(cfg, ingresses, svc, faults))
  {
    hide WithLines, PathOf, RuleHost, AppName, ExposedPort, TlsHost;
    var after := AfterAdd(cfg, ingresses, svc, faults);
    forall key
      ensures Usable(after, key)
    {
      assert Usable(ingresses, key);
    }
  }

  /** Whether the event leaves ingress `key` undeleted. */
  predicate Spares(e: Event, key: Key) {
    e.RemoveEvent? ==> RemoveKey(e.svc) != key || e.faults.write
  }

  /** Any other event that does not delete the ingress leaves it alone. */
  lemma OthersKeepOut(cfg: Config, ingresses: map<Key, Ingress>, e: Event, key: Key)
    requires Spares(e, key) && !Attempts(e, key)
    ensures Find(Step(cfg, ingresses, e), key) == Find(ingresses, key)
  {
    if e.AddEvent? && AddKey(e.svc) == key {
      var base := if key in ingresses then ingresses[key] else NEW_INGRESS;
      WithLinesDefined(OwnAnnotations(cfg, e.svc, base.annotations), ExtraLines(e.svc));
    }
  }

  // ---- Run refinement ------------------------------------------------------

  /** Whether one of the first `n` events attempted the backend of `svc`. */
  predicate Seen(cfg: Config, events: seq<Event>, key: Key, n: nat, svc: Service)
    requires n <= |events|
  {
    exists j | 0 <= j < n :: Attempts(events[j], key) && SameBackend(cfg, events[j].svc, svc)
  }

  /** The event at `i` is the first attempt on `key` with its service name and path. */
  predicate IsFirst(cfg: Config, events: seq<Event>, key: Key, i: nat)
    requires i < |events|
  {
    Attempts(events[i], key) && !Seen(cfg, events, key, i, events[i].svc)
  }

  /** The positions of the first occurrences, in order. */
  function Firsts(cfg: Config, events: seq<Event>, key: Key, n: nat): (firsts: seq<nat>)
    requires n <= |events|
    ensures forall i | 0 <= i < |firsts| :: firsts[i] < n
  {
    if n == 0 then []
    else
      var earlier := Firsts(cfg, events, key, n - 1);
      if IsFirst(cfg, events, key, n - 1) then earlier + [n - 1] else earlier
  }

  /** `Firsts` lists exactly the first occurrences, in increasing order. */
  lemma {:induction false} FirstsAreTheFirstOccurrences(cfg: Config, events: seq<Event>, key: Key, n: nat)
    requires n <= |events|
    ensures var firsts := Firsts(cfg, events, key, n);
            && (forall i | 0 <= i < n :: i in firsts <==> IsFirst(cfg, events, key, i))
            && (forall i, j | 0 <= i < j < |firsts| :: firsts[i] < firsts[j])
  {
    hide IsFirst;
    if n > 0 {
      FirstsAreTheFirstOccurrences(cfg, events, key, n - 1);
    }
  }

  predicate InRange(firsts: seq<nat>, n: nat) {
    forall i | 0 <= i < |firsts| :: firsts[i] < n
  }

  /** The backends of the events at the given positions, the last one in front. */
  function ReverseBackends(cfg: Config, events: seq<Event>, firsts: seq<nat>): seq<IngressPath>
    requires InRange(firsts, |events|)
  {
    if firsts == [] then []
    else
      [Backend(cfg, events[firsts[|firsts| - 1]].svc)] + ReverseBackends(cfg, events, firsts[..|firsts| - 1])
  }

  /** The ingress at `key` is what the first `n` events make of an absent one. */
  ghost predicate Refines(cfg: Config, ingresses: map<Key, Ingress>, events: seq<Event>, key: Key, n: nat)
    requires n <= |events|
  {
    var firsts := Firsts(cfg, events, key, n);
    && (key in ingresses <==> firsts != [])
    && (key in ingresses ==>
          ingresses[key].rules ==
          [Rule(RuleHost(cfg, events[firsts[|firsts| - 1]].svc), Some(ReverseBackends(cfg, events, firsts)))])
  }

  /** The statement below for runs that do not delete the ingress, event by event. */
  lemma {:induction false} SparedRunRefinement(cfg: Config, ingresses: map<Key, Ingress>, events: seq<Event>, key: Key, n: nat)
    requires key !in ingresses && n <= |events|
    requires forall e | e in events :: Spares(e, key)
    ensures Refines(cfg, Run(cfg, ingresses, events[..n]), events, key, n)
  {
    hide PathOf, RuleHost, Step, IsFirst, Backend;
    if n == 0 {
      assert events[..n] == [];
    } else {
      SparedRunRefinement(cfg, ingresses, events, key, n - 1);
      var before := Run(cfg, ingresses, events[..n - 1]);
      assert events[..n][..n - 1] == events[..n - 1];
      assert events[n - 1] in events;
      RefinementStep(cfg, before, events, key, n);
    }
  }

  lemma RefinementStep(cfg: Config, before: map<Key, Ingress>, events: seq<Event>, key: Key, n: nat)
    requires 0 < n <= |events| && Spares(events[n - 1], key)
    requires Refines(cfg, before, events, key, n - 1)
    ensures Refines(cfg, Step(cfg, before, events[n - 1]), events, key, n)
  {
    hide PathOf, ExposedPort, RuleHost, Step, Refines, Attempts, Backend, Spares, Seen, Firsts;
    var e := events[n - 1];
    var after := Step(cfg, before, e);
    if !Attempts(e, key) {
      OthersKeepOut(cfg, before, e, key);
      assert !IsFirst(cfg, events, key, n - 1);
      RefinesOn(cfg, before, after, events, key, n);
    } else {
      AttemptRefines(cfg, before, events, key, n);
    }
  }

  /** Nothing new among the events, and nothing changed in the store. */
  lemma RefinesOn(cfg: Config, before: map<Key, Ingress>, after: map<Key, Ingress>, events: seq<Event>, key: Key, n: nat)
    requires 0 < n <= |events| && Refines(cfg, before, events, key, n - 1)
    requires !IsFirst(cfg, events, key, n - 1) && Find(after, key) == Find(before, key)
    ensures Refines(cfg, after, events, key, n)
  {
    hide IsFirst, RuleHost, Backend;
  }

  lemma AttemptRefines(cfg: Config, before: map<Key, Ingress>, events: seq<Event>, key: Key, n: nat)
    requires 0 < n <= |events| && Attempts(events[n - 1], key)
    requires Refines(cfg, before, events, key, n - 1)
    ensures Refines(cfg, Step(cfg, before, events[n - 1]), events, key, n)
  {
    hide PathOf, RuleHost, Step, Attempts, Backend, Seen, Firsts;
    var e := events[n - 1];
    var after := Step(cfg, before, e);
    var firsts := Firsts(cfg, events, key, n - 1);
    var paths := ReverseBackends(cfg, events, firsts);
    ListedIffSeen(cfg, events, key, n - 1, e.svc);
    assert Backends(if key in before then before[key] else NEW_INGRESS) == Some(paths);
    AttemptOutcome(cfg, before, e, key, paths);
    hide ReverseBackends, Listed, WithOwner;
    if IsFirst(cfg, events, key, n - 1) {
      PutInFront(cfg, events, key, n);
    } else {
      RefinesOn(cfg, before, after, events, key, n);
    }
  }

  /** A backend is in the list exactly when an earlier attempt had its name and path. */
  lemma {:induction false} ListedIffSeen(cfg: Config, events: seq<Event>, key: Key, n: nat, svc: Service)
    requires n <= |events|
    ensures Listed(ReverseBackends(cfg, events, Firsts(cfg, events, key, n)), svc.name, PathOf(cfg, svc))
       <==> Seen(cfg, events, key, n, svc)
  {
    hide PathOf, Attempts, ExposedPort;
    if n > 0 {
      ListedIffSeen(cfg, events, key, n - 1, svc);
      SeenLater(cfg, events, key, n, svc);
      var e := events[n - 1];
      if IsFirst(cfg, events, key, n - 1) {
        PutInFront(cfg, events, key, n);
        ListedInFront(Backend(cfg, e.svc), ReverseBackends(cfg, events, Firsts(cfg, events, key, n - 1)), svc.name, PathOf(cfg, svc));
      } else if Attempts(e, key) && SameBackend(cfg, e.svc, svc) {
        var j :| 0 <= j < n - 1 && Attempts(events[j], key) && SameBackend(cfg, events[j].svc, e.svc);
        assert SameBackend(cfg, events[j].svc, svc);
      }
    }
  }

  lemma SeenLater(cfg: Config, events: seq<Event>, key: Key, n: nat, svc: Service)
    requires 0 < n <= |events|
    ensures Seen(cfg, events, key, n, svc)
       <==> Seen(cfg, events, key, n - 1, svc) || (Attempts(events[n - 1], key) && SameBackend(cfg, events[n - 1].svc, svc))
  {
    hide Attempts, SameBackend;
  }

  /** A first occurrence puts its backend in front of those before it. */
  lemma PutInFront(cfg: Config, events: seq<Event>, key: Key, n: nat)
    requires 0 < n <= |events| && IsFirst(cfg, events, key, n - 1)
    ensures Firsts(cfg, events, key, n) == Firsts(cfg, events, key, n - 1) + [n - 1]
    ensures ReverseBackends(cfg, events, Firsts(cfg, events, key, n))
         == [Backend(cfg, events[n - 1].svc)] + ReverseBackends(cfg, events, Firsts(cfg, events, key, n - 1))
  {
    hide Backend, IsFirst;
    var firsts := Firsts(cfg, events, key, n - 1);
    assert (firsts + [n - 1])[..|firsts|] == firsts;
  }

  lemma ListedInFront(head: IngressPath, paths: seq<IngressPath>, service: string, path: string)
    ensures Listed([head] + paths, service, path)
       <==> (head.service == service && head.path == path) || Listed(paths, service, path)
  {
    var all := [head] + paths;
    assert all[0] == head;
    assert forall i | 0 <= i < |paths| :: all[i + 1] == paths[i];
  }

  /** The position behind the last of the first `n` events that deletes the ingress. */
  function Fresh(events: seq<Event>, key: Key, n: nat): (m: nat)
    requires n <= |events|
    ensures m <= n && forall i | m <= i < n :: Spares(events[i], key)
    ensures m > 0 ==> !Spares(events[m - 1], key)
  {
    if n == 0 then 0 else if !Spares(events[n - 1], key) then n else Fresh(events, key, n - 1)
  }

  /** The events that made the ingress what it is: those behind its last deletion. */
  function Lifetime(events: seq<Event>, key: Key): seq<Event> {
    events[Fresh(events, key, |events|)..]
  }

  lemma {:induction false} RunInTwo(cfg: Config, ingresses: map<Key, Ingress>, a: seq<Event>, b: seq<Event>)
    ensures Run(cfg, ingresses, a + b) == Run(cfg, Run(cfg, ingresses, a), b)
    decreases |b|
  {
    hide Step;
    if b == [] {
      assert a + b == a;
    } else {
      assert (a + b)[..|a + b| - 1] == a + b[..|b| - 1];
      RunInTwo(cfg, ingresses, a, b[..|b| - 1]);
    }
  }

  /** The ingress is absent when its lifetime begins, and nothing in it deletes the ingress. */
  lemma LifetimeStartsAfresh(cfg: Config, ingresses: map<Key, Ingress>, events: seq<Event>, key: Key) returns (start: map<Key, Ingress>)
    requires key !in ingresses
    ensures key !in start && Run(cfg, ingresses, events) == Run(cfg, start, Lifetime(events, key))
    ensures forall e | e in Lifetime(events, key) :: Spares(e, key)
  {
    hide Spares;
    NoDeletionInLifetime(events, key);
    hide Fresh;
    var m := Fresh(events, key, |events|);
    start := Run(cfg, ingresses, events[..m]);
    assert events[..m] + events[m..] == events;
    RunInTwo(cfg, ingresses, events[..m], events[m..]);
    if m > 0 {
      AbsentOnceDeleted(cfg, ingresses, events[..m], key);
    }
    hide Run;
  }

  lemma NoDeletionInLifetime(events: seq<Event>, key: Key)
    ensures forall e | e in Lifetime(events, key) :: Spares(e, key)
  {
    hide Spares;
    var m := Fresh(events, key, |events|);
    forall e | e in events[m..]
      ensures Spares(e, key)
    {
      var i :| 0 <= i < |events[m..]| && events[m..][i] == e;
      assert events[m + i] == e;
    }
  }

  lemma AbsentOnceDeleted(cfg: Config, ingresses: map<Key, Ingress>, events: seq<Event>, key: Key)
    requires events != [] && !Spares(events[|events| - 1], key)
    ensures key !in Run(cfg, ingresses, events)
  {
    DeletedIsGone(cfg, Run(cfg, ingresses, events[..|events| - 1]), events[|events| - 1], key);
    hide Step;
  }

  /** After any run on an ingress that started absent, whoever deleted it in between: with
      the events behind its last deletion, there is an ingress iff some Add was attempted;
      its single rule lists the first occurrence of each attempted (service name, path),
      the latest in front, and carries the host of the latest of them: the last Add that
      was not an early return. */
  lemma RunRefinement(cfg: Config, ingresses: map<Key, Ingress>, events: seq<Event>, key: Key)
    requires key !in ingresses
    ensures var life := Lifetime(events, key);
            Refines(cfg, Run(cfg, ingresses, events), life, key, |life|)
  {
    hide Refines, Run, Spares;
    var start := LifetimeStartsAfresh(cfg, ingresses, events, key);
    var life := Lifetime(events, key);
    SparedRunRefinement(cfg, start, life, key, |life|);
    assert life[..|life|] == life;
  }

  predicate PairwiseDifferent(paths: seq<IngressPath>) {
    forall i, j | 0 <= i < j < |paths| :: paths[i].service != paths[j].service || paths[i].path != paths[j].path
  }

  /** So the backends of such an ingress are pairwise different. */
  lemma NoDuplicateBackends(cfg: Config, ingresses: map<Key, Ingress>, events: seq<Event>, key: Key)
    requires key !in ingresses
    ensures var after := Run(cfg, ingresses, events);
            key in after ==> Backends(after[key]).Some? && PairwiseDifferent(Backends(after[key]).value)
  {
    hide Run, Lifetime, PairwiseDifferent, Firsts, ReverseBackends;
    RunRefinement(cfg, ingresses, events, key);
    DifferentFirsts(cfg, Lifetime(events, key), key, |Lifetime(events, key)|);
  }

  lemma {:induction false} DifferentFirsts(cfg: Config, events: seq<Event>, key: Key, n: nat)
    requires n <= |events|
    ensures PairwiseDifferent(ReverseBackends(cfg, events, Firsts(cfg, events, key, n)))
  {
    hide PathOf, Attempts, ExposedPort;
    if n > 0 {
      DifferentFirsts(cfg, events, key, n - 1);
      if IsFirst(cfg, events, key, n - 1) {
        var head, paths := Backend(cfg, events[n - 1].svc), ReverseBackends(cfg, events, Firsts(cfg, events, key, n - 1));
        PutInFront(cfg, events, key, n);
        ListedIffSeen(cfg, events, key, n - 1, events[n - 1].svc);
        assert forall i | 0 <= i < |paths| :: paths[i].service != head.service || paths[i].path != head.path;
      }
    }
  }

  /** An ingress and what it became: its backends are kept as a suffix, or it is untouched
      because its first rule is not an HTTP rule. */
  predicate Extends(old': Ingress, now: Ingress) {
    match Backends(old')
    case None => now == old'
    case Some(paths) =>
      match Backends(now)
      case None => false
      case Some(paths') => |paths| <= |paths'| && paths'[|paths'| - |paths|..] == paths
  }

  lemma ExtendsFurther(a: Ingress, b: Ingress, c: Ingress)
    requires Extends(a, b) && Extends(b, c)
    ensures Extends(a, c)
  {
    if Backends(a).Some? {
      var x, y, z := Backends(a).value, Backends(b).value, Backends(c).value;
      assert z[|z| - |x|..] == z[|z| - |y|..][|y| - |x|..];
    }
  }

  lemma StepExtends(cfg: Config, ingresses: map<Key, Ingress>, e: Event, key: Key)
    requires key in ingresses && Spares(e, key)
    ensures var after := Step(cfg, ingresses, e);
            key in after && Extends(ingresses[key], after[key])
  {
    hide PathOf, RuleHost, TlsHost, OwnAnnotations, ExtraLines, AppName, WithOwner, ExposedPort, Listed;
    if !Attempts(e, key) {
      OthersKeepOut(cfg, ingresses, e, key);
    } else if Backends(ingresses[key]).Some? {
      AttemptOutcome(cfg, ingresses, e, key, Backends(ingresses[key]).value);
    }
  }

  /** As long as nobody deletes it, the backends of any ingress, whoever made it, only
      ever grow at the front. */
  lemma {:induction false} OldBackendsAreASuffix(cfg: Config, ingresses: map<Key, Ingress>, events: seq<Event>, key: Key)
    requires key in ingresses
    requires forall e | e in events :: Spares(e, key)
    ensures var after := Run(cfg, ingresses, events);
            key in after && Extends(ingresses[key], after[key])
  {
    hide Step, Spares;
    if events != [] {
      var init, e := events[..|events| - 1], events[|events| - 1];
      assert e in events;
      OldBackendsAreASuffix(cfg, ingresses, init, key);
      var before := Run(cfg, ingresses, init);
      StepExtends(cfg, before, e, key);
      hide Extends;
      ExtendsFurther(ingresses[key], before[key], Step(cfg, before, e)[key]);
    }
  }

  /** When the patch of a landing Add fails, the service is not annotated, and as long as
      the ingress is not deleted no later Add of that service name and path does it
      either: each of them returns early because the backend is listed. */
  lemma FailedPatchIsNotRetried(
    cfg: Config, ingresses: map<Key, Ingress>, services: map<Key, Service>, svc: Service, faults: Faults,
    events: seq<Event>, services': map<Key, Service>, svc': Service, faults': Faults)
    requires Lands(cfg, ingresses, svc, faults) && faults.patch
    requires forall e | e in events :: Spares(e, AddKey(svc))
    requires AddKey(svc') == AddKey(svc) && SameBackend(cfg, svc', svc)
    ensures ServicesAfterAdd(cfg, ingresses, services, svc, faults) == services
    ensures var later := Run(cfg, AfterAdd(cfg, ingresses, svc, faults), events);
            ServicesAfterAdd(cfg, later, services', svc', faults') == services'
  {
    hide AddKey, Spares, Run, Exposed, AfterAdd, Lands, Patched, SameBackend, IsListed;
    FailedPatchChangesNothing(services, svc, Exposed(cfg, svc));
    StaysListed(cfg, ingresses, svc, faults, events);
    var later := Run(cfg, AfterAdd(cfg, ingresses, svc, faults), events);
    SameBackendListed(cfg, later, svc, svc');
    ListedDoesNotLand(cfg, later, svc', faults');
  }

  lemma FailedPatchChangesNothing(services: map<Key, Service>, a: Service, b: Service)
    ensures Patched(services, a, b, true) == services
  {
    hide CreatePatch;
  }

  lemma SameBackendListed(cfg: Config, ingresses: map<Key, Ingress>, a: Service, b: Service)
    requires IsListed(cfg, ingresses, a) && AddKey(a) == AddKey(b) && SameBackend(cfg, b, a)
    ensures IsListed(cfg, ingresses, b)
  {
    hide PathOf, AppName, Listed;
  }

  lemma StaysListed(cfg: Config, ingresses: map<Key, Ingress>, svc: Service, faults: Faults, events: seq<Event>)
    requires Lands(cfg, ingresses, svc, faults)
    requires forall e | e in events :: Spares(e, AddKey(svc))
    ensures IsListed(cfg, Run(cfg, AfterAdd(cfg, ingresses, svc, faults), events), svc)
  {
    hide PathOf, AppName, Spares, Run, AfterAdd, Lands, Listed;
    var key := AddKey(svc);
    var stored := AfterAdd(cfg, ingresses, svc, faults);
    AddLists(cfg, ingresses, svc, faults);
    OldBackendsAreASuffix(cfg, stored, events, key);
    var later := Run(cfg, stored, events);
    SuffixListed(Backends(stored[key]).value, Backends(later[key]).value, svc.name, PathOf(cfg, svc));
  }

  lemma SuffixListed(old': seq<IngressPath>, now: seq<IngressPath>, service: string, path: string)
    requires Listed(old', service, path)
    requires |old'| <= |now| && now[|now| - |old'|..] == old'
    ensures Listed(now, service, path)
  {
    var i :| 0 <= i < |old'| && old'[i].service == service && old'[i].path == path;
    assert now[|now| - |old'|..][i] == now[|now| - |old'| + i];
  }

  lemma ListedDoesNotLand(cfg: Config, ingresses: map<Key, Ingress>, svc: Service, faults: Faults)
    requires IsListed(cfg, ingresses, svc)
    ensures !Lands(cfg, ingresses, svc, faults)
  {
    hide WithLines, ExtraLines, PathOf, AppName, ExposedPort, OwnAnnotations;
  }

  /** A stored ingress of a TLS service without wildcard names the host of its rule in the
      TLS entry exactly when path mode is off (or the template host happens to be the
      domain), and it names a secret only with ACME on, even if one is configured. */
  lemma TlsEntryOfStoredIngress(cfg: Config, ingresses: map<Key, Ingress>, svc: Service, faults: Faults)
    requires Lands(cfg, ingresses, svc, faults) && TlsEnabled(cfg, svc) && !cfg.tlsUseWildcard
    ensures var stored := AfterAdd(cfg, ingresses, svc, faults)[AddKey(svc)];
      && |stored.rules| == |stored.tls| == 1
      && (stored.tls[0].host == stored.rules[0].host <==> !UsesPath(cfg, svc) || TemplateHost(cfg, svc) == DomainOf(cfg, svc))
      && (stored.tls[0].secret == "" <==> !cfg.tlsAcme)
  {
    hide WithLines, ExtraLines, PathOf, AppName, TemplateHost, ExposedPort, OwnAnnotations, WithOwner;
    assert "tls-" + AppName(svc) != "";
  }

  /** Removing a service right after its Add takes its ingress away again exactly when the
      name annotation is absent or repeats the default name: Remove does not read it. */
  lemma RemoveFindsTheIngressIffDefaultName(cfg: Config, ingresses: map<Key, Ingress>, svc: Service, faults: Faults)
    requires Lands(cfg, ingresses, svc, faults)
    ensures AddKey(svc) !in AfterRemove(AfterAdd(cfg, ingresses, svc, faults), svc, NO_FAULTS)
       <==> Lookup(svc.annotations, ANN_INGRESS_NAME) in {"", DefaultName(svc)}
  {
    hide Planned, DefaultName;
  }

  // ---- Owners and ports ----------------------------------------------------

  ghost predicate UidDeterminesName(events: seq<Event>) {
    forall i, j | 0 <= i < |events| && 0 <= j < |events| && events[i].svc.uid == events[j].svc.uid ::
      events[i].svc.name == events[j].svc.name
  }

  predicate DistinctUids(owners: seq<Owner>) {
    forall i, j | 0 <= i < j < |owners| :: owners[i].uid != owners[j].uid
  }

  ghost predicate FromRun(owner: Owner, events: seq<Event>) {
    exists i | 0 <= i < |events| :: events[i].svc.name == owner.name && events[i].svc.uid == owner.uid
  }

  /** The backend was added for a version of its service that declared the port. */
  ghost predicate Justified(cfg: Config, p: IngressPath, events: seq<Event>) {
    exists i | 0 <= i < |events| ::
      && events[i].AddEvent? && events[i].svc.name == p.service
      && PathOf(cfg, events[i].svc) == p.path && Declares(events[i].svc.ports, p.port)
  }

  function OwnerNames(owners: seq<Owner>): set<string> {
    set o | o in owners :: o.name
  }

  function BackendNames(paths: seq<IngressPath>): set<string> {
    set p | p in paths :: p.service
  }

  ghost predicate Owned(cfg: Config, owners: seq<Owner>, paths: seq<IngressPath>, events: seq<Event>) {
    && DistinctUids(owners) && OwnerNames(owners) == BackendNames(paths)
    && (forall o | o in owners :: FromRun(o, events))
    && (forall p | p in paths :: Justified(cfg, p, events))
  }

  ghost predicate WellOwned(cfg: Config, ingress: Ingress, events: seq<Event>) {
    && |ingress.rules| == 1 && ingress.rules[0].http.Some?
    && Owned(cfg, ingress.owners, ingress.rules[0].http.value, events)
  }

  /** In any run of Adds and Removes, every ingress the controller created has owners
      with distinct UIDs whose names are exactly the names of the backend services,
      and every backend port was declared by its service when it was added. */
  lemma {:induction false} OwnersMatchBackends(cfg: Config, ingresses: map<Key, Ingress>, events: seq<Event>, key: Key)
    requires key !in ingresses
    requires UidDeterminesName(events)
    ensures var after := Run(cfg, ingresses, events);
            key in after ==> WellOwned(cfg, after[key], events)
  {
    hide WellOwned, Attempts, Step;
    if events != [] {
      var init, e := events[..|events| - 1], events[|events| - 1];
      OwnersMatchBackends(cfg, ingresses, init, key);
      var before := Run(cfg, ingresses, init);
      if key in before {
        WellOwnedLonger(cfg, before[key], init, e);
        assert init + [e] == events;
      }
      if Attempts(e, key) {
        OwnersStep(cfg, before, events, key);
      } else if Spares(e, key) {
        OthersKeepOut(cfg, before, e, key);
      } else {
        DeletedIsGone(cfg, before, e, key);
      }
    }
  }

  lemma DeletedIsGone(cfg: Config, ingresses: map<Key, Ingress>, e: Event, key: Key)
    requires !Spares(e, key)
    ensures key !in Step(cfg, ingresses, e)
  {
  }

  lemma WellOwnedLonger(cfg: Config, ingress: Ingress, events: seq<Event>, e: Event)
    requires WellOwned(cfg, ingress, events)
    ensures WellOwned(cfg, ingress, events + [e])
  {
    var more := events + [e];
    forall o | o in ingress.owners ensures FromRun(o, more) {
      var i :| 0 <= i < |events| && events[i].svc.name == o.name && events[i].svc.uid == o.uid;
      assert more[i] == events[i];
    }
    forall p | p in ingress.rules[0].http.value ensures Justified(cfg, p, more) {
      var i :| 0 <= i < |events| && events[i].AddEvent? && events[i].svc.name == p.service
               && PathOf(cfg, events[i].svc) == p.path && Declares(events[i].svc.ports, p.port);
      assert more[i] == events[i];
    }
  }

  lemma PortIsDeclared(svc: Service)
    requires svc.ports != []
    ensures ExposedPort(svc).Some? && Declares(svc.ports, ExposedPort(svc).value)
  {
    hide Atoi;
    assert svc.ports[0].port == svc.ports[0].port;
  }

  lemma NobodyOwned(cfg: Config, events: seq<Event>)
    ensures Owned(cfg, [], [], events)
  {
  }

  /** One more backend, and the owner that goes with it. */
  lemma OwnedByOneMore(cfg: Config, owners: seq<Owner>, paths: seq<IngressPath>, events: seq<Event>)
    requires events != [] && events[|events| - 1].AddEvent? && events[|events| - 1].svc.ports != []
    requires UidDeterminesName(events) && Owned(cfg, owners, paths, events)
    ensures var svc := events[|events| - 1].svc;
            Owned(cfg, WithOwner(owners, svc), [Backend(cfg, svc)] + paths, events)
  {
    var svc := events[|events| - 1].svc;
    var added := Backend(cfg, svc);
    AddedIsJustified(cfg, events);
    hide UidDeterminesName, WithOwner, BackendNames, OwnerNames, DistinctUids, FromRun, Justified, PathOf, ExposedPort;
    BackendAdded(added, paths);
    assert events[|events| - 1] in events;
    OwnerAdded(owners, svc, events);
    assert forall p :: p in [added] + paths <==> p == added || p in paths;
  }

  lemma OwnersStep(cfg: Config, before: map<Key, Ingress>, events: seq<Event>, key: Key)
    requires events != [] && UidDeterminesName(events)
    requires var e := events[|events| - 1]; Attempts(e, key)
    requires key in before ==> WellOwned(cfg, before[key], events)
    ensures var after := Step(cfg, before, events[|events| - 1]);
            key in after ==> WellOwned(cfg, after[key], events)
  {
    hide PathOf, RuleHost, Step, Owned, UidDeterminesName, WithOwner, Listed, Backend, AddKey, WellFormed;
    var e := events[|events| - 1];
    var base := if key in before then before[key] else NEW_INGRESS;
    var paths := Backends(base).value;
    NobodyOwned(cfg, events);
    AttemptOutcome(cfg, before, e, key, paths);
    assert e.svc.ports != [] by { AttemptsHavePorts(e, key); }
    hide Attempts;
    if !Listed(paths, e.svc.name, PathOf(cfg, e.svc)) {
      OwnedByOneMore(cfg, base.owners, paths, events);
    }
  }

  lemma AttemptsHavePorts(e: Event, key: Key)
    requires Attempts(e, key)
    ensures e.svc.ports != []
  {
  }

  lemma AddedIsJustified(cfg: Config, events: seq<Event>)
    requires events != [] && events[|events| - 1].AddEvent? && events[|events| - 1].svc.ports != []
    ensures Justified(cfg, Backend(cfg, events[|events| - 1].svc), events)
  {
    PortIsDeclared(events[|events| - 1].svc);
    hide PathOf, ExposedPort, Declares;
  }

  lemma BackendAdded(added: IngressPath, paths: seq<IngressPath>)
    ensures BackendNames([added] + paths) == {added.service} + BackendNames(paths)
  {
    assert forall p :: p in [added] + paths <==> p == added || p in paths;
  }

  /** An owner entry is added only for a UID that is not there yet, and the names gain the service's. */
  lemma OwnerAdded(owners: seq<Owner>, svc: Service, events: seq<Event>)
    requires DistinctUids(owners) && forall o | o in owners :: FromRun(o, events)
    requires UidDeterminesName(events) && exists e :: e in events && e.svc == svc
    ensures var all := WithOwner(owners, svc);
      && DistinctUids(all) && (forall o | o in all :: FromRun(o, events))
      && OwnerNames(all) == {svc.name} + OwnerNames(owners)
  {
    var i :| 0 <= i < |events| && events[i].svc == svc;
    assert FromRun(Owner(svc.name, svc.uid), events);
    if HasOwner(owners, svc.uid) {
      var j :| 0 <= j < |owners| && owners[j].uid == svc.uid;
      assert owners[j] in owners && FromRun(owners[j], events);
      assert owners[j].name == svc.name;
    } else {
      assert forall o :: o in WithOwner(owners, svc) <==> o in owners || o == Owner(svc.name, svc.uid);
    }
  }
}
