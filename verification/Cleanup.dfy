/** The cleanup mode: delete every ingress of the watched namespace that carries the
    generated-by mark and whose name contains the filter. */
module Cleanup {
  import opened Text
  import opened Objects
  import opened ApiServer
  import opened Ingresses
  import opened IngressRuns

  predicate Marked(ingress: Ingress) {
    Lookup(ingress.annotations, ANN_GENERATED_BY) == GENERATOR
  }

  /** Without a namespace all of them are meant. */
  predicate Doomed(ingresses: map<Key, Ingress>, key: Key, namespace: string, filter: string) {
    && key in ingresses && (namespace == "" || key.namespace == namespace)
    && Marked(ingresses[key]) && Contains(key.name, filter)
  }

  function CleanedUp(ingresses: map<Key, Ingress>, namespace: string, filter: string): map<Key, Ingress> {
    map key | key in ingresses && !Doomed(ingresses, key, namespace, filter) :: ingresses[key]
  }

  /** What is left: every ingress, unless it is in the namespace, its mark says that the
      controller made it, and the filter occurs in its name. */
  lemma CleanupLeaves(ingresses: map<Key, Ingress>, namespace: string, filter: string, key: Key)
    ensures Doomed(ingresses, key, namespace, filter)
       <==> && key in ingresses && namespace in {"", key.namespace}
            && Lookup(ingresses[key].annotations, "fabric8.io/generated-by") == "exposecontroller"
            && exists before, behind :: key.name == before + filter + behind
    ensures var after := CleanedUp(ingresses, namespace, filter);
      && (key in after <==> key in ingresses && !Doomed(ingresses, key, namespace, filter))
      && (key in after ==> after[key] == ingresses[key])
  {
    ContainsMeans(key.name, filter);
    hide Contains;
  }

  /** The cleanup loop. `broken` are the names whose deletion the server refuses, which
      ends the program on the spot; it refuses any deletion that names no namespace. */
  method Clean(server: ApiServer, namespace: string, filter: string, broken: set<string>) returns (fatal: bool)
    modifies server`ingresses
    ensures fatal <==> exists key :: Doomed(old(server.ingresses), key, namespace, filter) && (namespace == "" || key.name in broken)
    ensures !fatal ==> server.ingresses == CleanedUp(old(server.ingresses), namespace, filter)
    ensures namespace == "" ==> server.ingresses == old(server.ingresses)
    ensures fatal ==> forall key :: Doomed(old(server.ingresses), key, namespace, filter) && key.name in broken
                                    ==> key in server.ingresses
    ensures forall key :: key in old(server.ingresses) && !Doomed(old(server.ingresses), key, namespace, filter)
                          ==> key in server.ingresses && server.ingresses[key] == old(server.ingresses)[key]
  {
    hide Contains, Lookup;
    ghost var start := server.ingresses;
    var keys := server.ListIngresses(namespace);
    var items := server.ingresses;
    for n := 0 to |keys|
      invariant forall key :: key in server.ingresses <==>
        key in start && !(Doomed(start, key, namespace, filter) && key in keys[..n])
      invariant forall key | key in server.ingresses :: server.ingresses[key] == start[key]
      invariant forall i | 0 <= i < n && Doomed(start, keys[i], namespace, filter) :: namespace != "" && keys[i].name !in broken
    {
      var key := keys[n];
      assert keys[n] in keys;
      assert keys[..n + 1] == keys[..n] + [keys[n]];
      if Lookup(items[key].annotations, ANN_GENERATED_BY) == GENERATOR {
        if Contains(key.name, filter) {
          assert Doomed(start, key, namespace, filter);
          if namespace == "" {
            assert forall i | 0 <= i < n :: !Doomed(start, keys[i], namespace, filter);
            assert server.ingresses == start;
          }
          var ok := server.DeleteIngress(Key(namespace, key.name), namespace == "" || key.name in broken);
          if !ok {
            return true;
          }
        }
      }
    }
    assert keys[..|keys|] == keys;
    fatal := false;
  }

  // ---- Which ingresses carry the mark --------------------------------------

  /** The generated-by mark after a service's own annotation lines, from `mark` before them. */
  function MarkAfter(lines: seq<string>, mark: string): string
    decreases |lines|
  {
    if lines == [] then mark
    else match CutAtColon(lines[0])
         case None => mark
         case Some((key, value)) => MarkAfter(lines[1..], if key == ANN_GENERATED_BY then TrimSpace(value) else mark)
  }

  lemma {:induction false} LinesSetTheMark(annotations: Dict, lines: seq<string>)
    requires WithLines(annotations, lines).Some?
    requires ANN_GENERATED_BY in annotations
    ensures var after := WithLines(annotations, lines).value;
            ANN_GENERATED_BY in after && after[ANN_GENERATED_BY] == MarkAfter(lines, annotations[ANN_GENERATED_BY])
    decreases |lines|
  {
    if lines != [] {
      var (key, value) := CutAtColon(lines[0]).value;
      LinesSetTheMark(annotations[key := TrimSpace(value)], lines[1..]);
    }
  }

  /** The mark of an ingress that the controller stored. */
  predicate Signed(ingress: Ingress, mark: string) {
    ANN_GENERATED_BY in ingress.annotations && ingress.annotations[ANN_GENERATED_BY] == mark
  }

  /** An Add that stores its ingress leaves the mark that the service's lines make of the
      old one, or of the generator's own if the ingress is new. */
  lemma LandingMark(cfg: Config, ingresses: map<Key, Ingress>, svc: Service, faults: Faults, mark: string)
    requires Lands(cfg, ingresses, svc, faults)
    requires if AddKey(svc) in ingresses then Signed(ingresses[AddKey(svc)], mark) else mark == GENERATOR
    ensures Signed(AfterAdd(cfg, ingresses, svc, faults)[AddKey(svc)], MarkAfter(ExtraLines(svc), mark))
  {
    hide PathOf, RuleHost, ExtraLines, MarkAfter, AppName;
    var base := if AddKey(svc) in ingresses then ingresses[AddKey(svc)] else NEW_INGRESS;
    OwnAnnotationsKeepTheMark(cfg, svc, base.annotations, mark);
    hide OwnAnnotations;
    LinesSetTheMark(OwnAnnotations(cfg, svc, base.annotations), ExtraLines(svc));
  }

  lemma OwnAnnotationsKeepTheMark(cfg: Config, svc: Service, annotations: Dict, mark: string)
    requires if annotations == map[] then mark == GENERATOR
             else ANN_GENERATED_BY in annotations && annotations[ANN_GENERATED_BY] == mark
    ensures var own := OwnAnnotations(cfg, svc, annotations); ANN_GENERATED_BY in own && own[ANN_GENERATED_BY] == mark
  {
    hide UsesPath;
  }

  // ---- The mark after any run ----------------------------------------------

  /** The mark that the services at these positions leave one after the other. */
  function Folded(events: seq<Event>, firsts: seq<nat>): string
    requires InRange(firsts, |events|)
  {
    if firsts == [] then GENERATOR
    else MarkAfter(ExtraLines(events[firsts[|firsts| - 1]].svc), Folded(events, firsts[..|firsts| - 1]))
  }

  /** The ingress at `key` carries the mark that the first `n` events fold to. */
  ghost predicate MarkedAs(cfg: Config, ingresses: map<Key, Ingress>, events: seq<Event>, key: Key, n: nat)
    requires n <= |events|
  {
    key in ingresses ==> Signed(ingresses[key], Folded(events, Firsts(cfg, events, key, n)))
  }

  /** An attempt lands exactly when it is the first of its service name and path. */
  lemma LandsIffFirst(cfg: Config, ingresses: map<Key, Ingress>, events: seq<Event>, key: Key, n: nat)
    requires n < |events| && Attempts(events[n], key) && Refines(cfg, ingresses, events, key, n)
    ensures Lands(cfg, ingresses, events[n].svc, events[n].faults) <==> IsFirst(cfg, events, key, n)
  {
    hide PathOf, RuleHost, Seen, Firsts, Lands, WellFormed, Listed, ReverseBackends, AppName, Backend;
    var svc := events[n].svc;
    LandsIff(cfg, ingresses, svc, events[n].faults);
    ListedIffSeen(cfg, events, key, n, svc);
    NothingAtFirst(cfg, events);
    NothingListed(svc.name, PathOf(cfg, svc));
  }

  lemma NothingAtFirst(cfg: Config, events: seq<Event>)
    ensures ReverseBackends(cfg, events, []) == []
  {
  }

  lemma MarkStep(cfg: Config, before: map<Key, Ingress>, events: seq<Event>, key: Key, n: nat)
    requires n < |events| && Spares(events[n], key)
    requires Refines(cfg, before, events, key, n) && MarkedAs(cfg, before, events, key, n)
    ensures MarkedAs(cfg, Step(cfg, before, events[n]), events, key, n + 1)
  {
    var e := events[n];
    var after := Step(cfg, before, e);
    if !Attempts(e, key) {
      OthersKeepOut(cfg, before, e, key);
      assert Firsts(cfg, events, key, n + 1) == Firsts(cfg, events, key, n);
    } else {
      LandsIffFirst(cfg, before, events, key, n);
      assert after == AfterAdd(cfg, before, e.svc, e.faults) && AddKey(e.svc) == key;
      hide Lands, AfterAdd, Attempts, Step, Spares, AddKey;
      if IsFirst(cfg, events, key, n) {
        FirstFolds(cfg, events, key, n);
        NewMark(cfg, before, events, key, n);
      } else {
        assert after == before by { NotLanded(cfg, before, e.svc, e.faults); }
        assert Firsts(cfg, events, key, n + 1) == Firsts(cfg, events, key, n);
      }
    }
  }

  lemma NotLanded(cfg: Config, ingresses: map<Key, Ingress>, svc: Service, faults: Faults)
    requires !Lands(cfg, ingresses, svc, faults)
    ensures AfterAdd(cfg, ingresses, svc, faults) == ingresses
  {
    hide Lands;
  }

  lemma FirstFolds(cfg: Config, events: seq<Event>, key: Key, n: nat)
    requires n < |events| && IsFirst(cfg, events, key, n)
    ensures Folded(events, Firsts(cfg, events, key, n + 1))
         == MarkAfter(ExtraLines(events[n].svc), Folded(events, Firsts(cfg, events, key, n)))
  {
    hide IsFirst, MarkAfter, ExtraLines;
    PutInFront(cfg, events, key, n + 1);
    var firsts := Firsts(cfg, events, key, n);
    assert (firsts + [n])[..|firsts|] == firsts;
  }

  lemma NewMark(cfg: Config, before: map<Key, Ingress>, events: seq<Event>, key: Key, n: nat)
    requires n < |events| && AddKey(events[n].svc) == key && Lands(cfg, before, events[n].svc, events[n].faults)
    requires Refines(cfg, before, events, key, n) && MarkedAs(cfg, before, events, key, n)
    ensures var after := AfterAdd(cfg, before, events[n].svc, events[n].faults);
      key in after && Signed(after[key], MarkAfter(ExtraLines(events[n].svc), Folded(events, Firsts(cfg, events, key, n))))
  {
    hide Firsts, AddKey, MarkAfter, ExtraLines, Signed, RuleHost, ReverseBackends, Planned;
    var mark := Folded(events, Firsts(cfg, events, key, n));
    assert key !in before ==> mark == GENERATOR;
    hide Refines;
    LandingMark(cfg, before, events[n].svc, events[n].faults, mark);
  }

  lemma {:induction false} SparedRunMark(cfg: Config, ingresses: map<Key, Ingress>, events: seq<Event>, key: Key, n: nat)
    requires key !in ingresses && n <= |events|
    requires forall e | e in events :: Spares(e, key)
    ensures MarkedAs(cfg, Run(cfg, ingresses, events[..n]), events, key, n)
  {
    hide Step, Firsts, Folded, Spares, Refines, MarkedAs;
    if n == 0 {
      assert events[..n] == [];
      assert MarkedAs(cfg, ingresses, events, key, 0) by { AbsentHasNoMark(cfg, ingresses, events, key); }
    } else {
      SparedRunMark(cfg, ingresses, events, key, n - 1);
      SparedRunRefinement(cfg, ingresses, events, key, n - 1);
      assert events[..n][..n - 1] == events[..n - 1];
      assert events[n - 1] in events;
      MarkStep(cfg, Run(cfg, ingresses, events[..n - 1]), events, key, n - 1);
    }
  }

  lemma AbsentHasNoMark(cfg: Config, ingresses: map<Key, Ingress>, events: seq<Event>, key: Key)
    requires key !in ingresses
    ensures MarkedAs(cfg, ingresses, events, key, 0)
  {
  }

  /** The mark that the events of the ingress' lifetime fold to. */
  function MarkOf(cfg: Config, events: seq<Event>, key: Key): string {
    var life := Lifetime(events, key);
    Folded(life, Firsts(cfg, life, key, |life|))
  }

  /** Whether the events leave an ingress at `key` that was absent at the start. */
  predicate Created(cfg: Config, events: seq<Event>, key: Key) {
    var life := Lifetime(events, key);
    Firsts(cfg, life, key, |life|) != []
  }

  /** After any run, an ingress that was absent at the start is there iff the run created
      it, and its mark is what the lines of the services listed in it, in the order in which
      they were listed, make of the generator's. */
  lemma MarkAfterRun(cfg: Config, ingresses: map<Key, Ingress>, events: seq<Event>, key: Key)
    requires key !in ingresses
    ensures var after := Run(cfg, ingresses, events);
      && (key in after <==> Created(cfg, events, key))
      && (key in after ==> Signed(after[key], MarkOf(cfg, events, key)))
  {
    hide Run, Lifetime, Firsts, Folded, Signed, RuleHost, ReverseBackends, Spares;
    RunRefinement(cfg, ingresses, events, key);
    var start := LifetimeStartsAfresh(cfg, ingresses, events, key);
    var life := Lifetime(events, key);
    SparedRunMark(cfg, start, life, key, |life|);
    assert life[..|life|] == life;
  }

  // ---- Conservation --------------------------------------------------------

  /** The event keeps off the initial ingresses. */
  predicate KeepsOff(e: Event, initial: map<Key, Ingress>) {
    match e
    case AddEvent(svc, _) => AddKey(svc) !in initial
    case RemoveEvent(svc, _) => RemoveKey(svc) !in initial
  }

  lemma {:induction false} InitialStays(cfg: Config, initial: map<Key, Ingress>, events: seq<Event>, key: Key)
    requires key in initial && forall e | e in events :: KeepsOff(e, initial)
    ensures Find(Run(cfg, initial, events), key) == Some(initial[key])
  {
    hide Step, KeepsOff, Planned;
    if events != [] {
      var init, e := events[..|events| - 1], events[|events| - 1];
      assert e in events;
      InitialStays(cfg, initial, init, key);
      StepKeepsOff(cfg, initial, Run(cfg, initial, init), e, key);
    }
  }

  lemma StepKeepsOff(cfg: Config, initial: map<Key, Ingress>, now: map<Key, Ingress>, e: Event, key: Key)
    requires KeepsOff(e, initial) && key in initial
    ensures Find(Step(cfg, now, e), key) == Find(now, key)
  {
    hide Planned, AppName;
  }

  /** From ingresses none of which is marked, after any run that keeps off them: cleaning up
      removes exactly the created ingresses that are meant and whose marks fold to the
      generator's, and nothing that was there at the start. */
  lemma CleanupRemovesTheSigned(
    cfg: Config, initial: map<Key, Ingress>, events: seq<Event>, namespace: string, filter: string)
    requires forall key | key in initial :: !Marked(initial[key])
    requires forall e | e in events :: KeepsOff(e, initial)
    ensures var after := Run(cfg, initial, events);
            CleanedUp(after, namespace, filter) == after -
              (set key | key in after && key !in initial && (namespace == "" || key.namespace == namespace)
                         && MarkOf(cfg, events, key) == GENERATOR && Contains(key.name, filter))
  {
    hide Contains, Run, MarkOf, Created, KeepsOff;
    var after := Run(cfg, initial, events);
    forall key | key in after
      ensures Marked(after[key]) <==> key !in initial && MarkOf(cfg, events, key) == GENERATOR
    {
      if key in initial {
        InitialStays(cfg, initial, events, key);
      } else {
        MarkAfterRun(cfg, initial, events, key);
      }
    }
  }

  lemma EverythingContainsTheEmptyText(s: string)
    ensures Contains(s, "")
  {
    assert OccursAt(s, "", 0);
  }

  /** With the empty filter, and events of that namespace only, cleaning up gives back the
      initial ingresses exactly when the mark of every created ingress folds to the
      generator's: no service listed last in one overwrites it. */
  lemma CleanupRestoresTheStartIff(cfg: Config, initial: map<Key, Ingress>, events: seq<Event>, namespace: string)
    requires forall key | key in initial :: !Marked(initial[key])
    requires forall e | e in events :: KeepsOff(e, initial) && e.svc.namespace == namespace
    ensures CleanedUp(Run(cfg, initial, events), namespace, "") == initial
       <==> forall key | key !in initial && Created(cfg, events, key) :: MarkOf(cfg, events, key) == GENERATOR
  {
    hide Contains, Run, MarkOf, Created, KeepsOff, Marked, CleanedUp;
    var after := Run(cfg, initial, events);
    CleanupRemovesTheSigned(cfg, initial, events, namespace, "");
    OnlyThatNamespace(cfg, initial, events, namespace);
    forall key | key !in initial
      ensures key in after <==> Created(cfg, events, key)
    {
      MarkAfterRun(cfg, initial, events, key);
    }
    forall key | key in initial
      ensures Find(after, key) == Some(initial[key])
    {
      InitialStays(cfg, initial, events, key);
    }
    forall key: Key {
      EverythingContainsTheEmptyText(key.name);
    }
    hide Signed;
  }

  lemma {:induction false} OnlyThatNamespace(cfg: Config, initial: map<Key, Ingress>, events: seq<Event>, namespace: string)
    requires forall e | e in events :: e.svc.namespace == namespace
    ensures forall key | key in Run(cfg, initial, events) && key !in initial :: key.namespace == namespace
  {
    hide Planned, AppName;
    if events != [] {
      OnlyThatNamespace(cfg, initial, events[..|events| - 1], namespace);
      assert events[|events| - 1] in events;
    }
  }
}
