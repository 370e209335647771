/** Injection into all other config maps of the namespace that ask for the URL of a
    service. The URL is a variable of the loop: what one map does to it, the next sees. */
module OtherMaps {
  import opened Text
  import opened Objects
  import opened ApiServer
  import opened Assignments

  /** The service, whether the controller is configured for plain HTTP, and the URL with
      its path replaced by "/" as `net/url` prints it (`None` on a parse error). */
  datatype Source = Source(service: string, http: bool, noPath: string -> Option<string>)

  // The annotations, and the common one for the protocol.

  function PlainKey(s: Source): string {
    "expose.service-key.config.fabric8.io/" + s.service
  }

  function FullKey(s: Source): string {
    "expose-full.service-key.config.fabric8.io/" + s.service
  }

  function NoProtocolKey(s: Source): string {
    "expose-no-protocol.service-key.config.fabric8.io/" + s.service
  }

  function NoPathKey(s: Source): string {
    "expose-no-path.service-key.config.fabric8.io/" + s.service
  }

  function FullNoProtocolKey(s: Source): string {
    "expose-full-no-protocol.service-key.config.fabric8.io/" + s.service
  }

  function ProtocolKey(): string {
    "expose.config.fabric8.io/url-protocol"
  }

  function EnsureSlash(url: string): string {
    if HasSuffix(url, "/") then url else url + "/"
  }

  function StripProtocol(url: string): string {
    TrimPrefix(TrimPrefix(url, "http://"), "https://")
  }

  /** The same value under every key of a list. */
  function PutEach(keys: seq<string>, value: string): seq<Assign> {
    if keys == [] then [] else [Put(keys[0], value)] + PutEach(keys[1..], value)
  }

  /** The value under every key that an annotation of the map lists, if it is there. */
  function PutListed(cm: ConfigMap, annotation: string, value: string): seq<Assign> {
    if Asks(cm, annotation) then PutEach(Split(Lookup(cm.annotations, annotation), ','), value) else []
  }

  predicate Asks(cm: ConfigMap, annotation: string) {
    Lookup(cm.annotations, annotation) != ""
  }

  // ---- The URL as it passes one config map ---------------------------------

  function UrlPlain(s: Source, cm: ConfigMap, url: string): string {
    if Asks(cm, PlainKey(s)) then TrimSuffix(url, "/") else url
  }

  function UrlFull(s: Source, cm: ConfigMap, url: string): string {
    var u := UrlPlain(s, cm, url);
    if Asks(cm, FullKey(s)) then EnsureSlash(u) else u
  }

  function UrlNoProtocol(s: Source, cm: ConfigMap, url: string): string {
    var u := UrlFull(s, cm, url);
    if Asks(cm, NoProtocolKey(s)) then StripProtocol(TrimSuffix(u, "/")) else u
  }

  /** The URL that the next config map starts from. */
  function UrlAfter(s: Source, cm: ConfigMap, url: string): string {
    var u := UrlNoProtocol(s, cm, url);
    if Asks(cm, FullNoProtocolKey(s)) then StripProtocol(EnsureSlash(u)) else u
  }

  /** What the annotations that keep the protocol ask for. */
  function WritesWithProtocol(s: Source, cm: ConfigMap, url: string): seq<Assign> {
    var noPath := s.noPath(UrlFull(s, cm, url));
    PutListed(cm, PlainKey(s), UrlPlain(s, cm, url))
    + PutListed(cm, FullKey(s), UrlFull(s, cm, url))
    + if noPath.Some? then PutListed(cm, NoPathKey(s), noPath.value) else []
  }

  /** What those that strip it ask for, and the one that asks for the protocol itself. */
  function WritesWithoutProtocol(s: Source, cm: ConfigMap, url: string): seq<Assign> {
    PutListed(cm, NoProtocolKey(s), UrlNoProtocol(s, cm, url))
    + PutListed(cm, FullNoProtocolKey(s), UrlAfter(s, cm, url))
    + PutListed(cm, ProtocolKey(), if s.http then "http" else "https")
  }

  function AllWrites(s: Source, cm: ConfigMap, url: string): seq<Assign> {
    WritesWithProtocol(s, cm, url) + WritesWithoutProtocol(s, cm, url)
  }

  /** The data of one config map afterwards. */
  function DataAfter(s: Source, cm: ConfigMap, url: string): Dict {
    AppliedAll(cm.data, AllWrites(s, cm, url))
  }

  method PutUnder(data: Dict, text: string, value: string) returns (result: Dict, changed: bool)
    ensures result == AppliedAll(data, PutEach(Split(text, ','), value))
    ensures changed <==> Flagged(data, PutEach(Split(text, ','), value))
  {
    var keys := Split(text, ',');
    result, changed := data, false;
    for i := 0 to |keys|
      invariant AppliedAll(result, PutEach(keys[i..], value)) == AppliedAll(data, PutEach(keys, value))
      invariant changed || Flagged(result, PutEach(keys[i..], value)) <==> Flagged(data, PutEach(keys, value))
    {
      FirstOfEach(result, keys[i..], value);
      assert keys[i..][0] == keys[i] && keys[i..][1..] == keys[i + 1..];
      if Lookup(result, keys[i]) != value {
        result := result[keys[i] := value];
        changed := true;
      }
    }
    assert keys[|keys|..] == [];
  }

  lemma FirstOfEach(data: Dict, keys: seq<string>, value: string)
    requires keys != []
    ensures AppliedAll(data, PutEach(keys, value)) == AppliedAll(Applied(data, Put(keys[0], value)), PutEach(keys[1..], value))
    ensures Flagged(data, PutEach(keys, value))
       <==> Writes(data, Put(keys[0], value)) || Flagged(Applied(data, Put(keys[0], value)), PutEach(keys[1..], value))
  {
    assert PutEach(keys, value)[1..] == PutEach(keys[1..], value);
  }

  /** The body of the loop. */
  method Visit(s: Source, cm: ConfigMap, url: string) returns (data: Dict, next: string, update: bool)
    ensures data == DataAfter(s, cm, url) && next == UrlAfter(s, cm, url)
    ensures update <==> Flagged(cm.data, AllWrites(s, cm, url))
  {
    hide WritesWithProtocol, WritesWithoutProtocol, UrlFull, UrlAfter, AppliedAll, Flagged;
    data, next, update := VisitWithProtocol(s, cm, url);
    var changed: bool;
    data, next, changed := VisitWithoutProtocol(s, cm, url, data, next);
    update := update || changed;
    AppliedInTwo(cm.data, WritesWithProtocol(s, cm, url), WritesWithoutProtocol(s, cm, url));
  }

  lemma NothingWritten(data: Dict)
    ensures AppliedAll(data, []) == data && !Flagged(data, [])
  {
  }

  method VisitWithProtocol(s: Source, cm: ConfigMap, url: string) returns (data: Dict, next: string, update: bool)
    ensures data == AppliedAll(cm.data, WritesWithProtocol(s, cm, url)) && next == UrlFull(s, cm, url)
    ensures update <==> Flagged(cm.data, WritesWithProtocol(s, cm, url))
  {
    hide PutEach, Split, PlainKey, FullKey, NoPathKey, HasSuffix, TrimSuffix, AppliedAll, Flagged;
    forall d: Dict {
      NothingWritten(d);
    }
    data, next, update := cm.data, url, false;
    var changed: bool;
    var updateKey := Lookup(cm.annotations, PlainKey(s));
    if |updateKey| > 0 {
      next := TrimSuffix(next, "/");
      data, changed := PutUnder(data, updateKey, next);
      update := update || changed;
    }
    updateKey := Lookup(cm.annotations, FullKey(s));
    if |updateKey| > 0 {
      if !HasSuffix(next, "/") {
        next := next + "/";
      }
      data, changed := PutUnder(data, updateKey, next);
      update := update || changed;
    }
    updateKey := Lookup(cm.annotations, NoPathKey(s));
    var noPathUrl := s.noPath(next);
    if |updateKey| > 0 {
      if noPathUrl.Some? {
        data, changed := PutUnder(data, updateKey, noPathUrl.value);
        update := update || changed;
      }
    }
    AppliedInThree(
      cm.data, PutListed(cm, PlainKey(s), UrlPlain(s, cm, url)), PutListed(cm, FullKey(s), UrlFull(s, cm, url)),
      if noPathUrl.Some? then PutListed(cm, NoPathKey(s), noPathUrl.value) else []);
  }

  method VisitWithoutProtocol(s: Source, cm: ConfigMap, ghost url: string, start: Dict, full: string)
    returns (data: Dict, next: string, update: bool)
    requires full == UrlFull(s, cm, url)
    ensures data == AppliedAll(start, WritesWithoutProtocol(s, cm, url)) && next == UrlAfter(s, cm, url)
    ensures update <==> Flagged(start, WritesWithoutProtocol(s, cm, url))
  {
    hide PutEach, Split, NoProtocolKey, FullNoProtocolKey, ProtocolKey, HasPrefix;
    hide HasSuffix, TrimSuffix, TrimPrefix, UrlFull, AppliedAll, Flagged;
    forall d: Dict {
      NothingWritten(d);
    }
    data, next, update := start, full, false;
    var changed: bool;
    var updateKey := Lookup(cm.annotations, NoProtocolKey(s));
    if |updateKey| > 0 {
      next := TrimSuffix(next, "/");
      next := TrimPrefix(next, "http://");
      next := TrimPrefix(next, "https://");
      data, changed := PutUnder(data, updateKey, next);
      update := update || changed;
    }
    updateKey := Lookup(cm.annotations, FullNoProtocolKey(s));
    if |updateKey| > 0 {
      if !HasSuffix(next, "/") {
        next := next + "/";
      }
      next := TrimPrefix(next, "http://");
      next := TrimPrefix(next, "https://");
      data, changed := PutUnder(data, updateKey, next);
      update := update || changed;
    }
    updateKey := Lookup(cm.annotations, ProtocolKey());
    var protocol := if s.http then "http" else "https";
    if |updateKey| > 0 {
      data, changed := PutUnder(data, updateKey, protocol);
      update := update || changed;
    }
    AppliedInThree(
      start, PutListed(cm, NoProtocolKey(s), UrlNoProtocol(s, cm, url)), PutListed(cm, FullNoProtocolKey(s), UrlAfter(s, cm, url)),
      PutListed(cm, ProtocolKey(), protocol));
  }

  // ---- Visiting a map again ------------------------------------------------

  lemma {:induction false} EachIsPut(keys: seq<string>, value: string)
    ensures forall a | a in PutEach(keys, value) :: a.Put? && a.value == value && a.key in keys
    ensures forall key | key in keys :: Put(key, value) in PutEach(keys, value)
  {
    if keys != [] {
      EachIsPut(keys[1..], value);
      assert forall key | key in keys :: key == keys[0] || key in keys[1..];
    }
  }

  lemma ListedArePuts(cm: ConfigMap, annotation: string, value: string)
    ensures forall a | a in PutListed(cm, annotation, value) :: a.Put?
  {
    hide Split, PutEach;
    if Asks(cm, annotation) {
      EachIsPut(Split(Lookup(cm.annotations, annotation), ','), value);
    }
  }

  lemma AllArePuts(s: Source, cm: ConfigMap, url: string)
    ensures forall a | a in AllWrites(s, cm, url) :: a.Put?
  {
    hide PutListed, PlainKey, FullKey, NoPathKey, NoProtocolKey;
    hide FullNoProtocolKey, ProtocolKey, UrlPlain, UrlFull, UrlNoProtocol, UrlAfter;
    ListedArePuts(cm, PlainKey(s), UrlPlain(s, cm, url));
    ListedArePuts(cm, FullKey(s), UrlFull(s, cm, url));
    var noPath := s.noPath(UrlFull(s, cm, url));
    if noPath.Some? {
      ListedArePuts(cm, NoPathKey(s), noPath.value);
    }
    ListedArePuts(cm, NoProtocolKey(s), UrlNoProtocol(s, cm, url));
    ListedArePuts(cm, FullNoProtocolKey(s), UrlAfter(s, cm, url));
    ListedArePuts(cm, ProtocolKey(), if s.http then "http" else "https");
  }

  /** No entry is to be written with two different values. */
  predicate Unambiguous(writes: seq<Assign>) {
    forall a, b | a in writes && b in writes && a.Put? && b.Put? && a.key == b.key :: a.value == b.value
  }

  /** Visiting a map again with the same URL never changes its data, and sets no flag
      exactly when no key is listed under two annotations that write different values;
      such a key makes every event send an update. */
  lemma SecondVisit(s: Source, cm: ConfigMap, url: string)
    ensures var again := cm.(data := DataAfter(s, cm, url));
      && DataAfter(s, again, url) == again.data
      && (Flagged(again.data, AllWrites(s, again, url)) <==> !Unambiguous(AllWrites(s, cm, url)))
  {
    var writes := AllWrites(s, cm, url);
    var again := cm.(data := DataAfter(s, cm, url));
    AllArePuts(s, cm, url);
    SameAnnotations(s, cm, again, url);
    hide AllWrites, Flagged, AppliedAll, UrlAfter, Proper;
    assert Proper(writes) by { PutsAreProper(writes); }
    SecondPassChangesNothing(cm.data, writes);
    SecondPassQuietIffConsistent(cm.data, writes);
    PutsAgreeIffUnambiguous(writes);
    hide Consistent, Unambiguous;
  }

  lemma PutsAreProper(writes: seq<Assign>)
    requires forall a | a in writes :: a.Put?
    ensures Proper(writes)
  {
  }

  lemma PutsAgreeIffUnambiguous(writes: seq<Assign>)
    requires forall a | a in writes :: a.Put?
    ensures Consistent(writes) <==> Unambiguous(writes)
  {
    if Consistent(writes) {
      forall a, b | a in writes && b in writes && a.key == b.key
        ensures a.value == b.value
      {
        assert Agree(a, b);
      }
    }
  }

  lemma SameAnnotations(s: Source, a: ConfigMap, b: ConfigMap, url: string)
    requires a.annotations == b.annotations
    ensures AllWrites(s, a, url) == AllWrites(s, b, url) && UrlAfter(s, a, url) == UrlAfter(s, b, url)
  {
    hide PutEach, Split, PlainKey, FullKey, NoPathKey;
    hide NoProtocolKey, FullNoProtocolKey, ProtocolKey, TrimSuffix, EnsureSlash, StripProtocol;
  }

  // ---- The loop ------------------------------------------------------------

  /** The URL after the maps listed before position `n`. */
  function Carried(s: Source, maps: map<Key, ConfigMap>, namespace: string, names: seq<string>, url: string, n: nat): string
    requires n <= |names| && forall name | name in names :: Key(namespace, name) in maps
  {
    if n == 0 then url
    else UrlAfter(s, maps[Key(namespace, names[n - 1])], Carried(s, maps, namespace, names, url, n - 1))
  }

  /** The map at position `n` of the list as the loop leaves it. */
  function Outcome(s: Source, maps: map<Key, ConfigMap>, namespace: string, names: seq<string>, url: string, n: nat): ConfigMap
    requires n < |names| && forall name | name in names :: Key(namespace, name) in maps
  {
    var cm := maps[Key(namespace, names[n])];
    cm.(data := DataAfter(s, cm, Carried(s, maps, namespace, names, url, n)))
  }

  /** The store after the first `n` maps of the list. */
  function Stored(s: Source, maps: map<Key, ConfigMap>, namespace: string, names: seq<string>, url: string, n: nat)
    : map<Key, ConfigMap>
    requires n <= |names| && forall name | name in names :: Key(namespace, name) in maps
  {
    if n == 0 then maps
    else
      Stored(s, maps, namespace, names, url, n - 1)[
        Key(namespace, names[n - 1]) := Outcome(s, maps, namespace, names, url, n - 1)]
  }

  /** Whether the map at position `n` of the list needs an update and is refused it. */
  predicate StopsAt(
    s: Source, maps: map<Key, ConfigMap>, namespace: string, names: seq<string>, url: string, refused: set<string>, n: nat)
    requires n < |names| && forall name | name in names :: Key(namespace, name) in maps
  {
    var cm := maps[Key(namespace, names[n])];
    names[n] in refused && Flagged(cm.data, AllWrites(s, cm, Carried(s, maps, namespace, names, url, n)))
  }

  /** What the loop over the listed maps comes to: it stops at the first map that needs an
      update and is refused it, if there is one, with exactly those before it stored. */
  ghost predicate Visited(
    s: Source, maps: map<Key, ConfigMap>, maps': map<Key, ConfigMap>, namespace: string, url: string, refused: set<string>,
    names: seq<string>, done: nat)
  {
    && Enumerates(names, maps, namespace) && done <= |names|
    && maps' == Stored(s, maps, namespace, names, url, done)
    && (forall i | 0 <= i < done :: !StopsAt(s, maps, namespace, names, url, refused, i))
    && (done < |names| ==> StopsAt(s, maps, namespace, names, url, refused, done))
  }

  /** updateOtherConfigMaps. `refused` are the maps whose update the server refuses. The
      order in which the maps were listed is returned along. */
  method UpdateOtherConfigMaps(server: ApiServer, s: Source, namespace: string, exposeUrl: string, refused: set<string>)
    returns (failed: bool, ghost names: seq<string>, ghost done: nat)
    modifies server`configMaps
    ensures Visited(s, old(server.configMaps), server.configMaps, namespace, exposeUrl, refused, names, done)
    ensures failed <==> done < |names|
  {
    hide AllWrites, UrlAfter, Flagged, AppliedAll;
    ghost var was := server.configMaps;
    var items := server.configMaps;
    var listed := ListNames(server.configMaps, namespace);
    names, done := listed, 0;
    var url := exposeUrl;
    for n := 0 to |listed|
      invariant done == n
      invariant url == Carried(s, was, namespace, listed, exposeUrl, n)
      invariant server.configMaps == Stored(s, was, namespace, listed, exposeUrl, n)
      invariant forall i | 0 <= i < n :: !StopsAt(s, was, namespace, listed, exposeUrl, refused, i)
    {
      var key := Key(namespace, listed[n]);
      assert listed[n] in listed && key in was;
      var cm := items[key];
      var data, next, update := Visit(s, cm, url);
      StoredLater(s, was, namespace, listed, exposeUrl, n, n);
      if update {
        if key.name in refused {
          return true, listed, n;
        }
        server.configMaps := server.configMaps[key := cm.(data := data)];
      } else {
        QuietMeansUnchanged(cm.data, AllWrites(s, cm, url));
        assert server.configMaps == server.configMaps[key := cm];
      }
      url := next;
      done := done + 1;
    }
    failed := false;
  }

  /** Maps further down the list are as they were. */
  lemma {:induction false} StoredLater(
    s: Source, maps: map<Key, ConfigMap>, namespace: string, names: seq<string>, url: string, n: nat, i: nat)
    requires Enumerates(names, maps, namespace) && n <= i < |names|
    requires forall name | name in names :: Key(namespace, name) in maps
    ensures var key := Key(namespace, names[i]);
            var now := Stored(s, maps, namespace, names, url, n);
            key in now && key in maps && now[key] == maps[key]
  {
    hide Outcome;
    assert names[i] in names;
    if n > 0 {
      StoredLater(s, maps, namespace, names, url, n - 1, i);
    }
  }

  /** Every map of the list ends as its own visit leaves it; other namespaces stay as they were. */
  lemma {:induction false} StoredOutcomes(
    s: Source, maps: map<Key, ConfigMap>, namespace: string, names: seq<string>, url: string, n: nat)
    requires Enumerates(names, maps, namespace) && n <= |names|
    ensures var now := Stored(s, maps, namespace, names, url, n);
      && now.Keys == maps.Keys
      && (forall i | 0 <= i < n :: now[Key(namespace, names[i])] == Outcome(s, maps, namespace, names, url, i))
      && (forall key | key in maps && key.namespace != namespace :: now[key] == maps[key])
  {
    hide Outcome;
    if n > 0 {
      StoredOutcomes(s, maps, namespace, names, url, n - 1);
      assert names[n - 1] in names;
    }
  }

  lemma {:induction false} CarriedUrls(
    s: Source, maps: map<Key, ConfigMap>, namespace: string, names: seq<string>, url: string, n: nat) returns (urls: seq<string>)
    requires n <= |names| && forall name | name in names :: Key(namespace, name) in maps
    ensures |urls| == n + 1 && urls[0] == url
    ensures forall i | 0 <= i < n :: urls[i + 1] == UrlAfter(s, maps[Key(namespace, names[i])], urls[i])
    ensures forall i | 0 <= i <= n :: urls[i] == Carried(s, maps, namespace, names, url, i)
  {
    hide UrlAfter;
    if n == 0 {
      urls := [url];
    } else {
      urls := CarriedUrls(s, maps, namespace, names, url, n - 1);
      urls := urls + [Carried(s, maps, namespace, names, url, n)];
    }
  }

  /** The loop visits the listed maps one after the other: the first one with the exposed URL,
      each further one with the URL that the one before it left, until it stops at one whose
      update is refused. A map that was visited ends with the data of that visit; the others
      in the namespace and everything outside of it stay. */
  lemma LoopCarriesTheUrl(
    s: Source, maps: map<Key, ConfigMap>, maps': map<Key, ConfigMap>, namespace: string, url: string, refused: set<string>,
    names: seq<string>, done: nat)
    returns (urls: seq<string>)
    requires Visited(s, maps, maps', namespace, url, refused, names, done)
    ensures Enumerates(names, maps, namespace) && maps'.Keys == maps.Keys && |urls| == done + 1 && urls[0] == url
    ensures if done < |names| then names[done] in refused else done == |names|
    ensures forall i | 0 <= i < done ::
      var cm := maps[Key(namespace, names[i])];
      maps'[Key(namespace, names[i])] == cm.(data := DataAfter(s, cm, urls[i])) && urls[i + 1] == UrlAfter(s, cm, urls[i])
    ensures forall key | key in maps && (key.namespace != namespace || key.name !in names[..done]) :: maps'[key] == maps[key]
  {
    hide AllWrites, UrlAfter, Flagged, AppliedAll, Stored, Carried;
    StoredOutcomes(s, maps, namespace, names, url, done);
    urls := CarriedUrls(s, maps, namespace, names, url, done);
    assert forall i | 0 <= i < done :: names[i] in names[..done];
    forall key | key in maps && key.namespace == namespace && key.name !in names[..done]
      ensures maps'[key] == maps[key]
    {
      assert Key(namespace, key.name) == key && key.name in names;
      var i :| 0 <= i < |names| && names[i] == key.name;
      StoredLater(s, maps, namespace, names, url, done, i);
    }
  }

  /** What that says when the server refuses nothing. */
  ghost predicate AllVisited(
    s: Source, maps: map<Key, ConfigMap>, maps': map<Key, ConfigMap>, namespace: string, names: seq<string>, urls: seq<string>)
  {
    && Enumerates(names, maps, namespace) && maps'.Keys == maps.Keys && |urls| == |names| + 1
    && (forall i | 0 <= i < |names| ::
          var key := Key(namespace, names[i]);
          && key in maps && maps'[key] == maps[key].(data := DataAfter(s, maps[key], urls[i]))
          && urls[i + 1] == UrlAfter(s, maps[key], urls[i]))
    && forall key | key in maps && key.namespace != namespace :: maps'[key] == maps[key]
  }

  lemma UnrefusedLoop(
    s: Source, maps: map<Key, ConfigMap>, maps': map<Key, ConfigMap>, namespace: string, url: string, names: seq<string>, done: nat)
    returns (urls: seq<string>)
    requires Visited(s, maps, maps', namespace, url, {}, names, done)
    ensures AllVisited(s, maps, maps', namespace, names, urls) && urls[0] == url
  {
    urls := LoopCarriesTheUrl(s, maps, maps', namespace, url, {}, names, done);
    hide DataAfter, UrlAfter, Visited;
    ListedAreThere(names, maps, namespace);
    hide Enumerates;
  }

  lemma ListedAreThere(names: seq<string>, maps: map<Key, ConfigMap>, namespace: string)
    requires Enumerates(names, maps, namespace)
    ensures forall i | 0 <= i < |names| :: Key(namespace, names[i]) in maps
  {
    assert forall i | 0 <= i < |names| :: names[i] in names;
  }

  lemma {:induction false} CarriedAlike(
    s: Source, maps: map<Key, ConfigMap>, maps': map<Key, ConfigMap>, namespace: string, names: seq<string>, url: string, n: nat)
    requires n <= |names|
    requires forall name | name in names ::
      Key(namespace, name) in maps && Key(namespace, name) in maps'
      && maps[Key(namespace, name)].annotations == maps'[Key(namespace, name)].annotations
    ensures Carried(s, maps, namespace, names, url, n) == Carried(s, maps', namespace, names, url, n)
  {
    hide UrlAfter, AllWrites;
    if n > 0 {
      CarriedAlike(s, maps, maps', namespace, names, url, n - 1);
      var key := Key(namespace, names[n - 1]);
      assert names[n - 1] in names && key in maps && key in maps';
      SameAnnotations(s, maps[key], maps'[key], Carried(s, maps, namespace, names, url, n - 1));
    }
  }

  lemma SameAnnotationsStored(s: Source, maps: map<Key, ConfigMap>, namespace: string, names: seq<string>, url: string)
    requires Enumerates(names, maps, namespace)
    ensures var once := Stored(s, maps, namespace, names, url, |names|);
      && Enumerates(names, once, namespace)
      && forall name | name in names ::
           Key(namespace, name) in once && once[Key(namespace, name)].annotations == maps[Key(namespace, name)].annotations
  {
    hide Stored, Carried, DataAfter;
    StoredOutcomes(s, maps, namespace, names, url, |names|);
    assert forall name | name in names :: exists i :: 0 <= i < |names| && names[i] == name;
  }

  /** A second event for the same URL goes over the same list and changes no config map,
      even when the maps strip or complete the URL on its way; it sends an update exactly
      for the maps that list a key ambiguously. */
  lemma SecondLoop(
    s: Source, maps: map<Key, ConfigMap>, namespace: string, names: seq<string>, url: string)
    requires Enumerates(names, maps, namespace)
    ensures var once := Stored(s, maps, namespace, names, url, |names|);
      && Enumerates(names, once, namespace)
      && (forall n | 0 <= n < |names| ::
            var cm, carried := once[Key(namespace, names[n])], Carried(s, once, namespace, names, url, n);
            && Outcome(s, once, namespace, names, url, n) == cm
            && (Flagged(cm.data, AllWrites(s, cm, carried)) <==> !Unambiguous(AllWrites(s, cm, carried))))
  {
    hide AllWrites, UrlAfter, Flagged, AppliedAll, Stored, Unambiguous, Carried;
    var once := Stored(s, maps, namespace, names, url, |names|);
    StoredOutcomes(s, maps, namespace, names, url, |names|);
    SameAnnotationsStored(s, maps, namespace, names, url);
    forall n | 0 <= n < |names|
      ensures var cm, carried := once[Key(namespace, names[n])], Carried(s, once, namespace, names, url, n);
        && Outcome(s, once, namespace, names, url, n) == cm
        && (Flagged(cm.data, AllWrites(s, cm, carried)) <==> !Unambiguous(AllWrites(s, cm, carried)))
    {
      CarriedAlike(s, maps, once, namespace, names, url, n);
      var key := Key(namespace, names[n]);
      assert names[n] in names && key in maps;
      var carried := Carried(s, maps, namespace, names, url, n);
      SecondVisit(s, maps[key], carried);
      SameAnnotations(s, maps[key], once[key], carried);
    }
  }

  // ---- Independence of the loop --------------------------------------------

  predicate Strips(s: Source, cm: ConfigMap) {
    Asks(cm, NoProtocolKey(s)) || Asks(cm, FullNoProtocolKey(s))
  }

  predicate HasProtocol(url: string) {
    HasPrefix(url, "http://") || HasPrefix(url, "https://")
  }

  /** A URL up to its one trailing slash, longer than a bare protocol. */
  predicate IsCore(core: string) {
    !HasSuffix(core, "/") && core != "http:/" && core != "https:/"
  }

  predicate IsForm(url: string, core: string) {
    url == core || url == core + "/"
  }

  lemma Forms(core: string)
    requires IsCore(core)
    ensures TrimSuffix(core, "/") == core && EnsureSlash(core) == core + "/"
    ensures TrimSuffix(core + "/", "/") == core && EnsureSlash(core + "/") == core + "/"
  {
    assert HasSuffix(core + "/", "/");
  }

  /** Stripping the protocol leaves a form of the URL exactly when there is none. */
  lemma StripForms(core: string, url: string)
    requires IsCore(core) && IsForm(url, core)
    ensures HasProtocol(url) <==> HasProtocol(core)
    ensures !HasProtocol(core) ==> StripProtocol(url) == url
    ensures HasProtocol(core) ==> |StripProtocol(url)| + 6 <= |core|
  {
    ProtocolOfForm(core, "http://");
    ProtocolOfForm(core, "https://");
  }

  lemma ProtocolOfForm(core: string, protocol: string)
    requires IsCore(core) && protocol in {"http://", "https://"}
    ensures HasPrefix(core + "/", protocol) <==> HasPrefix(core, protocol)
  {
    assert "http://"[..6] == "http:/" && "https://"[..7] == "https:/";
    assert HasPrefix(core + "/", protocol) ==> (core + "/")[..|protocol| - 1] == protocol[..|protocol| - 1];
    assert |core| + 1 == |protocol| ==> (core + "/")[..|protocol| - 1] == core;
    if HasPrefix(core + "/", protocol) && |core| >= |protocol| {
      assert core[..|protocol|] == (core + "/")[..|protocol|];
    }
  }

  /** The URL that leaves a config map is a form of the one that entered it, exactly when
      the map does not strip the protocol or there is none to strip. */
  lemma CarriedFormIffNothingStripped(s: Source, cm: ConfigMap, core: string, url: string)
    requires IsCore(core) && IsForm(url, core)
    ensures IsForm(UrlAfter(s, cm, url), core) <==> !(Strips(s, cm) && HasProtocol(core))
  {
    Forms(core);
    StripForms(core, core);
    StripForms(core, core + "/");
    var full := UrlFull(s, cm, url);
    assert IsForm(full, core);
    hide UrlFull, StripProtocol, HasProtocol, HasSuffix;
    if Strips(s, cm) && HasProtocol(core) && Asks(cm, NoProtocolKey(s)) {
      StrippedStaysShort(s, cm, core, url);
    }
  }

  lemma StrippedStaysShort(s: Source, cm: ConfigMap, core: string, url: string)
    requires |UrlNoProtocol(s, cm, url)| + 6 <= |core|
    requires Asks(cm, NoProtocolKey(s))
    ensures !IsForm(UrlAfter(s, cm, url), core)
  {
  }

  /** The URLs that are actually written do not depend on the form either. */
  lemma SameWrittenUrls(s: Source, cm: ConfigMap, core: string, url: string, url': string)
    requires IsCore(core) && IsForm(url, core) && IsForm(url', core)
    ensures Asks(cm, PlainKey(s)) ==> UrlPlain(s, cm, url) == UrlPlain(s, cm, url')
    ensures Asks(cm, FullKey(s)) ==> UrlFull(s, cm, url) == UrlFull(s, cm, url')
    ensures IsForm(UrlFull(s, cm, url), core) && IsForm(UrlFull(s, cm, url'), core)
    ensures Asks(cm, NoProtocolKey(s)) ==> UrlNoProtocol(s, cm, url) == UrlNoProtocol(s, cm, url')
    ensures Asks(cm, FullNoProtocolKey(s)) ==> UrlAfter(s, cm, url) == UrlAfter(s, cm, url')
  {
    Forms(core);
    hide HasSuffix, StripProtocol, EnsureSlash, IsCore, TrimSuffix;
    hide PlainKey, FullKey, NoPathKey, NoProtocolKey, FullNoProtocolKey;
  }

  /** A config map ends up with the same data whichever form of the URL reaches it, when
      the path-free URL does not depend on the form either. */
  lemma FormDoesNotMatter(s: Source, cm: ConfigMap, core: string, url: string, url': string)
    requires IsCore(core) && IsForm(url, core) && IsForm(url', core)
    requires s.noPath(core) == s.noPath(core + "/")
    ensures DataAfter(s, cm, url) == DataAfter(s, cm, url')
  {
    SameWrittenUrls(s, cm, core, url, url');
    assert AllWrites(s, cm, url) == AllWrites(s, cm, url') by {
      hide UrlPlain, UrlFull, UrlNoProtocol, UrlAfter, PutEach, Split, IsCore;
      hide PlainKey, FullKey, NoPathKey, NoProtocolKey, FullNoProtocolKey, ProtocolKey;
      assert s.noPath(UrlFull(s, cm, url)) == s.noPath(UrlFull(s, cm, url'));
    }
    hide AllWrites;
  }

  lemma {:induction false} CarriedForms(
    s: Source, maps: map<Key, ConfigMap>, namespace: string, names: seq<string>, url: string, core: string, n: nat)
    requires n <= |names| && forall name | name in names :: Key(namespace, name) in maps
    requires IsCore(core) && IsForm(url, core)
    requires forall name | name in names :: !(Strips(s, maps[Key(namespace, name)]) && HasProtocol(core))
    ensures IsForm(Carried(s, maps, namespace, names, url, n), core)
  {
    hide UrlAfter, IsCore, IsForm, Strips, HasProtocol;
    if n > 0 {
      CarriedForms(s, maps, namespace, names, url, core, n - 1);
      assert names[n - 1] in names;
      CarriedFormIffNothingStripped(
        s, maps[Key(namespace, names[n - 1])], core, Carried(s, maps, namespace, names, url, n - 1));
    }
  }

  /** The store when every map of the namespace is visited on its own. */
  function EachAlone(s: Source, maps: map<Key, ConfigMap>, namespace: string, url: string): map<Key, ConfigMap> {
    map key | key in maps ::
      if key.namespace == namespace then maps[key].(data := DataAfter(s, maps[key], url)) else maps[key]
  }

  /** When no map strips the protocol, or there is none to strip, the loop does to each
      map what it would do to it alone: the order of the list does not matter. */
  lemma LoopIsPerMap(
    s: Source, maps: map<Key, ConfigMap>, namespace: string, names: seq<string>, url: string, core: string)
    requires Enumerates(names, maps, namespace)
    requires IsCore(core) && IsForm(url, core) && s.noPath(core) == s.noPath(core + "/")
    requires forall key | key in maps && key.namespace == namespace :: !(Strips(s, maps[key]) && HasProtocol(core))
    ensures Stored(s, maps, namespace, names, url, |names|) == EachAlone(s, maps, namespace, url)
  {
    hide DataAfter, IsCore, IsForm, Strips, HasProtocol, Stored, Outcome;
    StoredOutcomes(s, maps, namespace, names, url, |names|);
    var now := Stored(s, maps, namespace, names, url, |names|);
    forall key | key in maps
      ensures now[key] == EachAlone(s, maps, namespace, url)[key]
    {
      if key.namespace == namespace {
        OneMapAlone(s, maps, namespace, names, url, core, key);
      }
    }
  }

  lemma OneMapAlone(
    s: Source, maps: map<Key, ConfigMap>, namespace: string, names: seq<string>, url: string, core: string, key: Key)
    requires Enumerates(names, maps, namespace) && key in maps && key.namespace == namespace
    requires IsCore(core) && IsForm(url, core) && s.noPath(core) == s.noPath(core + "/")
    requires forall key | key in maps && key.namespace == namespace :: !(Strips(s, maps[key]) && HasProtocol(core))
    ensures Stored(s, maps, namespace, names, url, |names|).Keys == maps.Keys
    ensures Stored(s, maps, namespace, names, url, |names|)[key] == maps[key].(data := DataAfter(s, maps[key], url))
  {
    hide DataAfter, IsCore, IsForm, Strips, HasProtocol, Stored, Carried;
    StoredOutcomes(s, maps, namespace, names, url, |names|);
    assert key == Key(namespace, key.name) && key.name in names;
    var n :| 0 <= n < |names| && names[n] == key.name;
    CarriedForms(s, maps, namespace, names, url, core, n);
    FormDoesNotMatter(s, maps[key], core, url, Carried(s, maps, namespace, names, url, n));
  }

  // ---- The condition is needed ---------------------------------------------

  /** A map that asks for the plain URL and nothing else. */
  predicate OnlyPlain(s: Source, cm: ConfigMap) {
    && Asks(cm, PlainKey(s)) && !Asks(cm, FullKey(s)) && !Asks(cm, NoPathKey(s))
    && !Asks(cm, NoProtocolKey(s)) && !Asks(cm, FullNoProtocolKey(s)) && !Asks(cm, ProtocolKey())
  }

  /** A map that asks for the plain URL gets the same data before and after another map in
      the list exactly when that other map does not strip the protocol, or there is none. */
  lemma PlainMapSeesStripping(s: Source, other: ConfigMap, cm: ConfigMap, core: string, url: string)
    requires IsCore(core) && IsForm(url, core) && s.noPath(core) == s.noPath(core + "/")
    requires OnlyPlain(s, cm)
    ensures DataAfter(s, cm, UrlAfter(s, other, url)) == DataAfter(s, cm, url)
       <==> !(Strips(s, other) && HasProtocol(core))
  {
    CarriedFormIffNothingStripped(s, other, core, url);
    Forms(core);
    var url' := UrlAfter(s, other, url);
    if IsForm(url', core) {
      FormDoesNotMatter(s, cm, core, url, url');
    } else {
      TrimSuffixForms(url', core);
      var keys := Split(Lookup(cm.annotations, PlainKey(s)), ',');
      OnlyPlainData(s, cm, url);
      OnlyPlainData(s, cm, url');
      hide DataAfter, OnlyPlain, UrlAfter, HasSuffix, TrimSuffix;
      hide PutEach, AppliedAll, Split, PlainKey, Strips, HasProtocol;
      PlainUrlIsStored(cm.data, keys, core);
      PlainUrlIsStored(cm.data, keys, TrimSuffix(url', "/"));
    }
  }

  lemma PlainUrlIsStored(data: Dict, keys: seq<string>, value: string)
    requires keys != []
    ensures Lookup(AppliedAll(data, PutEach(keys, value)), keys[0]) == value
  {
    hide PutEach, AppliedAll;
    EachIsPut(keys, value);
    assert keys[0] in keys && Put(keys[0], value) in PutEach(keys, value);
    AgreedValueHolds(data, PutEach(keys, value), keys[0], value);
  }

  lemma OnlyPlainData(s: Source, cm: ConfigMap, url: string)
    requires OnlyPlain(s, cm)
    ensures DataAfter(s, cm, url)
         == AppliedAll(cm.data, PutEach(Split(Lookup(cm.annotations, PlainKey(s)), ','), TrimSuffix(url, "/")))
  {
    hide PlainKey, FullKey, NoPathKey, NoProtocolKey, FullNoProtocolKey;
    hide ProtocolKey, TrimSuffix, PutEach, AppliedAll, Split;
    assert AllWrites(s, cm, url) == PutListed(cm, PlainKey(s), UrlPlain(s, cm, url));
  }

  lemma TrimSuffixForms(url: string, core: string)
    ensures TrimSuffix(url, "/") == core ==> IsForm(url, core)
  {
    if HasSuffix(url, "/") {
      assert url == url[..|url| - 1] + url[|url| - 1..];
    }
  }
}
