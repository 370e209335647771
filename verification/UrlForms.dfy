/** Which form of a URL the config maps that ask for it receive, and under which entries. */
module UrlForms {
  import opened Text
  import opened Objects
  import opened Assignments
  import opened OtherMaps

  // ---- What a map asks for -------------------------------------------------

  /** The annotations, in the order in which they are followed; behind all but the last
      comes the name of the service. */
  const ASKING := [
    "expose.service-key.config.fabric8.io/",
    "expose-full.service-key.config.fabric8.io/",
    "expose-no-path.service-key.config.fabric8.io/",
    "expose-no-protocol.service-key.config.fabric8.io/",
    "expose-full-no-protocol.service-key.config.fabric8.io/",
    "expose.config.fabric8.io/url-protocol"]

  function Asking(service: string, i: nat): string
    requires i < 6
  {
    if i < 5 then ASKING[i] + service else ASKING[5]
  }

  /** The entries that an annotation lists. */
  function Listed(cm: ConfigMap, name: string): seq<string> {
    var text := Lookup(cm.annotations, name);
    if text == "" then [] else Split(text, ',')
  }

  predicate Lists(s: Source, cm: ConfigMap, i: nat)
    requires i < 6
  {
    Lookup(cm.annotations, Asking(s.service, i)) != ""
  }

  /** The last annotation that lists the entry is this one. */
  predicate ListedLast(s: Source, cm: ConfigMap, i: nat, key: string)
    requires i < 6
  {
    && key in Listed(cm, Asking(s.service, i))
    && forall j | i < j < 6 :: key !in Listed(cm, Asking(s.service, j))
  }

  // ---- The writes in groups ------------------------------------------------

  function Flat(groups: seq<seq<Assign>>): seq<Assign> {
    if groups == [] then [] else groups[0] + Flat(groups[1..])
  }

  lemma {:induction false} FlatSplit(groups: seq<seq<Assign>>, i: nat)
    requires i < |groups|
    ensures Flat(groups) == Flat(groups[..i]) + groups[i] + Flat(groups[i + 1..])
  {
    if i == 0 {
      assert Flat(groups[..0]) == [];
    } else {
      FlatSplit(groups[1..], i - 1);
      assert groups[..i][1..] == groups[1..][..i - 1];
      assert groups[1..][i..] == groups[i + 1..];
    }
  }

  lemma {:induction false} FlatTouches(groups: seq<seq<Assign>>, key: string)
    requires forall i, a | 0 <= i < |groups| && a in groups[i] :: !Touches(a, key)
    ensures forall a | a in Flat(groups) :: !Touches(a, key)
  {
    if groups != [] {
      assert forall i | 0 <= i < |groups| - 1 :: groups[1..][i] == groups[i + 1];
      FlatTouches(groups[1..], key);
    }
  }

  /** The writes that each annotation leads to. */
  function Groups(s: Source, cm: ConfigMap, url: string): (groups: seq<seq<Assign>>)
    ensures |groups| == 6
  {
    var noPath := s.noPath(UrlFull(s, cm, url));
    [PutListed(cm, PlainKey(s), UrlPlain(s, cm, url)),
     PutListed(cm, FullKey(s), UrlFull(s, cm, url)),
     if noPath.Some? then PutListed(cm, NoPathKey(s), noPath.value) else [],
     PutListed(cm, NoProtocolKey(s), UrlNoProtocol(s, cm, url)),
     PutListed(cm, FullNoProtocolKey(s), UrlAfter(s, cm, url)),
     PutListed(cm, ProtocolKey(), if s.http then "http" else "https")]
  }

  lemma FlatSix(groups: seq<seq<Assign>>)
    requires |groups| == 6
    ensures Flat(groups) == groups[0] + groups[1] + groups[2] + (groups[3] + groups[4] + groups[5])
  {
    assert Flat(groups[6..]) == [];
    assert Flat(groups[5..]) == groups[5] + Flat(groups[6..]);
    assert Flat(groups[4..]) == groups[4] + Flat(groups[5..]);
    assert Flat(groups[3..]) == groups[3] + Flat(groups[4..]);
    assert Flat(groups[2..]) == groups[2] + Flat(groups[3..]);
    assert Flat(groups[1..]) == groups[1] + Flat(groups[2..]);
    hide Flat;
    assert groups[0..] == groups;
  }

  lemma GroupsAreTheWrites(s: Source, cm: ConfigMap, url: string)
    ensures AllWrites(s, cm, url) == Flat(Groups(s, cm, url))
  {
    FlatSix(Groups(s, cm, url));
    hide Flat, PutListed, UrlPlain, UrlFull, UrlNoProtocol, UrlAfter;
    hide PlainKey, FullKey, NoPathKey, NoProtocolKey, FullNoProtocolKey, ProtocolKey;
  }

  lemma NamesAre(s: Source)
    ensures Asking(s.service, 0) == PlainKey(s) && Asking(s.service, 1) == FullKey(s) && Asking(s.service, 2) == NoPathKey(s)
    ensures Asking(s.service, 3) == NoProtocolKey(s) && Asking(s.service, 4) == FullNoProtocolKey(s)
    ensures Asking(s.service, 5) == ProtocolKey()
  {
  }

  lemma ListedTouches(cm: ConfigMap, name: string, value: string, key: string)
    ensures (forall a | a in PutListed(cm, name, value) && Touches(a, key) :: key in Listed(cm, name) && a == Put(key, value))
    ensures key in Listed(cm, name) ==> Put(key, value) in PutListed(cm, name, value)
  {
    EachIsPut(Split(Lookup(cm.annotations, name), ','), value);
    hide PutEach, Split;
  }

  /** What the groups are about. */
  lemma GroupsAreListed(s: Source, cm: ConfigMap, url: string, i: nat, key: string)
    requires i < 6
    ensures forall a | a in Groups(s, cm, url)[i] && Touches(a, key) :: key in Listed(cm, Asking(s.service, i))
  {
    NamesAre(s);
    hide PutListed, Listed, UrlPlain, UrlFull, UrlNoProtocol, UrlAfter, Asking;
    hide PlainKey, FullKey, NoPathKey, NoProtocolKey, FullNoProtocolKey, ProtocolKey;
    var noPath := s.noPath(UrlFull(s, cm, url));
    ListedTouches(cm, PlainKey(s), UrlPlain(s, cm, url), key);
    ListedTouches(cm, FullKey(s), UrlFull(s, cm, url), key);
    if noPath.Some? {
      ListedTouches(cm, NoPathKey(s), noPath.value, key);
    }
    ListedTouches(cm, NoProtocolKey(s), UrlNoProtocol(s, cm, url), key);
    ListedTouches(cm, FullNoProtocolKey(s), UrlAfter(s, cm, url), key);
    ListedTouches(cm, ProtocolKey(), if s.http then "http" else "https", key);
  }

  lemma MiddleHolds(data: Dict, front: seq<Assign>, middle: seq<Assign>, back: seq<Assign>, key: string, value: string)
    requires Put(key, value) in middle && forall a | a in middle && Touches(a, key) :: a == Put(key, value)
    requires forall a | a in back :: !Touches(a, key)
    ensures Lookup(AppliedAll(data, front + middle + back), key) == value
  {
    hide AppliedAll;
    AppliedInThree(data, front, middle, back);
    AgreedValueHolds(AppliedAll(data, front), middle, key, value);
    UntouchedStays(AppliedAll(AppliedAll(data, front), middle), back, key);
  }

  lemma LastGroupHolds(s: Source, cm: ConfigMap, url: string, i: nat, key: string, value: string)
    requires i < 6 && ListedLast(s, cm, i, key)
    requires Groups(s, cm, url)[i] == PutListed(cm, Asking(s.service, i), value)
    ensures Lookup(DataAfter(s, cm, url), key) == value
  {
    var groups := Groups(s, cm, url);
    var front, back := Flat(groups[..i]), Flat(groups[i + 1..]);
    GroupsAreTheWrites(s, cm, url);
    FlatSplit(groups, i);
    ListedTouches(cm, Asking(s.service, i), value, key);
    hide Groups, Flat, AppliedAll, PutListed, AllWrites, Listed, Asking;
    var later := groups[i + 1..];
    forall j, a | 0 <= j < |later| && a in later[j]
      ensures !Touches(a, key)
    {
      assert later[j] == groups[i + 1 + j];
      GroupsAreListed(s, cm, url, i + 1 + j, key);
    }
    FlatTouches(later, key);
    MiddleHolds(cm.data, front, groups[i], back, key, value);
  }

  // ---- Entry by entry ------------------------------------------------------

  /** For any URL that reaches the map: the plain annotation takes a slash off its end, the
      full one puts one there, the one without protocol takes off the slash and the protocol,
      the full one without protocol the protocol but not the slash; each of them works on
      what those before it left, and the next map gets what the last one left. The entry
      without path is what parsing the URL gives, and the protocol is the configured one. */
  lemma EntriesOfAnyUrl(s: Source, cm: ConfigMap, url: string, key: string)
    ensures var data := DataAfter(s, cm, url);
      var plain := if Lists(s, cm, 0) then TrimSuffix(url, "/") else url;
      var full := if Lists(s, cm, 1) && !HasSuffix(plain, "/") then plain + "/" else plain;
      var bare := if Lists(s, cm, 3) then TrimPrefix(TrimPrefix(TrimSuffix(full, "/"), "http://"), "https://") else full;
      var slashed := if HasSuffix(bare, "/") then bare else bare + "/";
      var next := if Lists(s, cm, 4) then TrimPrefix(TrimPrefix(slashed, "http://"), "https://") else bare;
      && (ListedLast(s, cm, 0, key) ==> Lookup(data, key) == plain)
      && (ListedLast(s, cm, 1, key) ==> Lookup(data, key) == full)
      && (ListedLast(s, cm, 2, key) && s.noPath(full).Some? ==> Lookup(data, key) == s.noPath(full).value)
      && (ListedLast(s, cm, 3, key) ==> Lookup(data, key) == bare)
      && (ListedLast(s, cm, 4, key) ==> Lookup(data, key) == next)
      && (ListedLast(s, cm, 5, key) ==> Lookup(data, key) == if s.http then "http" else "https")
      && UrlAfter(s, cm, url) == next
  {
    UrlsAre(s, cm, url);
    hide DataAfter, PutListed, UrlPlain, UrlFull, UrlNoProtocol, UrlAfter, TrimSuffix, HasSuffix, TrimPrefix, ListedLast;
    NamesAre(s);
    hide PlainKey, FullKey, NoPathKey, NoProtocolKey, FullNoProtocolKey, ProtocolKey;
    hide Asking, Lists;
    if ListedLast(s, cm, 0, key) {
      LastGroupHolds(s, cm, url, 0, key, UrlPlain(s, cm, url));
    }
    if ListedLast(s, cm, 1, key) {
      LastGroupHolds(s, cm, url, 1, key, UrlFull(s, cm, url));
    }
    if ListedLast(s, cm, 2, key) && s.noPath(UrlFull(s, cm, url)).Some? {
      LastGroupHolds(s, cm, url, 2, key, s.noPath(UrlFull(s, cm, url)).value);
    }
    if ListedLast(s, cm, 3, key) {
      LastGroupHolds(s, cm, url, 3, key, UrlNoProtocol(s, cm, url));
    }
    if ListedLast(s, cm, 4, key) {
      LastGroupHolds(s, cm, url, 4, key, UrlAfter(s, cm, url));
    }
    if ListedLast(s, cm, 5, key) {
      LastGroupHolds(s, cm, url, 5, key, if s.http then "http" else "https");
    }
  }

  lemma UrlsAre(s: Source, cm: ConfigMap, url: string)
    ensures var plain := if Lists(s, cm, 0) then TrimSuffix(url, "/") else url;
      var full := if Lists(s, cm, 1) && !HasSuffix(plain, "/") then plain + "/" else plain;
      var bare := if Lists(s, cm, 3) then TrimPrefix(TrimPrefix(TrimSuffix(full, "/"), "http://"), "https://") else full;
      var slashed := if HasSuffix(bare, "/") then bare else bare + "/";
      var next := if Lists(s, cm, 4) then TrimPrefix(TrimPrefix(slashed, "http://"), "https://") else bare;
      && UrlPlain(s, cm, url) == plain && UrlFull(s, cm, url) == full
      && UrlNoProtocol(s, cm, url) == bare && UrlAfter(s, cm, url) == next
  {
    hide TrimSuffix, HasSuffix, TrimPrefix;
  }

  /** An entry that no annotation lists stays, absent or present. */
  lemma UnlistedEntriesStay(s: Source, cm: ConfigMap, url: string, key: string)
    requires forall i | 0 <= i < 6 :: key !in Listed(cm, Asking(s.service, i))
    ensures var data := DataAfter(s, cm, url); (key in data <==> key in cm.data) && Lookup(data, key) == Lookup(cm.data, key)
  {
    var groups := Groups(s, cm, url);
    GroupsAreTheWrites(s, cm, url);
    hide Groups, Flat, AppliedAll, AllWrites, Listed, Asking;
    forall j, a | 0 <= j < |groups| && a in groups[j]
      ensures !Touches(a, key)
    {
      GroupsAreListed(s, cm, url, j, key);
    }
    FlatTouches(groups, key);
    UntouchedStays(cm.data, Flat(groups), key);
  }

  // ---- The URL of a service ------------------------------------------------

  /** A host and a path, without a slash at the end and without a protocol of its own. */
  predicate IsAddress(address: string) {
    address != "" && address[|address| - 1] != '/' && !HasProtocol(address + "/")
  }

  lemma SchemeComesOff(scheme: string, address: string)
    requires scheme in {"http", "https"} && !HasProtocol(address)
    ensures TrimPrefix(TrimPrefix(scheme + "://" + address, "http://"), "https://") == address
  {
    var url := scheme + "://" + address;
    if scheme == "http" {
      assert url[..7] == "http://" && url[7..] == address;
    } else {
      assert url[..8] == "https://" && url[8..] == address;
      assert url[4] == 's' && "http://"[4] == ':';
    }
  }

  lemma SlashComesAndGoes(scheme: string, address: string)
    requires IsAddress(address)
    ensures var core := scheme + "://" + address;
      && TrimSuffix(core, "/") == core && TrimSuffix(core + "/", "/") == core
      && !HasSuffix(core, "/") && HasSuffix(core + "/", "/")
    ensures TrimSuffix(address, "/") == address && !HasSuffix(address, "/") && HasSuffix(address + "/", "/")
  {
    var core := scheme + "://" + address;
    assert core[|core| - 1] == address[|address| - 1];
    assert (core + "/")[|core|..] == "/" && (core + "/")[..|core|] == core;
    assert (address + "/")[|address|..] == "/";
    assert core[|core| - 1..] != "/" && address[|address| - 1..] != "/" by {
      assert core[|core| - 1..][0] == core[|core| - 1] && address[|address| - 1..][0] == address[|address| - 1];
    }
  }

  lemma PrefixStays(text: string, prefix: string)
    ensures HasPrefix(text, prefix) ==> HasPrefix(text + "/", prefix)
  {
  }

  lemma NoProtocolWithoutSlash(address: string)
    requires IsAddress(address)
    ensures !HasProtocol(address)
  {
    PrefixStays(address, "http://");
    PrefixStays(address, "https://");
  }

  /** For the URL of a service, with or without a slash at its end, and whatever else the map
      asks for: the plain entry has no slash at its end and the full one has one, with the
      protocol or without it as their names say. */
  lemma EntriesOfAServiceUrl(s: Source, cm: ConfigMap, scheme: string, address: string, url: string, key: string)
    requires scheme in {"http", "https"} && IsAddress(address)
    requires url == scheme + "://" + address || url == scheme + "://" + address + "/"
    ensures var data := DataAfter(s, cm, url);
      && (ListedLast(s, cm, 0, key) ==> Lookup(data, key) == scheme + "://" + address)
      && (ListedLast(s, cm, 1, key) ==> Lookup(data, key) == scheme + "://" + address + "/")
      && (ListedLast(s, cm, 3, key) ==> Lookup(data, key) == address)
      && (ListedLast(s, cm, 4, key) ==> Lookup(data, key) == address + "/")
    ensures Lists(s, cm, 4) ==> UrlAfter(s, cm, url) == address + "/"
    ensures Lists(s, cm, 3) && !Lists(s, cm, 4) ==> UrlAfter(s, cm, url) == address
  {
    EntriesOfAnyUrl(s, cm, url, key);
    FormsOfAServiceUrl(scheme, address, url, Lists(s, cm, 0), Lists(s, cm, 1), Lists(s, cm, 3), Lists(s, cm, 4));
    hide DataAfter, UrlAfter, TrimSuffix, HasSuffix, TrimPrefix, IsAddress, HasProtocol, Asking;
    forall i | 0 <= i < 6 && ListedLast(s, cm, i, key)
      ensures Lists(s, cm, i)
    {
    }
    hide ListedLast, Lists;
  }

  lemma FormsOfAServiceUrl(
    scheme: string, address: string, url: string, toPlain: bool, toFull: bool, toBare: bool, toFullBare: bool)
    requires scheme in {"http", "https"} && IsAddress(address)
    requires url == scheme + "://" + address || url == scheme + "://" + address + "/"
    ensures var plain := if toPlain then TrimSuffix(url, "/") else url;
      var full := if toFull && !HasSuffix(plain, "/") then plain + "/" else plain;
      var bare := if toBare then TrimPrefix(TrimPrefix(TrimSuffix(full, "/"), "http://"), "https://") else full;
      var slashed := if HasSuffix(bare, "/") then bare else bare + "/";
      && (toPlain ==> plain == scheme + "://" + address) && (toFull ==> full == scheme + "://" + address + "/")
      && (toBare ==> bare == address)
      && TrimPrefix(TrimPrefix(slashed, "http://"), "https://") == address + "/"
  {
    NoProtocolWithoutSlash(address);
    SlashComesAndGoes(scheme, address);
    SchemeComesOff(scheme, address);
    SchemeComesOff(scheme, address + "/");
    TrimSlashed(address);
    assert scheme + "://" + (address + "/") == scheme + "://" + address + "/";
    hide TrimSuffix, HasSuffix, TrimPrefix, IsAddress, HasProtocol;
  }

  lemma TrimSlashed(address: string)
    requires IsAddress(address)
    ensures TrimPrefix(TrimPrefix(address + "/", "http://"), "https://") == address + "/"
  {
  }
}
