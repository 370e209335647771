/** The token of a config map: its sorted "key=value" entries, joined by semicolons. */
module Tokens {
  import opened Text
  import opened Objects

  // ---- Sorting -------------------------------------------------------------

  /** The byte order of `sort.Strings`. */
  predicate AtMost(a: string, b: string) {
    a == "" || (b != "" && (a[0] < b[0] || (a[0] == b[0] && AtMost(a[1..], b[1..]))))
  }

  lemma {:induction false} AtMostTotal(a: string, b: string)
    ensures AtMost(a, b) || AtMost(b, a)
    ensures AtMost(a, b) && AtMost(b, a) ==> a == b
  {
    if a != "" && b != "" && a[0] == b[0] {
      AtMostTotal(a[1..], b[1..]);
      assert a == [a[0]] + a[1..] && b == [b[0]] + b[1..];
    }
  }

  lemma {:induction false} AtMostTransitive(a: string, b: string, c: string)
    requires AtMost(a, b) && AtMost(b, c)
    ensures AtMost(a, c)
  {
    if a != "" && a[0] == b[0] == c[0] {
      AtMostTransitive(a[1..], b[1..], c[1..]);
    }
  }

  /** The texts agree up to this place, where the first one has the smaller character. */
  predicate SmallerAt(a: string, b: string, i: nat) {
    i < |a| && i < |b| && a[..i] == b[..i] && a[i] < b[i]
  }

  lemma SmallerOneLater(a: string, b: string, i: nat)
    requires a != "" && b != "" && a[0] == b[0]
    ensures SmallerAt(a[1..], b[1..], i) <==> SmallerAt(a, b, i + 1)
  {
    if i + 1 < |a| && i + 1 < |b| {
      assert a[..i + 1] == [a[0]] + a[1..][..i] && b[..i + 1] == [b[0]] + b[1..][..i];
      assert a[..i + 1][1..] == a[1..][..i] && b[..i + 1][1..] == b[1..][..i];
    }
  }

  /** The order: a text comes before those that it starts, and otherwise the first character
      in which two texts differ decides. */
  lemma {:induction false} FirstDifferenceDecides(a: string, b: string)
    ensures AtMost(a, b) <==> HasPrefix(b, a) || exists i: nat :: SmallerAt(a, b, i)
  {
    if a != "" && b != "" && a[0] == b[0] {
      var c, d := a[1..], b[1..];
      FirstDifferenceDecides(c, d);
      assert a == [a[0]] + c && b == [b[0]] + d;
      assert !SmallerAt(a, b, 0);
      forall i: nat {
        SmallerOneLater(a, b, i);
      }
      if i: nat :| SmallerAt(a, b, i) {
        assert SmallerAt(c, d, i - 1);
      }
    } else if a != "" && b != "" {
      assert a[0] < b[0] ==> SmallerAt(a, b, 0);
    }
  }

  function Insert(x: string, sorted: seq<string>): seq<string> {
    if sorted == [] || AtMost(x, sorted[0]) then [x] + sorted
    else [sorted[0]] + Insert(x, sorted[1..])
  }

  function Sorted(xs: seq<string>): seq<string> {
    if xs == [] then [] else Insert(xs[0], Sorted(xs[1..]))
  }

  ghost predicate InOrder(xs: seq<string>) {
    forall i, j | 0 <= i < j < |xs| :: AtMost(xs[i], xs[j])
  }

  lemma {:induction false} InsertMembers(x: string, xs: seq<string>)
    ensures multiset(Insert(x, xs)) == multiset{x} + multiset(xs)
  {
    if !(xs == [] || AtMost(x, xs[0])) {
      InsertMembers(x, xs[1..]);
      assert xs == [xs[0]] + xs[1..];
    }
  }

  lemma {:induction false} InsertInOrder(x: string, xs: seq<string>)
    requires InOrder(xs)
    ensures InOrder(Insert(x, xs))
  {
    if xs == [] {
    } else if AtMost(x, xs[0]) {
      forall j | 0 <= j < |xs| ensures AtMost(x, xs[j]) {
        if j > 0 {
          AtMostTransitive(x, xs[0], xs[j]);
        }
      }
    } else {
      InsertInOrder(x, xs[1..]);
      AtMostTotal(x, xs[0]);
      var rest := Insert(x, xs[1..]);
      InsertMembers(x, xs[1..]);
      forall j | 0 <= j < |rest| ensures AtMost(xs[0], rest[j]) {
        assert rest[j] in multiset(rest);
        assert rest[j] == x || rest[j] in xs[1..];
      }
    }
  }

  /** `Sorted` sorts: an ordered permutation. */
  lemma {:induction false} SortedSorts(xs: seq<string>)
    ensures InOrder(Sorted(xs)) && multiset(Sorted(xs)) == multiset(xs)
  {
    if xs != [] {
      SortedSorts(xs[1..]);
      InsertInOrder(xs[0], Sorted(xs[1..]));
      InsertMembers(xs[0], Sorted(xs[1..]));
      assert xs == [xs[0]] + xs[1..];
    }
  }

  lemma {:induction false} InsertsCommute(x: string, y: string, xs: seq<string>)
    ensures Insert(x, Insert(y, xs)) == Insert(y, Insert(x, xs))
  {
    AtMostTotal(x, y);
    if xs == [] {
    } else {
      var head := xs[0];
      AtMostTotal(x, head);
      AtMostTotal(y, head);
      if AtMost(x, y) && AtMost(y, head) {
        AtMostTransitive(x, y, head);
      }
      if AtMost(y, x) && AtMost(x, head) {
        AtMostTransitive(y, x, head);
      }
      if AtMost(x, head) && !AtMost(y, head) && AtMost(y, x) {
        AtMostTransitive(y, x, head);
      }
      if AtMost(y, head) && !AtMost(x, head) && AtMost(x, y) {
        AtMostTransitive(x, y, head);
      }
      InsertsCommute(x, y, xs[1..]);
    }
  }

  /** Appending an entry before sorting is inserting it afterwards. */
  lemma {:induction false} SortedAppend(xs: seq<string>, x: string)
    ensures Sorted(xs + [x]) == Insert(x, Sorted(xs))
  {
    if xs == [] {
      assert xs + [x] == [x];
    } else {
      assert (xs + [x])[1..] == xs[1..] + [x];
      SortedAppend(xs[1..], x);
      InsertsCommute(xs[0], x, Sorted(xs[1..]));
    }
  }

  // ---- The token -----------------------------------------------------------

  function Entry(data: Dict, key: string): string
    requires key in data
  {
    key + "=" + data[key]
  }

  /** The sorted entries of some of the keys. */
  ghost function SortedEntries(data: Dict, keys: set<string>): seq<string>
    requires keys <= data.Keys
  {
    if keys == {} then []
    else
      var key :| key in keys;
      Insert(Entry(data, key), SortedEntries(data, keys - {key}))
  }

  /** It does not matter which key is inserted last. */
  lemma {:induction false} AnyKeyLast(data: Dict, keys: set<string>, key: string)
    requires keys <= data.Keys && key in keys
    ensures SortedEntries(data, keys) == Insert(Entry(data, key), SortedEntries(data, keys - {key}))
    decreases keys
  {
    var picked :| picked in keys && SortedEntries(data, keys) == Insert(Entry(data, picked), SortedEntries(data, keys - {picked}));
    if picked != key {
      AnyKeyLast(data, keys - {picked}, key);
      AnyKeyLast(data, keys - {key}, picked);
      assert keys - {picked} - {key} == keys - {key} - {picked};
      InsertsCommute(Entry(data, picked), Entry(data, key), SortedEntries(data, keys - {key} - {picked}));
    }
  }

  ghost function Token(data: Dict): string {
    Join(SortedEntries(data, data.Keys), ';')
  }

  /** convertConfigMapToToken: whatever order the map is iterated in, the token is the same. */
  method ConvertConfigMapToToken(data: Dict) returns (token: string)
    ensures token == Token(data)
  {
    var values: seq<string> := [];
    var rest := data.Keys;
    while rest != {}
      invariant rest <= data.Keys
      invariant Sorted(values) == SortedEntries(data, data.Keys - rest)
      decreases rest
    {
      var key :| key in rest;
      var value := key + "=" + data[key];
      SortedAppend(values, value);
      AnyKeyLast(data, data.Keys - (rest - {key}), key);
      assert data.Keys - (rest - {key}) - {key} == data.Keys - rest;
      values := values + [value];
      rest := rest - {key};
    }
    assert data.Keys - {} == data.Keys;
    token := Join(Sorted(values), ';');
  }

  lemma {:induction false} SortedEntriesForm(data: Dict, keys: set<string>)
    requires keys <= data.Keys
    ensures InOrder(SortedEntries(data, keys)) && |SortedEntries(data, keys)| == |keys|
    decreases keys
  {
    if keys != {} {
      var key :| key in keys && SortedEntries(data, keys) == Insert(Entry(data, key), SortedEntries(data, keys - {key}));
      SortedEntriesForm(data, keys - {key});
      InsertInOrder(Entry(data, key), SortedEntries(data, keys - {key}));
      InsertMembers(Entry(data, key), SortedEntries(data, keys - {key}));
      assert |multiset(SortedEntries(data, keys))| == |keys|;
    }
  }

  /** The token reads: one "key=value" for every entry of the data, in order, with
      semicolons between them. */
  lemma TokenReads(data: Dict) returns (entries: seq<string>)
    ensures Token(data) == Join(entries, ';') && InOrder(entries) && |entries| == |data.Keys|
    ensures forall e :: e in entries <==> exists key | key in data :: e == key + "=" + data[key]
  {
    entries := SortedEntries(data, data.Keys);
    SortedEntriesForm(data, data.Keys);
    EntriesAreTheEntries(data, data.Keys);
    hide SortedEntries, InOrder;
  }

  /** Any list of the entries, in any order, gives the token. */
  lemma {:induction false} TokenIgnoresOrder(data: Dict, keys: seq<string>)
    requires forall i, j | 0 <= i < j < |keys| :: keys[i] != keys[j]
    requires forall key | key in keys :: key in data
    ensures Sorted(seq(|keys|, i requires 0 <= i < |keys| => Entry(data, keys[i])))
         == SortedEntries(data, set key | key in keys)
  {
    var entries := seq(|keys|, i requires 0 <= i < |keys| => Entry(data, keys[i]));
    if keys != [] {
      var front := keys[1..];
      TokenIgnoresOrder(data, front);
      assert entries[1..] == seq(|front|, i requires 0 <= i < |front| => Entry(data, front[i]));
      assert (set key | key in keys) - {keys[0]} == (set key | key in front);
      AnyKeyLast(data, (set key | key in keys), keys[0]);
    }
  }

  // ---- Injectivity ---------------------------------------------------------

  lemma {:induction false} EntriesAreTheEntries(data: Dict, keys: set<string>)
    requires keys <= data.Keys
    ensures forall e :: e in SortedEntries(data, keys) <==> exists key | key in keys :: e == Entry(data, key)
    decreases keys
  {
    if keys != {} {
      var key :| key in keys && SortedEntries(data, keys) == Insert(Entry(data, key), SortedEntries(data, keys - {key}));
      EntriesAreTheEntries(data, keys - {key});
      InsertMembers(Entry(data, key), SortedEntries(data, keys - {key}));
      forall e
        ensures e in SortedEntries(data, keys) <==> e == Entry(data, key) || e in SortedEntries(data, keys - {key})
      {
        assert e in SortedEntries(data, keys) <==> e in multiset(SortedEntries(data, keys));
      }
    }
  }

  /** The server's rule for keys: whatever it is, a legal key has no '=' and no ';', and
      stays legal with a suffix. */
  type KeyRule = string -> bool

  ghost predicate Sane(legal: KeyRule) {
    forall key | legal(key) :: '=' !in key && ';' !in key && legal(key + "-0")
  }

  /** No ';' of the value is followed by a legal key and a '='. */
  predicate Safe(legal: KeyRule, value: string) {
    forall i, j | 0 <= i < j < |value| && value[i] == ';' && value[j] == '=' :: !legal(value[i + 1..j])
  }

  predicate LegalKeys(legal: KeyRule, data: Dict) {
    forall key | key in data :: legal(key)
  }

  predicate SafeValues(legal: KeyRule, data: Dict) {
    forall key | key in data :: Safe(legal, data[key])
  }

  /** The weakest sane rule. */
  predicate Free(key: string) {
    '=' !in key && ';' !in key
  }

  /** Under that rule a value is safe when no '=' comes behind a ';'. */
  lemma SafeWhenKeysAreFree(value: string)
    ensures Sane(Free)
    ensures Safe(Free, value) <==> forall i, j | 0 <= i < j < |value| :: value[i] == ';' ==> value[j] != '='
  {
    if i, j :| 0 <= i < j < |value| && value[i] == ';' && value[j] == '=' {
      var p, q := Tightest(value, i, j);
      assert !Safe(Free, value);
    }
  }

  lemma Tightest(value: string, i: nat, j: nat) returns (p: nat, q: nat)
    requires i < j < |value| && value[i] == ';' && value[j] == '='
    ensures p < q < |value| && value[p] == ';' && value[q] == '=' && Free(value[p + 1..q])
    decreases j - i
  {
    if k :| i < k < j && value[k] == ';' {
      p, q := Tightest(value, k, j);
    } else if k :| i < k < j && value[k] == '=' {
      p, q := Tightest(value, i, k);
    } else {
      p, q := i, j;
    }
  }

  /** An entry with a legal key in front of the '=' at `i`. */
  predicate IsEntry(legal: KeyRule, e: string, i: nat) {
    i < |e| && e[i] == '=' && legal(e[..i])
  }

  predicate IsSafeEntry(legal: KeyRule, e: string, i: nat) {
    IsEntry(legal, e, i) && Safe(legal, e[i + 1..])
  }

  ghost predicate HasKey(legal: KeyRule, e: string) {
    exists i: nat :: IsEntry(legal, e, i)
  }

  ghost predicate HasSafeValue(legal: KeyRule, e: string) {
    exists i: nat :: IsSafeEntry(legal, e, i)
  }

  ghost predicate Entries(legal: KeyRule, es: seq<string>) {
    forall e | e in es :: HasKey(legal, e)
  }

  ghost predicate SafeEntries(legal: KeyRule, es: seq<string>) {
    forall e | e in es :: HasSafeValue(legal, e)
  }

  lemma KeyEndsAtFirst(legal: KeyRule, e: string, i: nat)
    requires Sane(legal) && IsEntry(legal, e, i)
    ensures forall k | 0 <= k < i :: e[k] != '=' && e[k] != ';'
  {
    assert forall k | 0 <= k < i :: e[k] in e[..i];
  }

  /** A join starts with its first entry, and has a semicolon behind it if there are more. */
  lemma JoinStart(es: seq<string>)
    requires es != []
    ensures var s := Join(es, ';');
      && es[0] <= s
      && (|es| == 1 ==> s == es[0])
      && (|es| > 1 ==> |s| > |es[0]| && s[|es[0]|] == ';' && s[|es[0]| + 1..] == Join(es[1..], ';'))
  {
  }

  lemma UnsafeEntry(legal: KeyRule, e: string, i: nat, a: nat, b: nat)
    requires i < a < b < |e| && e[a] == ';' && e[b] == '=' && legal(e[a + 1..b])
    ensures !Safe(legal, e[i + 1..])
  {
    var v := e[i + 1..];
    assert v[a - i - 1] == ';' && v[b - i - 1] == '=' && v[a - i..b - i - 1] == e[a + 1..b];
  }

  /** No safe entry that ends at a semicolon or at the end can reach beyond the first
      semicolon behind another entry: it would have to swallow the next key. */
  lemma NoSwallowing(legal: KeyRule, e: string, i: nat, t: string, p: nat, f: string, j: nat)
    requires Sane(legal) && IsEntry(legal, e, i) && IsEntry(legal, t, p) && IsSafeEntry(legal, f, j)
    requires var s := e + ";" + t; f <= s && (|f| == |s| || s[|f|] == ';')
    ensures |f| <= |e|
  {
    hide Safe;
    var s := e + ";" + t;
    KeyEndsAtFirst(legal, e, i);
    KeyEndsAtFirst(legal, f, j);
    KeyEndsAtFirst(legal, t, p);
    if |e| < |f| {
      var q := |e| + 1 + p;
      assert s[q] == t[p];
      assert e == f[..|e|];
      assert i == j;
      if q < |f| {
        assert f[|e| + 1..q] == t[..p];
        UnsafeEntry(legal, f, j, |e|, q);
      }
    }
  }

  /** In a join of entries a safe entry that ends at the end or at a semicolon is not longer
      than the first one. */
  lemma FirstIsLongest(legal: KeyRule, es: seq<string>, f: string, j: nat)
    requires Sane(legal) && Entries(legal, es) && |es| > 1 && IsSafeEntry(legal, f, j)
    requires var s := Join(es, ';'); f <= s && (|f| == |s| || s[|f|] == ';')
    ensures |f| <= |es[0]|
  {
    var t := Join(es[1..], ';');
    JoinStart(es);
    JoinStart(es[1..]);
    assert HasKey(legal, es[0]) && HasKey(legal, es[1]);
    var i: nat :| IsEntry(legal, es[0], i);
    var p: nat :| IsEntry(legal, es[1], p);
    hide Join, Sane, IsSafeEntry, Entries;
    assert es[1] <= t;
    assert IsEntry(legal, t, p) by { assert t[..p] == es[1][..p]; }
    assert Join(es, ';') == es[0] + ";" + t;
    NoSwallowing(legal, es[0], i, t, p, f, j);
  }

  /** Two joins of safe entries with the same text start with the same entry. */
  lemma FirstsAgree(legal: KeyRule, es: seq<string>, fs: seq<string>)
    requires Sane(legal) && SafeEntries(legal, es) && SafeEntries(legal, fs)
    requires es != [] && fs != [] && Join(es, ';') == Join(fs, ';')
    ensures es[0] == fs[0] && (|es| == 1 <==> |fs| == 1)
    ensures Join(es[1..], ';') == Join(fs[1..], ';')
  {
    JoinStart(es);
    JoinStart(fs);
    SafeEntriesAreEntries(legal, es);
    SafeEntriesAreEntries(legal, fs);
    assert HasSafeValue(legal, es[0]) && HasSafeValue(legal, fs[0]);
    var i: nat :| IsSafeEntry(legal, es[0], i);
    var j: nat :| IsSafeEntry(legal, fs[0], j);
    assert |es| == 1 ==> es[1..] == [];
    assert |fs| == 1 ==> fs[1..] == [];
    hide Sane, IsSafeEntry, Entries, SafeEntries;
    assert Join([], ';') == "";
    hide Join;
    if |es| > 1 {
      FirstIsLongest(legal, es, fs[0], j);
    }
    if |fs| > 1 {
      FirstIsLongest(legal, fs, es[0], i);
    }
  }

  lemma JoinNotEmpty(legal: KeyRule, es: seq<string>)
    requires SafeEntries(legal, es) && es != []
    ensures Join(es, ';') != ""
  {
    JoinStart(es);
    assert HasSafeValue(legal, es[0]);
  }

  /** A text is the join of safe entries in one way only. */
  lemma {:induction false} JoinsAgree(legal: KeyRule, es: seq<string>, fs: seq<string>)
    requires Sane(legal) && SafeEntries(legal, es) && SafeEntries(legal, fs)
    requires Join(es, ';') == Join(fs, ';')
    ensures es == fs
    decreases |es|
  {
    hide HasSafeValue, Sane;
    if es != [] && fs != [] {
      FirstsAgree(legal, es, fs);
      JoinsAgree(legal, es[1..], fs[1..]);
      assert es == [es[0]] + es[1..] && fs == [fs[0]] + fs[1..];
    } else if es != [] {
      JoinNotEmpty(legal, es);
    } else if fs != [] {
      JoinNotEmpty(legal, fs);
    }
  }

  lemma SafeEntriesAreEntries(legal: KeyRule, es: seq<string>)
    requires SafeEntries(legal, es)
    ensures Entries(legal, es)
  {
    forall e | e in es
      ensures HasKey(legal, e)
    {
      assert HasSafeValue(legal, e);
      var i: nat :| IsSafeEntry(legal, e, i);
      assert IsEntry(legal, e, i);
    }
  }

  /** What the entries of a map look like. */
  lemma MapEntries(legal: KeyRule, data: Dict)
    requires LegalKeys(legal, data)
    ensures Entries(legal, SortedEntries(data, data.Keys))
    ensures SafeValues(legal, data) ==> SafeEntries(legal, SortedEntries(data, data.Keys))
  {
    var es := SortedEntries(data, data.Keys);
    EntriesAreTheEntries(data, data.Keys);
    forall e | e in es
      ensures HasKey(legal, e) && (SafeValues(legal, data) ==> HasSafeValue(legal, e))
    {
      var key :| key in data && e == Entry(data, key);
      assert e[..|key|] == key && e[|key| + 1..] == data[key];
      assert IsEntry(legal, e, |key|);
      assert SafeValues(legal, data) ==> IsSafeEntry(legal, e, |key|);
    }
  }

  lemma SameEntriesSameData(legal: KeyRule, a: Dict, b: Dict)
    requires Sane(legal) && LegalKeys(legal, a) && LegalKeys(legal, b)
    requires SortedEntries(a, a.Keys) == SortedEntries(b, b.Keys)
    ensures forall key | key in a :: key in b && a[key] == b[key]
  {
    EntriesAreTheEntries(a, a.Keys);
    EntriesAreTheEntries(b, b.Keys);
    forall key | key in a
      ensures key in b && a[key] == b[key]
    {
      assert Entry(a, key) in SortedEntries(b, b.Keys);
      var key' :| key' in b && Entry(a, key) == Entry(b, key');
      FirstSeparatorUnique(key, a[key], key', b[key'], '=');
    }
  }

  lemma SameEntriesEqualData(legal: KeyRule, a: Dict, b: Dict)
    requires Sane(legal) && LegalKeys(legal, a) && LegalKeys(legal, b)
    requires SortedEntries(a, a.Keys) == SortedEntries(b, b.Keys)
    ensures a == b
  {
    SameEntriesSameData(legal, a, b);
    SameEntriesSameData(legal, b, a);
    assert a.Keys == b.Keys;
  }

  /** For maps with legal keys and safe values, equal tokens mean equal data, and only those. */
  lemma TokenIsInjective(legal: KeyRule, a: Dict, b: Dict)
    requires Sane(legal) && LegalKeys(legal, a) && LegalKeys(legal, b)
    requires SafeValues(legal, a) && SafeValues(legal, b)
    ensures Token(a) == Token(b) <==> a == b
  {
    MapEntries(legal, a);
    MapEntries(legal, b);
    if Token(a) == Token(b) {
      JoinsAgree(legal, SortedEntries(a, a.Keys), SortedEntries(b, b.Keys));
      SameEntriesEqualData(legal, a, b);
    }
  }

  // ---- Exactly when a value is ambiguous -----------------------------------

  lemma OneEntry(key: string, value: string)
    ensures var data := map[key := value];
            SortedEntries(data, data.Keys) == [key + "=" + value] && Token(data) == key + "=" + value
  {
    var data := map[key := value];
    AnyKeyLast(data, data.Keys, key);
    assert data.Keys - {key} == {};
    assert SortedEntries(data, {}) == [];
  }

  lemma {:induction false} AtMostBehind(front: string, a: string, b: string)
    requires AtMost(a, b)
    ensures AtMost(front + a, front + b)
  {
    if front == "" {
      assert front + a == a && front + b == b;
    } else {
      AtMostBehind(front[1..], a, b);
      assert (front + a)[1..] == front[1..] + a && (front + b)[1..] == front[1..] + b;
    }
  }

  lemma TwoEntries(k: string, x: string, l: string, y: string)
    requires k != l && AtMost(k + "=" + x, l + "=" + y)
    ensures Token(map[k := x, l := y]) == k + "=" + x + ";" + l + "=" + y
  {
    var data := map[k := x, l := y];
    var e, f := k + "=" + x, l + "=" + y;
    assert data.Keys == {k, l} && Entry(data, k) == e && Entry(data, l) == f;
    AnyKeyLast(data, data.Keys, k);
    assert data.Keys - {k} == {l};
    AnyKeyLast(data, {l}, l);
    assert {l} - {l} == {};
    assert SortedEntries(data, data.Keys) == [e, f];
    assert [e, f][1..] == [f];
    assert Join([e, f], ';') == e + [';'] + f;
    assert e + [';'] + f == k + "=" + x + ";" + l + "=" + y;
  }

  /** A ';' with a key and a '=' behind it: the rest of the value might as well be an entry
      of its own. The other key is legal whenever that one is. */
  lemma SplitValueCollides(x: string, m: string, y: string)
    ensures var key := m + "-0";
      var one, two := map[key := x + ";" + m + "=" + y], map[key := x, m := y];
      one != two && Token(one) == Token(two)
  {
    var key := m + "-0";
    var one, two := map[key := x + ";" + m + "=" + y], map[key := x, m := y];
    assert |key| == |m| + 2;
    assert m in two && m !in one;
    OneEntry(key, x + ";" + m + "=" + y);
    AtMostBehind(m, "-0=" + x, "=" + y);
    Rearrange(x, m, y);
    TwoEntries(key, x, m, y);
    hide Token;
  }

  lemma Rearrange(x: string, m: string, y: string)
    ensures m + ("-0=" + x) == m + "-0" + "=" + x && m + ("=" + y) == m + "=" + y
    ensures m + "-0" + "=" + (x + ";" + m + "=" + y) == m + "-0" + "=" + x + ";" + m + "=" + y
  {
  }

  /** No other map with legal keys shares the token of an entry with a safe value. */
  lemma SafeValueIsUnambiguous(legal: KeyRule, key: string, value: string, b: Dict)
    requires Sane(legal) && legal(key) && LegalKeys(legal, b) && Safe(legal, value)
    requires Token(b) == Token(map[key := value])
    ensures b == map[key := value]
  {
    var f, es := key + "=" + value, SortedEntries(b, b.Keys);
    OneEntry(key, value);
    MapEntries(legal, b);
    assert f[..|key|] == key && f[|key| + 1..] == value;
    assert IsSafeEntry(legal, f, |key|);
    if |es| > 1 {
      JoinStart(es);
      FirstIsLongest(legal, es, f, |key|);
    }
    assert es == [f];
    SameEntriesEqualData(legal, b, map[key := value]);
  }

  lemma UnsafeValueCollides(legal: KeyRule, value: string) returns (key: string, b: Dict)
    requires Sane(legal) && !Safe(legal, value)
    ensures legal(key) && LegalKeys(legal, b) && b != map[key := value] && Token(b) == Token(map[key := value])
  {
    var i, j :| 0 <= i < j < |value| && value[i] == ';' && value[j] == '=' && legal(value[i + 1..j]);
    var x, m, y := value[..i], value[i + 1..j], value[j + 1..];
    assert value == x + ";" + m + "=" + y;
    SplitValueCollides(x, m, y);
    key, b := m + "-0", map[m + "-0" := x, m := y];
    hide Token;
  }

  /** A value can be stored under every legal key without sharing its token with another
      map exactly when it is safe. */
  lemma TokenIsUnambiguousIffSafe(legal: KeyRule, value: string)
    requires Sane(legal)
    ensures (forall key: string, b: Dict | legal(key) && LegalKeys(legal, b) ::
               Token(b) == Token(map[key := value]) ==> b == map[key := value])
       <==> Safe(legal, value)
  {
    hide Token, Safe, Sane;
    if Safe(legal, value) {
      forall key: string, b: Dict | legal(key) && LegalKeys(legal, b) && Token(b) == Token(map[key := value])
        ensures b == map[key := value]
      {
        SafeValueIsUnambiguous(legal, key, value, b);
      }
    } else {
      var key, b := UnsafeValueCollides(legal, value);
      assert legal(key) && LegalKeys(legal, b);
    }
  }
}
