/** The line rewriter behind the config-yaml annotation: in one entry of a config map,
    every line that starts with a prefix is replaced by prefix, value and suffix. */
module Lines {
  import opened Text
  import opened Objects

  datatype ConfigYaml = ConfigYaml(key: string, expression: string, prefix: string, suffix: string)

  function RewriteLine(line: string, prefix: string, text: string): string {
    if HasPrefix(line, prefix) then text else line
  }

  /** Each line, rewritten, with a newline behind it. */
  function Written(lines: seq<string>, prefix: string, text: string): string {
    if lines == [] then "" else RewriteLine(lines[0], prefix, text) + ['\n'] + Written(lines[1..], prefix, text)
  }

  function Rewrite(value: string, prefix: string, text: string): string {
    Written(Split(value, '\n'), prefix, text)
  }

  /** What UpdateConfigMap writes in place of a matching line. */
  function Replacement(c: ConfigYaml, values: Dict): string {
    c.prefix + Lookup(values, c.expression) + c.suffix
  }

  /** Nothing happens without a key, a value for the expression, or an entry to edit. */
  predicate Applies(c: ConfigYaml, data: Dict, values: Dict) {
    c.key != "" && Lookup(values, c.expression) != "" && Lookup(data, c.key) != ""
  }

  function Updated(c: ConfigYaml, data: Dict, values: Dict): Dict {
    if Applies(c, data, values) then data[c.key := Rewrite(data[c.key], c.prefix, Replacement(c, values))] else data
  }

  /** ConfigYaml.UpdateConfigMap: whenever it gets as far as rewriting, it changes the
      entry and says so. */
  method UpdateConfigMap(c: ConfigYaml, data: Dict, values: Dict) returns (result: Dict, changed: bool)
    ensures result == Updated(c, data, values)
    ensures changed <==> Applies(c, data, values)
    ensures changed <==> result != data
  {
    var key := c.key;
    if key == "" {
      return data, false;
    }
    var expValue := Lookup(values, c.expression);
    if expValue == "" {
      return data, false;
    }
    var value := Lookup(data, key);
    if value == "" {
      return data, false;
    }
    var lines := Split(value, '\n');
    var buffer := "";
    for i := 0 to |lines|
      invariant buffer + Written(lines[i..], c.prefix, Replacement(c, values)) == Rewrite(value, c.prefix, Replacement(c, values))
    {
      ghost var before := buffer;
      ghost var rest := Written(lines[i + 1..], c.prefix, Replacement(c, values));
      assert lines[i..][0] == lines[i] && lines[i..][1..] == lines[i + 1..];
      var line := lines[i];
      if HasPrefix(line, c.prefix) {
        buffer := buffer + (c.prefix + expValue + c.suffix);
      } else {
        buffer := buffer + line;
      }
      buffer := buffer + "\n";
      Regroup(before, RewriteLine(line, c.prefix, Replacement(c, values)), rest);
    }
    assert lines[|lines|..] == [] && buffer + "" == buffer;
    RewriteAddsNewlines(value, c.prefix, Replacement(c, values));
    var newValue := buffer;
    if newValue != value {
      return data[key := newValue], true;
    }
    return data, false;
  }

  lemma Regroup(a: string, b: string, c: string)
    ensures (a + b + "\n") + c == a + (b + ['\n'] + c)
  {
  }

  // ---- Every pass makes the entry longer by a line -------------------------

  function Newlines(s: string): nat {
    if s == "" then 0 else (if s[0] == '\n' then 1 else 0) + Newlines(s[1..])
  }

  lemma {:induction false} NewlinesOfSum(a: string, b: string)
    ensures Newlines(a + b) == Newlines(a) + Newlines(b)
  {
    if a == "" {
      assert a + b == b;
    } else {
      assert (a + b)[1..] == a[1..] + b;
      NewlinesOfSum(a[1..], b);
    }
  }

  lemma {:induction false} SplitCountsNewlines(s: string)
    ensures |Split(s, '\n')| == Newlines(s) + 1
  {
    if s != "" {
      SplitCountsNewlines(s[1..]);
    }
  }

  lemma {:induction false} WrittenCountsLines(lines: seq<string>, prefix: string, text: string)
    ensures Newlines(Written(lines, prefix, text)) >= |lines|
  {
    if lines != [] {
      WrittenCountsLines(lines[1..], prefix, text);
      NewlinesOfSum(RewriteLine(lines[0], prefix, text) + ['\n'], Written(lines[1..], prefix, text));
      NewlinesOfSum(RewriteLine(lines[0], prefix, text), ['\n']);
    }
  }

  /** Whatever the prefix, the value and the suffix, a rewrite has more newlines than the
      text it started from: it is never the same text. */
  lemma RewriteAddsNewlines(value: string, prefix: string, text: string)
    ensures Newlines(Rewrite(value, prefix, text)) > Newlines(value)
    ensures Rewrite(value, prefix, text) != value
  {
    SplitCountsNewlines(value);
    WrittenCountsLines(Split(value, '\n'), prefix, text);
  }

  // ---- Line by line --------------------------------------------------------

  function RewriteEach(lines: seq<string>, prefix: string, text: string): (r: seq<string>)
    ensures |r| == |lines|
    ensures forall i | 0 <= i < |lines| :: r[i] == RewriteLine(lines[i], prefix, text)
  {
    seq(|lines|, i requires 0 <= i < |lines| => RewriteLine(lines[i], prefix, text))
  }

  lemma {:induction false} SplitWritten(lines: seq<string>, prefix: string, text: string)
    requires '\n' !in text && forall line | line in lines :: '\n' !in line
    ensures Split(Written(lines, prefix, text), '\n') == RewriteEach(lines, prefix, text) + [""]
  {
    if lines == [] {
      assert RewriteEach(lines, prefix, text) + [""] == [""];
    } else {
      var rest := lines[1..];
      var head := RewriteLine(lines[0], prefix, text);
      assert lines[0] in lines;
      SplitWritten(rest, prefix, text);
      SplitHead(head, Written(rest, prefix, text), '\n');
      assert RewriteEach(lines, prefix, text) + [""] == [head] + (RewriteEach(rest, prefix, text) + [""]);
    }
  }

  /** The lines of the rewritten text are the old lines, each kept or replaced in its
      place, and an empty one behind them. */
  lemma LinesKeepTheirPlaces(value: string, prefix: string, text: string)
    requires '\n' !in text
    ensures Split(Rewrite(value, prefix, text), '\n') == RewriteEach(Split(value, '\n'), prefix, text) + [""]
  {
    SplitPartsAreFree(value, '\n');
    SplitWritten(Split(value, '\n'), prefix, text);
  }

  lemma {:induction false} WrittenAppend(lines: seq<string>, last: string, prefix: string, text: string)
    ensures Written(lines + [last], prefix, text) == Written(lines, prefix, text) + RewriteLine(last, prefix, text) + ['\n']
  {
    if lines == [] {
      assert lines + [last] == [last];
      assert Written([last][1..], prefix, text) == "";
    } else {
      assert (lines + [last])[1..] == lines[1..] + [last];
      WrittenAppend(lines[1..], last, prefix, text);
      var a := RewriteLine(lines[0], prefix, text) + ['\n'];
      var b := Written(lines[1..], prefix, text);
      var c := RewriteLine(last, prefix, text) + ['\n'];
      assert a + (b + c) == (a + b) + c;
      assert Written(lines[1..], prefix, text) + RewriteLine(last, prefix, text) + ['\n'] == b + c;
    }
  }

  lemma {:induction false} SameRewrites(a: seq<string>, b: seq<string>, prefix: string, text: string, prefix': string, text': string)
    requires |a| == |b|
    requires forall i | 0 <= i < |a| :: RewriteLine(a[i], prefix, text) == RewriteLine(b[i], prefix', text')
    ensures Written(a, prefix, text) == Written(b, prefix', text')
  {
    if a != [] {
      SameRewrites(a[1..], b[1..], prefix, text, prefix', text');
    }
  }

  lemma {:induction false} WrittenIsJoined(lines: seq<string>, prefix: string, text: string)
    requires lines != []
    ensures Written(lines, prefix, text) == Join(RewriteEach(lines, prefix, text), '\n') + "\n"
  {
    var each := RewriteEach(lines, prefix, text);
    if |lines| == 1 {
      assert lines[1..] == [] && Written([], prefix, text) == "";
    } else {
      WrittenIsJoined(lines[1..], prefix, text);
      assert each[1..] == RewriteEach(lines[1..], prefix, text);
      Associate(each[0] + "\n", Join(each[1..], '\n'), "\n");
    }
  }

  /** What a setting does: in its entry, if that is not empty and the expression has a value,
      every line that starts with the prefix becomes prefix, value and suffix, the others
      stay, and there is a newline behind the last one. All other entries stay. */
  lemma SettingRewritesItsEntry(c: ConfigYaml, data: Dict, values: Dict) returns (lines: seq<string>)
    ensures var old' := Split(Lookup(data, c.key), '\n');
      && |lines| == |old'|
      && forall i | 0 <= i < |lines| ::
           lines[i] == if HasPrefix(old'[i], c.prefix) then c.prefix + Lookup(values, c.expression) + c.suffix else old'[i]
    ensures Updated(c, data, values)
         == if c.key == "" || Lookup(data, c.key) == "" || Lookup(values, c.expression) == "" then data
            else data[c.key := Join(lines, '\n') + "\n"]
  {
    var old', text := Split(Lookup(data, c.key), '\n'), c.prefix + Lookup(values, c.expression) + c.suffix;
    lines := RewriteEach(old', c.prefix, text);
    WrittenIsJoined(old', c.prefix, text);
    hide Written, Split, Join;
  }

  // ---- Repeated passes -----------------------------------------------------

  function Passes(value: string, prefix: string, text: string, n: nat): string {
    if n == 0 then value else Rewrite(Passes(value, prefix, text, n - 1), prefix, text)
  }

  function BlankLines(n: nat): string {
    if n == 0 then "" else BlankLines(n - 1) + "\n"
  }

  /** A rewritten text is rewritten to itself and one more newline, exactly when the prefix
      is not empty; the empty prefix turns the blank line at the end into another copy. */
  lemma SecondPass(value: string, prefix: string, text: string)
    requires text != "" && HasPrefix(text, prefix) && '\n' !in text
    ensures var once := Rewrite(value, prefix, text);
            Rewrite(once, prefix, text) == once + "\n" <==> prefix != ""
  {
    var lines := Split(value, '\n');
    var once := RewriteEach(lines, prefix, text);
    LinesKeepTheirPlaces(value, prefix, text);
    WrittenAppend(once, "", prefix, text);
    SameRewrites(once, lines, prefix, text, prefix, text);
    var tail := RewriteLine("", prefix, text);
    assert |Rewrite(Rewrite(value, prefix, text), prefix, text)| == |Rewrite(value, prefix, text)| + |tail| + 1;
    assert prefix != "" ==> Written(once, prefix, text) + "" + ['\n'] == Rewrite(value, prefix, text) + "\n";
  }

  /** A newline at the end stays at the end. */
  lemma PassKeepsTheTail(value: string, prefix: string, text: string)
    requires prefix != ""
    ensures Rewrite(value + "\n", prefix, text) == Rewrite(value, prefix, text) + "\n"
  {
    SplitTail(value);
    WrittenAppend(Split(value, '\n'), "", prefix, text);
    assert Rewrite(value, prefix, text) + "" + ['\n'] == Rewrite(value, prefix, text) + "\n";
  }

  lemma {:induction false} SplitTail(s: string)
    ensures Split(s + "\n", '\n') == Split(s, '\n') + [""]
  {
    if s == "" {
      assert s + "\n" == "\n";
      assert "\n"[1..] == "";
    } else {
      assert (s + "\n")[1..] == s[1..] + "\n";
      SplitTail(s[1..]);
    }
  }

  /** `n` passes are one pass and `n - 1` newlines. */
  lemma {:induction false} PassesAddNewlines(value: string, prefix: string, text: string, n: nat)
    requires n >= 1 && text != ""
    requires prefix != "" && HasPrefix(text, prefix) && '\n' !in text
    ensures Passes(value, prefix, text, n) == Rewrite(value, prefix, text) + BlankLines(n - 1)
  {
    hide Rewrite;
    if n == 1 {
      assert Passes(value, prefix, text, 0) == value;
      assert Rewrite(value, prefix, text) + BlankLines(0) == Rewrite(value, prefix, text);
    } else {
      PassesAddNewlines(value, prefix, text, n - 1);
      TailOfBlankLines(Rewrite(value, prefix, text), prefix, text, n - 2);
      SecondPass(value, prefix, text);
      NewlineFirst(Rewrite(value, prefix, text), n - 2);
    }
  }

  lemma {:induction false} TailOfBlankLines(value: string, prefix: string, text: string, n: nat)
    requires prefix != ""
    ensures Rewrite(value + BlankLines(n), prefix, text) == Rewrite(value, prefix, text) + BlankLines(n)
  {
    hide Rewrite;
    if n == 0 {
      assert value + BlankLines(0) == value;
      assert Rewrite(value, prefix, text) + "" == Rewrite(value, prefix, text);
    } else {
      TailOfBlankLines(value, prefix, text, n - 1);
      assert value + BlankLines(n) == (value + BlankLines(n - 1)) + "\n";
      PassKeepsTheTail(value + BlankLines(n - 1), prefix, text);
    }
  }

  lemma {:induction false} NewlineFirst(s: string, n: nat)
    ensures s + "\n" + BlankLines(n) == s + BlankLines(n + 1)
  {
    if n > 0 {
      NewlineFirst(s, n - 1);
      assert s + "\n" + BlankLines(n) == (s + "\n" + BlankLines(n - 1)) + "\n";
    }
  }

  // ---- Two rewrites of one entry -------------------------------------------

  predicate Commute(value: string, p: string, t: string, q: string, u: string) {
    Rewrite(Rewrite(value, p, t), q, u) == Rewrite(Rewrite(value, q, u), p, t)
  }

  /** When the order of two rewrites does not matter: both prefixes are empty or neither is,
      and where one prefix starts the other and the text of that one matches both, the two
      texts are the same. */
  predicate Reconciled(p: string, t: string, q: string, u: string) {
    && (p == "" <==> q == "")
    && (HasPrefix(q, p) && HasPrefix(t, q) ==> t == u)
    && (HasPrefix(p, q) && HasPrefix(u, p) ==> t == u)
  }

  lemma PrefixesOfOneText(s: string, a: string, b: string)
    ensures HasPrefix(s, a) && HasPrefix(s, b) ==> HasPrefix(a, b) || HasPrefix(b, a)
  {
    if HasPrefix(s, a) && HasPrefix(s, b) {
      assert a == s[..|a|] && b == s[..|b|];
      assert if |a| <= |b| then a == b[..|a|] else b == a[..|b|];
    }
  }

  lemma PrefixOfPrefix(s: string, a: string, b: string)
    ensures HasPrefix(s, a) && HasPrefix(a, b) ==> HasPrefix(s, b)
  {
  }

  lemma LineRewritesCommute(line: string, p: string, t: string, q: string, u: string)
    requires HasPrefix(t, p) && HasPrefix(u, q) && Reconciled(p, t, q, u)
    ensures RewriteLine(RewriteLine(line, p, t), q, u) == RewriteLine(RewriteLine(line, q, u), p, t)
  {
    hide HasPrefix;
    PrefixesOfOneText(line, p, q);
    PrefixesOfOneText(t, p, q);
    PrefixesOfOneText(u, p, q);
    PrefixOfPrefix(line, p, q);
    PrefixOfPrefix(line, q, p);
    PrefixOfPrefix(t, p, q);
    PrefixOfPrefix(u, q, p);
  }

  /** Two rewrites in a row, on the lines. */
  lemma TwoRewrites(value: string, p: string, t: string, q: string, u: string)
    requires '\n' !in t && '\n' !in u
    ensures var lines := RewriteEach(Split(value, '\n'), p, t);
      && Rewrite(Rewrite(value, p, t), q, u) == Written(lines, q, u) + RewriteLine("", q, u) + ['\n']
      && Split(Rewrite(Rewrite(value, p, t), q, u), '\n') == RewriteEach(lines + [""], q, u) + [""]
  {
    var lines := RewriteEach(Split(value, '\n'), p, t);
    LinesKeepTheirPlaces(value, p, t);
    WrittenAppend(lines, "", q, u);
    LinesKeepTheirPlaces(Rewrite(value, p, t), q, u);
  }

  lemma ReconciledRewritesCommute(value: string, p: string, t: string, q: string, u: string)
    requires t != "" && u != "" && HasPrefix(t, p) && HasPrefix(u, q) && '\n' !in t && '\n' !in u
    requires Reconciled(p, t, q, u)
    ensures Commute(value, p, t, q, u)
  {
    TwoRewrites(value, p, t, q, u);
    TwoRewrites(value, q, u, p, t);
    var lines := Split(value, '\n');
    var a, b := RewriteEach(lines, p, t), RewriteEach(lines, q, u);
    forall i | 0 <= i < |lines| {
      LineRewritesCommute(lines[i], p, t, q, u);
    }
    SameRewrites(a, b, q, u, p, t);
    assert RewriteLine("", q, u) == RewriteLine("", p, t);
    hide Rewrite, Written, RewriteLine, RewriteEach, HasPrefix, Split;
  }

  /** The text of one rewrite on which the two disagree. */
  function Witness(p: string, t: string, q: string, u: string): string {
    if HasPrefix(q, p) && HasPrefix(t, q) then t else u
  }

  lemma OthersDoNotCommute(p: string, t: string, q: string, u: string)
    requires t != "" && u != "" && HasPrefix(t, p) && HasPrefix(u, q) && '\n' !in t && '\n' !in u
    requires !Reconciled(p, t, q, u)
    ensures !Commute(Witness(p, t, q, u), p, t, q, u)
  {
    var w := Witness(p, t, q, u);
    SplitFree(w, '\n');
    TwoRewrites(w, p, t, q, u);
    TwoRewrites(w, q, u, p, t);
    hide Rewrite, Written, Split;
    var a, b := RewriteEach(RewriteEach([w], p, t) + [""], q, u), RewriteEach(RewriteEach([w], q, u) + [""], p, t);
    assert a[1] == RewriteLine("", q, u) && b[1] == RewriteLine("", p, t);
    assert a[0] == RewriteLine(RewriteLine(w, p, t), q, u) && b[0] == RewriteLine(RewriteLine(w, q, u), p, t);
    if p == "" <==> q == "" {
      PrefixOfPrefix(u, q, p);
      PrefixOfPrefix(t, p, q);
      assert a[0] != b[0];
    } else {
      assert a[1] != b[1];
    }
    assert a + [""] != b + [""] by { assert (a + [""])[..2] == a && (b + [""])[..2] == b; }
  }

  /** Two rewrites commute on every text exactly when they are reconciled; comparable
      prefixes may well be. */
  lemma RewritesCommuteIff(p: string, t: string, q: string, u: string)
    requires t != "" && u != "" && HasPrefix(t, p) && HasPrefix(u, q) && '\n' !in t && '\n' !in u
    ensures (forall value: string :: Commute(value, p, t, q, u)) <==> Reconciled(p, t, q, u)
  {
    hide Commute, HasPrefix, Reconciled;
    if Reconciled(p, t, q, u) {
      forall value: string {
        ReconciledRewritesCommute(value, p, t, q, u);
      }
    } else {
      OthersDoNotCommute(p, t, q, u);
    }
  }

  /** A setting that edits its entry if there is one. */
  predicate Active(c: ConfigYaml, values: Dict) {
    c.key != "" && Lookup(values, c.expression) != ""
  }

  predicate SettingsReconciled(c: ConfigYaml, d: ConfigYaml, values: Dict) {
    Reconciled(c.prefix, Replacement(c, values), d.prefix, Replacement(d, values))
  }

  /** Two settings that write single lines commute on all data exactly when they edit
      different entries, or one of them does nothing, or their rewrites are reconciled. */
  lemma SettingsCommuteIff(c: ConfigYaml, d: ConfigYaml, values: Dict)
    requires '\n' !in Replacement(c, values) && '\n' !in Replacement(d, values)
    ensures (forall data: Dict :: Updated(d, Updated(c, data, values), values) == Updated(c, Updated(d, data, values), values))
       <==> c.key != d.key || !Active(c, values) || !Active(d, values) || SettingsReconciled(c, d, values)
  {
    hide Rewrite, Reconciled;
    if c.key != d.key || !Active(c, values) || !Active(d, values) || SettingsReconciled(c, d, values) {
      forall data: Dict
        ensures Updated(d, Updated(c, data, values), values) == Updated(c, Updated(d, data, values), values)
      {
        TheseSettingsCommute(c, d, data, values);
      }
    } else {
      var data := map[c.key := Witness(c.prefix, Replacement(c, values), d.prefix, Replacement(d, values))];
      OthersDoNotCommute(c.prefix, Replacement(c, values), d.prefix, Replacement(d, values));
      TwoUpdates(c, d, data, values);
      TwoUpdates(d, c, data, values);
    }
  }

  /** Two settings that edit the same entry, one after the other. */
  lemma TwoUpdates(c: ConfigYaml, d: ConfigYaml, data: Dict, values: Dict)
    requires c.key == d.key && Applies(c, data, values) && Applies(d, data, values)
    ensures Updated(d, Updated(c, data, values), values)
         == data[c.key := Rewrite(Rewrite(data[c.key], c.prefix, Replacement(c, values)), d.prefix, Replacement(d, values))]
  {
    RewriteAddsNewlines(data[c.key], c.prefix, Replacement(c, values));
    hide Rewrite;
  }

  lemma TheseSettingsCommute(c: ConfigYaml, d: ConfigYaml, data: Dict, values: Dict)
    requires '\n' !in Replacement(c, values) && '\n' !in Replacement(d, values)
    requires c.key != d.key || !Active(c, values) || !Active(d, values) || SettingsReconciled(c, d, values)
    ensures Updated(d, Updated(c, data, values), values) == Updated(c, Updated(d, data, values), values)
  {
    hide Rewrite, Reconciled;
    if c.key == d.key && Applies(c, data, values) && Applies(d, data, values) {
      TwoUpdates(c, d, data, values);
      TwoUpdates(d, c, data, values);
      ReconciledRewritesCommute(
        data[c.key], c.prefix, Replacement(c, values), d.prefix, Replacement(d, values));
    } else if Applies(c, data, values) {
      RewriteAddsNewlines(data[c.key], c.prefix, Replacement(c, values));
    } else if Applies(d, data, values) {
      RewriteAddsNewlines(data[d.key], d.prefix, Replacement(d, values));
    }
  }
}
