/** The environment variable name made from the name of a config map. */
module EnvNames {
  import opened Text

  function Upper(c: char): char {
    if 'a' <= c <= 'z' then c - 'a' + 'A' else c
  }

  /** `strings.ToUpper` on ASCII text. */
  function ToUpper(s: string): (r: string)
    ensures |r| == |s| && forall i | 0 <= i < |s| :: r[i] == Upper(s[i])
  {
    seq(|s|, i requires 0 <= i < |s| => Upper(s[i]))
  }

  predicate IsValid(c: char) {
    'A' <= c <= 'Z' || '0' <= c <= '9'
  }

  predicate EndsValid(s: string) {
    s != "" && IsValid(s[|s| - 1])
  }

  /** The maximal runs of valid characters, in order. */
  function Runs(s: string): (runs: seq<string>)
    ensures EndsValid(s) ==> runs != []
  {
    if s == "" then []
    else
      var front, c := s[..|s| - 1], s[|s| - 1];
      var runs := Runs(front);
      if !IsValid(c) then runs
      else if EndsValid(front) then runs[..|runs| - 1] + [runs[|runs| - 1] + [c]]
      else runs + [[c]]
  }

  /** The runs joined by single underscores, and one more underscore iff there is a run
      and the text ends in another character. */
  function NormalForm(s: string): string {
    Join(Runs(s), '_') + if Runs(s) != [] && !EndsValid(s) then "_" else ""
  }

  function EnvVarName(text: string): string {
    NormalForm(ToUpper(text))
  }

  lemma {:induction false} JoinMore(runs: seq<string>, last: string)
    requires runs != []
    ensures Join(runs + [last], '_') == Join(runs, '_') + "_" + last
  {
    var all := runs + [last];
    if |runs| == 1 {
      assert all[1..] == [last];
    } else {
      assert all[1..] == runs[1..] + [last];
      JoinMore(runs[1..], last);
    }
  }

  lemma JoinLonger(runs: seq<string>, c: char)
    requires runs != []
    ensures Join(runs[..|runs| - 1] + [runs[|runs| - 1] + [c]], '_') == Join(runs, '_') + [c]
  {
    var front, last := runs[..|runs| - 1], runs[|runs| - 1];
    assert front + [last] == runs;
    JoinSingle(last);
    JoinSingle(last + [c]);
    hide Join;
    if front == [] {
      assert runs == [last] && front + [last + [c]] == [last + [c]];
    } else {
      JoinMore(front, last);
      JoinMore(front, last + [c]);
      Associate(Join(front, '_') + "_", last, [c]);
    }
  }

  lemma JoinSingle(s: string)
    ensures Join([s], '_') == s
  {
  }

  /** What one more character does to the normal form: exactly one pass of the loop. */
  lemma NormalFormStep(s: string, c: char)
    ensures NormalForm(s + [c]) == NormalForm(s) + if IsValid(c) then [c] else if EndsValid(s) then "_" else ""
  {
    var t := s + [c];
    assert t[..|t| - 1] == s;
    var runs := Runs(s);
    if IsValid(c) {
      if EndsValid(s) {
        JoinLonger(runs, c);
      } else if runs != [] {
        JoinMore(runs, [c]);
      } else {
        assert runs + [[c]] == [[c]];
      }
    }
  }

  method ConvertToEnvVarName(text: string) returns (name: string)
    ensures name == EnvVarName(text)
  {
    var buffer := "";
    var upper := ToUpper(text);
    var lastCharValid := false;
    for i := 0 to |upper|
      invariant buffer == NormalForm(upper[..i])
      invariant lastCharValid == EndsValid(upper[..i])
    {
      NormalFormStep(upper[..i], upper[i]);
      assert upper[..i + 1] == upper[..i] + [upper[i]];
      var ch := upper[i];
      if ('A' <= ch <= 'Z') || ('0' <= ch <= '9') {
        buffer := buffer + [ch];
        lastCharValid := true;
      } else {
        if lastCharValid {
          buffer := buffer + "_";
        }
        lastCharValid := false;
      }
    }
    assert upper[..|upper|] == upper;
    name := buffer;
  }

  /** The normal form has the runs of the text, ends validly iff the text does, and is empty iff there is no run. */
  lemma {:induction false} NormalFormKeepsRuns(s: string)
    ensures var name := NormalForm(s);
      && Runs(name) == Runs(s)
      && (Runs(s) == [] <==> name == "")
      && (name != "" ==> (EndsValid(name) <==> EndsValid(s)))
  {
    if s != "" {
      var front, c := s[..|s| - 1], s[|s| - 1];
      assert s == front + [c];
      NormalFormKeepsRuns(front);
      NormalFormStep(front, c);
      var name := NormalForm(front);
      if IsValid(c) {
        assert (name + [c])[..|name|] == name;
      } else if EndsValid(front) {
        assert (name + "_")[..|name|] == name;
      } else {
        assert name + "" == name;
      }
    }
  }

  lemma UpperStays(s: string)
    requires forall c | c in s :: IsValid(c) || c == '_'
    ensures ToUpper(s) == s
  {
    forall i | 0 <= i < |s|
      ensures ToUpper(s)[i] == s[i]
    {
      assert s[i] in s;
    }
  }

  lemma {:induction false} NormalFormCharacters(s: string)
    ensures forall c | c in NormalForm(s) :: IsValid(c) || c == '_'
  {
    if s != "" {
      assert s == s[..|s| - 1] + [s[|s| - 1]];
      NormalFormCharacters(s[..|s| - 1]);
      NormalFormStep(s[..|s| - 1], s[|s| - 1]);
    }
  }

  /** A name is converted to itself. */
  lemma ConversionIsIdempotent(text: string)
    ensures EnvVarName(EnvVarName(text)) == EnvVarName(text)
  {
    NormalFormKeepsRuns(ToUpper(text));
    NormalFormCharacters(ToUpper(text));
    UpperStays(EnvVarName(text));
  }

  /** Whether the name of the text ends in an underscore. */
  predicate Trailing(s: string) {
    Runs(s) != [] && !EndsValid(s)
  }

  /** Two texts share a variable name iff their upper-cased runs and the trailing flag agree. */
  lemma SameNameIffSameRuns(a: string, b: string)
    ensures EnvVarName(a) == EnvVarName(b)
       <==> Runs(ToUpper(a)) == Runs(ToUpper(b)) && Trailing(ToUpper(a)) == Trailing(ToUpper(b))
  {
    NormalFormKeepsRuns(ToUpper(a));
    NormalFormKeepsRuns(ToUpper(b));
  }

  // ---- Character by character ----------------------------------------------

  predicate IsLetterOrDigit(c: char) {
    'a' <= c <= 'z' || 'A' <= c <= 'Z' || '0' <= c <= '9'
  }

  /** What one more character adds to the name: a small letter its capital, a capital or a
      digit itself, and anything else one underscore if it comes right behind one of those. */
  lemma OneMoreCharacter(text: string, c: char)
    ensures EnvVarName("") == ""
    ensures EnvVarName(text + [c]) == EnvVarName(text) +
      if 'a' <= c <= 'z' then [(c as int - 32) as char]
      else if 'A' <= c <= 'Z' || '0' <= c <= '9' then [c]
      else if text != "" && IsLetterOrDigit(text[|text| - 1]) then "_"
      else ""
  {
    var upper := ToUpper(text);
    assert ToUpper(text + [c]) == upper + [Upper(c)];
    assert EndsValid(upper) <==> text != "" && IsLetterOrDigit(text[|text| - 1]);
    NormalFormStep(upper, Upper(c));
    assert ToUpper("") == "";
    hide NormalForm, ToUpper;
    assert EnvVarName("") == "" by { EmptyName(); }
  }

  lemma EmptyName()
    ensures NormalForm("") == ""
  {
  }
}
