/** Path mode: every service of a domain gets its own path prefix. */
module Paths {
  import opened Text

  /** What the part at `i` contributes: every part but the first is led by a separator
      of its own, and every part but the last is freed of a trailing one. */
  function Piece(paths: seq<string>, i: nat): string
    requires i < |paths|
  {
    var p := if i > 0 then TrimPrefix(paths[i], "/") else paths[i];
    (if i > 0 then "/" else "") + if i < |paths| - 1 then TrimSuffix(p, "/") else p
  }

  function Joined(paths: seq<string>, i: nat): string
    requires i <= |paths|
    decreases |paths| - i
  {
    if i == |paths| then "" else Piece(paths, i) + Joined(paths, i + 1)
  }

  function UrlJoined(paths: seq<string>): string {
    Joined(paths, 0)
  }

  method UrlJoin(paths: seq<string>) returns (r: string)
    ensures r == UrlJoined(paths)
  {
    hide TrimPrefix, TrimSuffix, Joined, Piece;
    var buffer := "";
    var last := |paths| - 1;
    assert buffer + Joined(paths, 0) == Joined(paths, 0);
    for i := 0 to |paths|
      invariant buffer + Joined(paths, i) == UrlJoined(paths)
    {
      ghost var before := buffer;
      var p := paths[i];
      if i > 0 {
        buffer := buffer + "/";
        p := TrimPrefix(p, "/");
      }
      if i < last {
        p := TrimSuffix(p, "/");
      }
      buffer := buffer + p;
      OnePiece(paths, i, before, p);
    }
    NothingLeft(paths);
    assert buffer + "" == buffer;
    r := buffer;
  }

  lemma OnePiece(paths: seq<string>, i: nat, before: string, p: string)
    requires i < |paths|
    requires var q := if i > 0 then TrimPrefix(paths[i], "/") else paths[i];
             p == if i < |paths| - 1 then TrimSuffix(q, "/") else q
    ensures (if i > 0 then before + "/" else before) + p + Joined(paths, i + 1) == before + Joined(paths, i)
  {
    var lead := if i > 0 then "/" else "";
    assert Piece(paths, i) == lead + p;
    assert Joined(paths, i) == Piece(paths, i) + Joined(paths, i + 1);
    hide Piece, Joined, TrimPrefix, TrimSuffix;
    Associate(before, lead + p, Joined(paths, i + 1));
    Associate(before, lead, p);
    assert before + "" == before;
  }

  lemma NothingLeft(paths: seq<string>)
    ensures Joined(paths, |paths|) == ""
  {
  }

  /** The path of a service in path mode. */
  function AppPath(namespace: string, app: string, suffix: string): string {
    UrlJoined(["/", namespace, app, suffix])
  }

  predicate IsSegment(s: string) {
    s != "" && '/' !in s
  }

  /** For slash-free names the path is the two names and the suffix, one slash before each. */
  lemma AppPathForm(namespace: string, app: string, suffix: string)
    requires IsSegment(namespace) && IsSegment(app)
    ensures AppPath(namespace, app, suffix) == "/" + namespace + "/" + app + "/" + TrimPrefix(suffix, "/")
  {
    var paths := ["/", namespace, app, suffix];
    TrimSegment(namespace);
    TrimSegment(app);
    FourParts(paths);
    Regroup(namespace, app, TrimPrefix(suffix, "/"));
    assert Piece(paths, 0) == "";
    assert Piece(paths, 1) == "/" + namespace;
    assert Piece(paths, 2) == "/" + app;
    assert Piece(paths, 3) == "/" + TrimPrefix(suffix, "/");
  }

  lemma Regroup(a: string, b: string, c: string)
    ensures "" + (("/" + a) + (("/" + b) + ("/" + c))) == "/" + a + "/" + b + "/" + c
  {
  }

  lemma FourParts(paths: seq<string>)
    requires |paths| == 4
    ensures UrlJoined(paths) == Piece(paths, 0) + (Piece(paths, 1) + (Piece(paths, 2) + Piece(paths, 3)))
  {
    assert Joined(paths, 4) == "";
    assert Joined(paths, 3) == Piece(paths, 3);
    assert Joined(paths, 2) == Piece(paths, 2) + Joined(paths, 3);
    assert Joined(paths, 1) == Piece(paths, 1) + Joined(paths, 2);
  }

  lemma TrimSegment(s: string)
    requires IsSegment(s)
    ensures TrimPrefix(s, "/") == s && TrimSuffix(s, "/") == s
  {
    assert s[0] in s && s[|s| - 1] in s;
  }

  /** One service's path is a prefix of another's exactly when they have the same
      namespace and app name and the first suffix is a prefix of the second. Paths of
      different services on one domain host therefore never capture each other. */
  lemma PathsOfDifferentAppsAreDisjoint(
    namespace: string, app: string, suffix: string, namespace': string, app': string, suffix': string)
    requires IsSegment(namespace) && IsSegment(app) && IsSegment(namespace') && IsSegment(app')
    ensures AppPath(namespace, app, suffix) <= AppPath(namespace', app', suffix')
       <==> namespace == namespace' && app == app' && TrimPrefix(suffix, "/") <= TrimPrefix(suffix', "/")
  {
    AppPathForm(namespace, app, suffix);
    AppPathForm(namespace', app', suffix');
    hide AppPath, TrimPrefix;
    SegmentsSeparate(namespace, app, TrimPrefix(suffix, "/"), namespace', app', TrimPrefix(suffix', "/"));
  }

  lemma SegmentsSeparate(a: string, b: string, t: string, a': string, b': string, t': string)
    requires '/' !in a && '/' !in b && '/' !in a' && '/' !in b'
    ensures "/" + a + "/" + b + "/" + t <= "/" + a' + "/" + b' + "/" + t' <==> a == a' && b == b' && t <= t'
  {
    var p, p' := "/" + a + "/" + b + "/" + t, "/" + a' + "/" + b' + "/" + t';
    if p <= p' {
      var more := p'[|p|..];
      assert p' == p + more;
      RestOfPath(a, b, t + more);
      RestOfPath(a', b', t');
      assert p + more == "/" + a + "/" + b + "/" + (t + more);
      FirstSeparatorUnique(a, b + "/" + (t + more), a', b' + "/" + t', '/');
      FirstSeparatorUnique(b, t + more, b', t', '/');
      assert t <= t';
    }
    if a == a' && b == b' && t <= t' {
      assert t' == t + t'[|t|..];
      assert p' == p + t'[|t|..];
    }
  }

  lemma RestOfPath(a: string, b: string, t: string)
    ensures ("/" + a + "/" + b + "/" + t)[1..] == a + ['/'] + (b + "/" + t)
  {
  }

  // ---- Lengths -------------------------------------------------------------

  /** Joining loses at most the separators at the ends of a part. */
  lemma AppPathLength(namespace: string, app: string, suffix: string)
    ensures var path := AppPath(namespace, app, suffix);
            |path| >= |app| + 1 && |path| >= |suffix| + 2 && path[0] == '/'
  {
    var paths := ["/", namespace, app, suffix];
    FourParts(paths);
    var a, b, c, d := Piece(paths, 0), Piece(paths, 1), Piece(paths, 2), Piece(paths, 3);
    assert a == "";
    assert |b| >= 1 && b[0] == '/';
    assert |c| >= 1 && |c| >= |app| - 1;
    assert |d| >= 1 && |d| >= |suffix|;
    hide UrlJoined, Piece;
    assert AppPath(namespace, app, suffix) == a + (b + (c + d));
  }

  lemma FullLength(domain: string, path: string)
    requires path != "" && path[0] == '/'
    ensures |UrlJoined([domain, path])| >= |path|
  {
    var parts := [domain, path];
    assert Joined(parts, 2) == "";
    assert Joined(parts, 1) == Piece(parts, 1) + "";
    assert |Piece(parts, 1)| == |path|;
    hide Piece;
    assert UrlJoined(parts) == Piece(parts, 0) + Joined(parts, 1);
  }

  /** Joining a host and a path: one slash between them. */
  lemma JoinTwo(host: string, path: string)
    ensures UrlJoined([host, path]) == TrimSuffix(host, "/") + "/" + TrimPrefix(path, "/")
    ensures HasPrefix(path, "/") ==> UrlJoined([host, path]) == TrimSuffix(host, "/") + path
  {
    var parts := [host, path];
    assert Joined(parts, 2) == "";
    assert Joined(parts, 1) == Piece(parts, 1) + "";
    assert Piece(parts, 1) == "/" + TrimPrefix(path, "/");
    hide TrimSuffix;
    assert UrlJoined(parts) == Piece(parts, 0) + Joined(parts, 1);
    assert Piece(parts, 0) == TrimSuffix(host, "/");
    if HasPrefix(path, "/") {
      assert path == "/" + path[1..];
    }
  }
}
