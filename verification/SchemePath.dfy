/** Scheme paths as strings, as manage_tablets.py and the Go client treat them: joining,
    parents, and the component-boundary prefix relation. */
module SchemePath {
  import opened Wrappers

  function TrimSlashes(path: string): (r: string)
    ensures r <= path
  {
    if path != "" && path[|path| - 1] == '/' then TrimSlashes(path[..|path| - 1]) else path
  }

  function JoinPath(parent: string, name: string): string {
    TrimSlashes(parent) + "/" + name
  }

  /** A path as `normalize_path` leaves it, as far as its ends go. */
  predicate IsNormal(path: string) {
    path != "" && path[0] == '/' && (path == "/" || path[|path| - 1] != '/')
  }

  predicate GoodName(name: string) {
    name != "" && '/' !in name
  }

  /** Position of the last '/', or |path| when there is none. */
  function LastSlash(path: string): (r: nat)
    ensures r < |path| ==> path[r] == '/' && '/' !in path[r + 1..]
    ensures r >= |path| ==> '/' !in path
  {
    if path == "" then 0
    else if path[|path| - 1] == '/' then |path| - 1
    else
      var r := LastSlash(path[..|path| - 1]);
      if r >= |path| - 1 then |path| else r
  }

  /** `path.rsplit('/', 1)[0]`. */
  function Before(path: string): (r: string)
    ensures r <= path
  {
    var k := LastSlash(path);
    if k < |path| then path[..k] else path
  }

  /** The directory that lists this path. */
  function ParentOf(path: string): (r: string)
    ensures |r| < |path| || r == path || path == ""
  {
    var k := LastSlash(path);
    if k == 0 && |path| > 1 then "/" else Before(path)
  }

  lemma {:induction false} LastSlashOf(base: string, name: string)
    requires '/' !in name
    ensures LastSlash(base + "/" + name) == |base|
  {
    var path := base + "/" + name;
    if name == "" {
      assert path[|path| - 1] == '/';
    } else {
      assert path[|path| - 1] == name[|name| - 1] && name[|name| - 1] in name;
      assert path[..|path| - 1] == base + "/" + name[..|name| - 1];
      LastSlashOf(base, name[..|name| - 1]);
    }
  }

  /** Joining a name to a normal path, and taking it off again. */
  lemma JoinedPath(parent: string, name: string)
    requires IsNormal(parent) && GoodName(name)
    ensures var path := JoinPath(parent, name);
            && IsNormal(path) && path != "/"
            && ParentOf(path) == parent && |parent| < |path|
            && path == (if parent == "/" then "" else parent) + "/" + name
  {
    var base := if parent == "/" then "" else parent;
    TrimNormal(parent);
    var path := base + "/" + name;
    LastSlashOf(base, name);
    assert path[..|base|] == base;
    assert path[|path| - 1] == name[|name| - 1] && name[|name| - 1] in name;
  }

  lemma TrimNormal(parent: string)
    requires IsNormal(parent)
    ensures TrimSlashes(parent) == if parent == "/" then "" else parent
  {
    if parent == "/" {
      assert parent[..0] == "";
    }
  }

  // ---------- the prefix relation ----------

  /** Equal to the prefix, or below it. */
  predicate IsUnder(path: string, prefix: string) {
    path == prefix || prefix + "/" <= path
  }

  predicate PathMatchesPrefix(path: string, prefix: Option<string>) {
    prefix.None? || IsUnder(path, prefix.value)
  }

  /** One of the two is under the other. */
  predicate PathsIntersect(path: string, prefix: Option<string>) {
    prefix.None? || IsUnder(path, prefix.value) || IsUnder(prefix.value, path)
  }

  lemma UnderTransitive(a: string, b: string, c: string)
    requires IsUnder(a, b) && IsUnder(b, c)
    ensures IsUnder(a, c)
  {
    if a != b && b != c {
      assert (b + "/")[..|c| + 1] == b[..|c| + 1];
    }
  }

  /** Two paths that lie above the same path lie above each other. */
  lemma UnderComparable(path: string, a: string, b: string)
    requires IsUnder(path, a) && IsUnder(path, b)
    ensures IsUnder(a, b) || IsUnder(b, a)
  {
    if path != a && path != b {
      var n := if |a| < |b| then |a| else |b|;
      assert a == path[..|a|] && b == path[..|b|];
      assert path[..|a| + 1] == a + "/" && path[..|b| + 1] == b + "/";
      if |a| < |b| {
        assert a + "/" == b[..|a| + 1];
      } else if |b| < |a| {
        assert b + "/" == a[..|b| + 1];
      } else {
        assert a == b;
      }
    }
  }

  lemma SlashNotInName(base: string, name: string, k: nat)
    requires GoodName(name) && k < |base + ("/" + name)| && (base + ("/" + name))[k] == '/'
    ensures k <= |base|
  {
    var path := base + ("/" + name);
    assert forall m :: 0 <= m < |name| ==> path[|base| + 1 + m] == name[m];
    assert |base| + 1 + (k - |base| - 1) == k;
  }

  lemma PrefixChars(s: string, path: string)
    requires s + "/" <= path
    ensures path[|s|] == '/' && path[..|s|] == s
  {
    assert path[..|s| + 1] == s + "/";
    assert path[..|s|] == path[..|s| + 1][..|s|];
  }

  lemma ShorterPrefix(s: string, base: string, rest: string)
    requires s + "/" <= base + rest && |s| < |base|
    ensures s + "/" <= base
  {
    assert base[..|s| + 1] == (base + rest)[..|s| + 1];
  }

  /** A directory prefix of a joined path ends in the part before the name. */
  lemma UnderString(base: string, name: string, above: string)
    requires GoodName(name) && above + "/" <= base + ("/" + name)
    ensures above == base || above + "/" <= base
  {
    PrefixChars(above, base + ("/" + name));
    SlashNotInName(base, name, |above|);
    if |above| < |base| {
      ShorterPrefix(above, base, "/" + name);
    } else {
      assert (base + ("/" + name))[..|above|] == base;
    }
  }

  /** What is under a directory is the directory or is under it through the parent. */
  lemma UnderParent(parent: string, name: string, above: string)
    requires IsNormal(parent) && GoodName(name)
    requires IsUnder(JoinPath(parent, name), above) && JoinPath(parent, name) != above
    requires IsNormal(above) && (above == "/" ==> parent == "/")
    ensures IsUnder(parent, above)
  {
    JoinedPath(parent, name);
    hide JoinPath, ParentOf, GoodName;
    if above != "/" {
      var base := if parent == "/" then "" else parent;
      SameJoin(base, name);
      UnderString(base, name, above);
      NotUnderNothing(above);
    }
  }

  lemma SameJoin(base: string, name: string)
    ensures base + "/" + name == base + ("/" + name)
  {
  }

  lemma NotUnderNothing(above: string)
    requires IsNormal(above)
    ensures above != "" && !(above + "/" <= "")
  {
  }

  lemma ParentIsAbove(parent: string, name: string)
    requires IsNormal(parent) && GoodName(name) && parent != "/"
    ensures IsUnder(JoinPath(parent, name), parent)
  {
    JoinedPath(parent, name);
    assert parent + "/" + name == (parent + "/") + name;
  }
}
