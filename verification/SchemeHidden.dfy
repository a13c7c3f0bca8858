/** When the walk to a prefix and the filtered full walk differ: `collect_objects` in
    manage_tablets.py does not enter a directory whose name begins with a dot, but
    `resolve_start_path` may start behind one. */
module SchemeHidden {
  import opened Wrappers
  import opened Order
  import opened SchemePath
  import opened SchemeWalk

  /** Nothing on the way from `base` to the path is skipped for its name. */
  predicate Clear(q: Query, path: string, base: string) {
    q.includeSys || NoHidden(path, base)
  }

  // ---------- the full walk visits exactly what is not hidden ----------

  lemma NameKeepsNoHidden(dir: string, name: string, database: string)
    requires IsNormal(dir) && dir != "/" && GoodName(name) && IsUnder(dir, database)
    ensures NoHidden(JoinPath(dir, name), database) <==> NoHidden(dir, database) && name[0] != '.'
  {
    NamePosition(dir, name);
    var path := JoinPath(dir, name);
    JoinedPath(dir, name);
    SlashesOfJoin(dir, name);
    assert |database| <= |dir|;
    if NoHidden(path, database) {
      forall k | |database| <= k < |dir| - 1 && dir[k] == '/'
        ensures dir[k + 1] != '.'
      {
        assert path[k] == dir[k] && path[k + 1] == dir[k + 1];
      }
    }
    if NoHidden(dir, database) && name[0] != '.' {
      forall k | |database| <= k < |path| - 1 && path[k] == '/'
        ensures path[k + 1] != '.'
      {
        if k < |dir| - 1 {
          assert path[k] == dir[k] && path[k + 1] == dir[k + 1];
        }
      }
    }
  }

  lemma LastOfDirectory(dir: string, path: string)
    requires IsNormal(dir) && dir != "/" && dir <= path
    ensures path[|dir| - 1] != '/'
  {
    assert path[|dir| - 1] == dir[|dir| - 1];
  }

  /** The slashes of a joined path are those of the directory and the one before the name. */
  lemma SlashesOfJoin(dir: string, name: string)
    requires IsNormal(dir) && dir != "/" && GoodName(name)
    ensures var path := JoinPath(dir, name);
            forall k :: 0 <= k < |path| && path[k] == '/' ==> k < |dir| - 1 || k == |dir|
  {
    hide JoinPath;
    JoinedPath(dir, name);
    var path := JoinPath(dir, name);
    LastOfDirectory(dir, path);
    forall k | 0 <= k < |path| && path[k] == '/'
      ensures k < |dir| - 1 || k == |dir|
    {
      SlashNotInName(dir, name, k);
    }
  }

  /** A directory that the walk over everything visits has no hidden component. */
  lemma {:induction false} VisitedIsClear(tree: Tree, database: string, q: Query, path: string)
    requires GoodNames(tree) && IsNormal(database) && database != "/"
    requires Visited(tree, database, q, path)
    ensures Clear(q, path, database)
    decreases |path|
  {
    hide IsNormal, JoinPath, GoodName, NoHidden, IsUnder;
    if path == database {
      NothingBelow(database);
    } else {
      var dir := ParentOf(path);
      var c :| c in tree[dir].children && c.name != "" && JoinPath(dir, c.name) == path && Enters(c, path, q);
      VisitedIsBelow(tree, database, q, dir);
      VisitedIsClear(tree, database, q, dir);
      NameKeepsNoHidden(dir, c.name, database);
    }
  }

  lemma NothingBelow(database: string)
    ensures NoHidden(database, database)
  {
  }

  /** The full walk visits a directory of the database exactly when nothing on the way to it
      is hidden. */
  lemma VisitedExactly(tree: Tree, database: string, q: Query, path: string)
    requires Database(tree, database) && path in tree && IsUnder(path, database)
    ensures Visited(tree, database, Everything(q), path) <==> Clear(q, path, database)
  {
    hide Visited, JoinPath, IsNormal, GoodName, NoHidden;
    if Visited(tree, database, Everything(q), path) {
      VisitedIsClear(tree, database, Everything(q), path);
    }
    if Clear(q, path, database) {
      FullWalkReaches(tree, database, q, path);
    }
  }

  /** The condition of PrunedWalkIsFilteredWalk, for any start that `resolve_start_path` can
      return. */
  lemma StartsAboveExactly(tree: Tree, database: string, q: Query, start: string)
    requires Database(tree, database) && q.prefix.Some? && start in tree
    requires IsUnder(q.prefix.value, start) && IsUnder(start, database)
    ensures StartsAbove(tree, database, start, q) <==> Clear(q, start, database)
  {
    hide Visited, Database, NoHidden;
    VisitedExactly(tree, database, q, start);
  }

  // ---------- what the walk from a start finds, without walking ----------

  /** A directory at or below `base`, with nothing hidden in between, contributes `o`. */
  ghost predicate Shown(tree: Tree, base: string, q: Query, o: Object) {
    exists d :: d in tree && IsUnder(d, base) && Clear(q, d, base) && Adds(tree, d, q, o)
  }

  /** Every directory of a database is a database. */
  lemma Subtree(tree: Tree, database: string, start: string)
    requires Database(tree, database) && start in tree && IsUnder(start, database)
    ensures Database(tree, start)
  {
    hide JoinPath, GoodName, ParentOf;
    DatabaseNotRoot(start, database);
    forall d | d in tree && d != start && IsUnder(d, start)
      ensures HasListing(tree, d)
    {
      UnderTransitive(d, start, database);
      if d == database {
        UnderAntisymmetric(d, start);
      }
    }
  }

  lemma WalkShows(tree: Tree, database: string, start: string, q: Query, o: Object)
    requires Database(tree, database) && start in tree && IsUnder(start, database)
    requires q.prefix.Some? && IsUnder(q.prefix.value, start)
    ensures IsObject(tree, start, q, o) <==> Shown(tree, start, q, o)
  {
    hide Visited, Database, JoinPath, NoHidden, IsUnder, Clear, IsNormal, GoodName, Selects;
    Subtree(tree, database, start);
    StartVisited(tree, start, Everything(q));
    DatabaseIsNormal(tree, start);
    if IsObject(tree, start, q, o) {
      var d :| d in tree && Visited(tree, start, q, d) && Adds(tree, d, q, o);
      PrunedIsInFull(tree, start, start, q, d);
      VisitedIsBelow(tree, start, Everything(q), d);
      VisitedExactly(tree, start, q, d);
    }
    if Shown(tree, start, q, o) {
      var d :| d in tree && IsUnder(d, start) && Clear(q, d, start) && Adds(tree, d, q, o);
      VisitedExactly(tree, start, q, d);
      AddsWithout(tree, d, q, o);
      FullObjectIsInPruned(tree, start, start, q, o);
    }
  }

  lemma DatabaseIsNormal(tree: Tree, database: string)
    requires Database(tree, database)
    ensures GoodNames(tree) && IsNormal(database) && database != "/"
  {
    hide JoinPath, IsNormal, GoodName, ParentOf;
  }

  lemma AddsWithout(tree: Tree, d: string, q: Query, o: Object)
    requires d in tree && q.prefix.Some? && Adds(tree, d, q, o)
    ensures Adds(tree, d, Everything(q), o) && PathMatchesPrefix(o.path, q.prefix)
  {
    hide JoinPath, IsUnder;
  }

  // ---------- what the full walk finds behind a hidden component ----------

  lemma ClearAbove(q: Query, path: string, above: string, database: string)
    requires IsUnder(path, above) && IsUnder(above, database) && Clear(q, path, database)
    ensures Clear(q, above, database)
  {
    if !q.includeSys && path != above {
      assert above <= path;
      forall k | |database| <= k < |above| - 1 && above[k] == '/'
        ensures above[k + 1] != '.'
      {
        assert path[k] == '/' && path[k + 1] == above[k + 1];
      }
    }
  }

  /** Of what lies at or under a hidden start the full walk finds at most the start itself,
      listed in a parent that is not hidden. */
  lemma FullBehindHidden(tree: Tree, database: string, start: string, q: Query, o: Object)
    requires Database(tree, database) && start in tree && IsUnder(start, database) && !Clear(q, start, database)
    requires IsObject(tree, database, Everything(q), o) && IsUnder(o.path, start)
    ensures o == Object(start, tree[start].self) && ParentOf(start) in tree && Clear(q, ParentOf(start), database)
  {
    hide Visited, Database, JoinPath, NoHidden, IsUnder, Clear, IsNormal, GoodName, Selects;
    DatabaseIsNormal(tree, database);
    var full := Everything(q);
    var d :| d in tree && Visited(tree, database, full, d) && Adds(tree, d, full, o);
    VisitedIsBelow(tree, database, full, d);
    VisitedExactly(tree, database, q, d);
    if IsUnder(d, start) {
      ClearAbove(q, d, start, database);
      assert false;
    }
    SelfUnder(d);
    var c :| c in tree[d].children && c.name != "" && o == Object(JoinPath(d, c.name), c.kind);
    NamesAreGood(tree, d, c);
    JoinedPath(d, c.name);
    StartIsNormal(tree, database, start);
    if o.path != start {
      UnderParent(d, c.name, start);
      assert false;
    }
    ListedSaysItsKind(tree, database, d, c);
  }

  lemma NamesAreGood(tree: Tree, d: string, c: Child)
    requires GoodNames(tree) && d in tree && c in tree[d].children && c.name != ""
    ensures GoodName(c.name)
  {
  }

  lemma StartIsNormal(tree: Tree, database: string, start: string)
    requires Database(tree, database) && start in tree && IsUnder(start, database)
    ensures IsNormal(start) && start != "/"
  {
    hide JoinPath, GoodName, ParentOf;
    DatabaseNotRoot(start, database);
  }

  lemma ListedSaysItsKind(tree: Tree, database: string, d: string, c: Child)
    requires Database(tree, database) && d in tree && c in tree[d].children && c.name != "" &&
             JoinPath(d, c.name) in tree
    ensures tree[JoinPath(d, c.name)].self == c.kind && c.kind in DIRECTORY_TYPES
  {
    hide JoinPath, GoodName, ParentOf, IsNormal;
  }

  /** And that one it does find. */
  lemma FullFindsStart(tree: Tree, database: string, start: string, q: Query)
    requires Database(tree, database) && start in tree && start != database && IsUnder(start, database)
    requires Clear(q, ParentOf(start), database) && tree[start].self in q.kinds
    ensures IsObject(tree, database, Everything(q), Object(start, tree[start].self))
  {
    hide Visited, Database, JoinPath, NoHidden, IsUnder, Clear, IsNormal, GoodName, ParentOf;
    DatabaseIsNormal(tree, database);
    var dir := ParentOf(start);
    var c := ListingOf(tree, database, start);
    ListedSaysItsKind(tree, database, dir, c);
    VisitedExactly(tree, database, q, dir);
    assert Adds(tree, dir, Everything(q), Object(start, c.kind));
  }

  lemma ListingOf(tree: Tree, database: string, start: string) returns (c: Child)
    requires Database(tree, database) && start in tree && start != database && IsUnder(start, database)
    ensures ParentOf(start) in tree && c in tree[ParentOf(start)].children && c.name != ""
    ensures JoinPath(ParentOf(start), c.name) == start && IsUnder(ParentOf(start), database)
  {
    hide JoinPath, GoodName, IsNormal, ParentOf, IsUnder;
    DatabaseIsNormal(tree, database);
    assert HasListing(tree, start);
    var dir := ParentOf(start);
    c :| c in tree[dir].children && GoodName(c.name) && JoinPath(dir, c.name) == start && c.kind in DIRECTORY_TYPES;
    NamedNotEmpty(c.name);
    assert IsNormal(dir);
    UnderParent(dir, c.name, database);
  }

  // ---------- exactly when the two agree ----------

  /** Everything selected that shows from the start is the start itself, and its parent is
      not hidden, so that the full walk lists it too. */
  ghost predicate OnlyTheStart(tree: Tree, database: string, start: string, q: Query) {
    forall o :: Shown(tree, start, q, o) ==> o.path == start && Clear(q, ParentOf(start), database)
  }

  /** For any start that `resolve_start_path` can return: the walk to the prefix gives what
      filtering the full walk gives if and only if nothing on the way to the start is hidden,
      or nothing selected lies behind it that the full walk could miss. */
  lemma WalksAgreeExactly(tree: Tree, database: string, start: string, q: Query, pruned: seq<Object>, full: seq<Object>)
    requires Database(tree, database) && start in tree && IsUnder(start, database)
    requires q.prefix.Some? && IsUnder(q.prefix.value, start)
    requires IsResult(tree, start, q, pruned) && IsResult(tree, database, Everything(q), full)
    ensures pruned == Filtered(full, q.prefix.value) <==>
            Clear(q, start, database) || OnlyTheStart(tree, database, start, q)
  {
    hide IsObject, IsUnder, Less, PathSorted, Database, Visited, Shown, Clear, IsResult;
    var prefix := q.prefix.value;
    if Clear(q, start, database) {
      StartsAboveExactly(tree, database, q, start);
      PrunedWalkIsFilteredWalk(tree, database, start, q, pruned, full);
    } else if OnlyTheStart(tree, database, start, q) {
      SameWhenOnlyStart(tree, database, start, q, pruned, full);
    } else {
      var o :| Shown(tree, start, q, o) && !(o.path == start && Clear(q, ParentOf(start), database));
      DifferentWhenMore(tree, database, start, q, o, pruned, full);
    }
  }

  lemma ResultHas(tree: Tree, start: string, q: Query, r: seq<Object>, o: Object)
    requires IsResult(tree, start, q, r) && IsObject(tree, start, q, o)
    ensures HasPath(r, o.path)
  {
    hide IsObject, Less;
  }

  lemma ResultOnly(tree: Tree, start: string, q: Query, r: seq<Object>)
    requires IsResult(tree, start, q, r)
    ensures PathSorted(r) && forall o :: o in r ==> IsObject(tree, start, q, o)
  {
    hide IsObject, Less, PathSorted;
  }

  /** What the walk from a hidden start finds beyond the start's own listing, the full walk
      does not find under any type. */
  lemma HiddenStartFindsMore(tree: Tree, database: string, start: string, q: Query, o: Object)
    requires Database(tree, database) && start in tree && IsUnder(start, database)
    requires q.prefix.Some? && IsUnder(q.prefix.value, start)
    requires !Clear(q, start, database) && Shown(tree, start, q, o)
    requires o.path != start || !Clear(q, ParentOf(start), database)
    ensures IsObject(tree, start, q, o)
    ensures forall kind :: !IsObject(tree, database, Everything(q), Object(o.path, kind))
  {
    hide IsObject, IsUnder, Database, Shown, Clear;
    WalkShows(tree, database, start, q, o);
    ShownIsUnder(tree, start, q, o);
    UnderTransitive(o.path, q.prefix.value, start);
    forall kind | IsObject(tree, database, Everything(q), Object(o.path, kind))
      ensures false
    {
      FullBehindHidden(tree, database, start, q, Object(o.path, kind));
    }
  }

  lemma ShownIsUnder(tree: Tree, start: string, q: Query, o: Object)
    requires Shown(tree, start, q, o) && q.prefix.Some?
    ensures IsUnder(o.path, q.prefix.value)
  {
    hide IsUnder, Clear, JoinPath;
  }

  lemma DifferentWhenMore(tree: Tree, database: string, start: string, q: Query, o: Object, pruned: seq<Object>,
                          full: seq<Object>)
    requires Database(tree, database) && start in tree && IsUnder(start, database)
    requires q.prefix.Some? && IsUnder(q.prefix.value, start) && !Clear(q, start, database)
    requires IsResult(tree, start, q, pruned) && IsResult(tree, database, Everything(q), full)
    requires Shown(tree, start, q, o) && (o.path != start || !Clear(q, ParentOf(start), database))
    ensures pruned != Filtered(full, q.prefix.value)
  {
    hide IsObject, IsUnder, Less, PathSorted, Database, Shown, Clear, IsResult;
    HiddenStartFindsMore(tree, database, start, q, o);
    ResultHas(tree, start, q, pruned, o);
    var x :| x in pruned && x.path == o.path;
    ResultOnly(tree, database, Everything(q), full);
    FilteredHas(full, q.prefix.value);
    assert !IsObject(tree, database, Everything(q), Object(o.path, x.kind));
    assert x == Object(o.path, x.kind);
  }

  lemma SameWhenOnlyStart(tree: Tree, database: string, start: string, q: Query, pruned: seq<Object>, full: seq<Object>)
    requires Database(tree, database) && start in tree && IsUnder(start, database)
    requires q.prefix.Some? && IsUnder(q.prefix.value, start) && !Clear(q, start, database)
    requires OnlyTheStart(tree, database, start, q)
    requires IsResult(tree, start, q, pruned) && IsResult(tree, database, Everything(q), full)
    ensures pruned == Filtered(full, q.prefix.value)
  {
    hide IsObject, IsUnder, Less, PathSorted, Database, Shown, Clear, IsResult;
    var prefix := q.prefix.value;
    forall o
      ensures o in pruned <==> o in full && IsUnder(o.path, prefix)
    {
      OnlyStartInBoth(tree, database, start, q, pruned, full, o);
    }
    ResultOnly(tree, start, q, pruned);
    ResultOnly(tree, database, Everything(q), full);
    FilteredHas(full, prefix);
    PathSortedIsUnique(pruned, Filtered(full, prefix));
  }

  lemma OnlyStartInBoth(tree: Tree, database: string, start: string, q: Query, pruned: seq<Object>,
                        full: seq<Object>, o: Object)
    requires Database(tree, database) && start in tree && IsUnder(start, database)
    requires q.prefix.Some? && IsUnder(q.prefix.value, start) && !Clear(q, start, database)
    requires OnlyTheStart(tree, database, start, q)
    requires IsResult(tree, start, q, pruned) && IsResult(tree, database, Everything(q), full)
    ensures o in pruned <==> o in full && IsUnder(o.path, q.prefix.value)
  {
    hide IsObject, IsUnder, Less, PathSorted, Database, Shown, Clear, IsResult;
    var prefix := q.prefix.value;
    ResultOnly(tree, start, q, pruned);
    ResultOnly(tree, database, Everything(q), full);
    if o in pruned {
      WalkShows(tree, database, start, q, o);
      ShownIsStart(tree, database, start, q, o);
      HiddenIsNotDatabase(q, start, database);
      FullFindsStart(tree, database, start, q);
      ResultHas(tree, database, Everything(q), full, o);
      var x :| x in full && x.path == o.path;
      UnderTransitive(x.path, prefix, start);
      FullBehindHidden(tree, database, start, q, x);
    }
    if o in full && IsUnder(o.path, prefix) {
      UnderTransitive(o.path, prefix, start);
      FullBehindHidden(tree, database, start, q, o);
      StartShown(tree, database, start, q, o);
      WalkShows(tree, database, start, q, o);
      ResultHas(tree, start, q, pruned, o);
      var x :| x in pruned && x.path == o.path;
      WalkShows(tree, database, start, q, x);
      ShownIsStart(tree, database, start, q, x);
    }
  }

  lemma HiddenIsNotDatabase(q: Query, start: string, database: string)
    requires !Clear(q, start, database)
    ensures start != database
  {
    NothingBelow(database);
  }

  lemma ShownIsStart(tree: Tree, database: string, start: string, q: Query, o: Object)
    requires Database(tree, database) && start in tree && IsUnder(start, database)
    requires q.prefix.Some? && IsUnder(q.prefix.value, start)
    requires OnlyTheStart(tree, database, start, q) && Shown(tree, start, q, o)
    ensures o == Object(start, tree[start].self) && tree[start].self in q.kinds && Clear(q, ParentOf(start), database)
    ensures IsUnder(start, q.prefix.value)
  {
    hide Database, JoinPath, IsUnder, Clear, ParentOf, IsNormal, GoodName;
    ShownIsUnder(tree, start, q, o);
    var d :| d in tree && IsUnder(d, start) && Clear(q, d, start) && Adds(tree, d, q, o);
    StartIsNormal(tree, database, start);
    if o != Object(d, tree[d].self) {
      var c :| c in tree[d].children && c.name != "" && o == Object(JoinPath(d, c.name), c.kind);
      UnderTransitive(d, start, database);
      StartIsNormal(tree, database, d);
      DatabaseIsNormal(tree, database);
      NamesAreGood(tree, d, c);
      ParentIsAbove(d, c.name);
      JoinedPath(d, c.name);
      LongerIsNotAbove(d, start);
      assert false;
    }
  }

  lemma LongerIsNotAbove(path: string, above: string)
    requires IsUnder(path, above)
    ensures |path| >= |above|
  {
  }

  lemma StartShown(tree: Tree, database: string, start: string, q: Query, o: Object)
    requires start in tree && q.prefix.Some? && o == Object(start, tree[start].self)
    requires IsUnder(start, q.prefix.value) && IsObject(tree, database, Everything(q), o)
    ensures Shown(tree, start, q, o)
  {
    hide JoinPath, IsUnder, NoHidden, Visited;
    SelfUnder(start);
    NothingBelow(start);
    var d :| d in tree && Visited(tree, database, Everything(q), d) && Adds(tree, d, Everything(q), o);
    assert Adds(tree, start, q, o);
  }

  // ---------- the nested tables ----------

  /** A directory at or below `base`, with nothing hidden in between, lists the nested table. */
  ghost predicate NestedShown(tree: Tree, base: string, q: Query, t: string) {
    exists d, c :: d in tree && IsUnder(d, base) && Clear(q, d, base) && c in tree[d].children && c.name != ""
                   && t == JoinPath(d, c.name) && IsNestedTable(c, t, q)
  }

  lemma WalkShowsNested(tree: Tree, database: string, start: string, q: Query, t: string)
    requires Database(tree, database) && start in tree && IsUnder(start, database)
    requires q.prefix.Some? && IsUnder(q.prefix.value, start)
    ensures IsNested(tree, start, q, t) <==> NestedShown(tree, start, q, t)
  {
    hide Visited, Database, JoinPath, NoHidden, IsUnder, Clear, IsNormal, GoodName, PathsIntersect;
    Subtree(tree, database, start);
    StartVisited(tree, start, Everything(q));
    DatabaseIsNormal(tree, start);
    if IsNested(tree, start, q, t) {
      var d, c :| d in tree && Visited(tree, start, q, d) && c in tree[d].children && c.name != ""
                  && t == JoinPath(d, c.name) && IsNestedTable(c, t, q);
      PrunedIsInFull(tree, start, start, q, d);
      VisitedIsBelow(tree, start, Everything(q), d);
      VisitedExactly(tree, start, q, d);
    }
    if NestedShown(tree, start, q, t) {
      var d, c :| d in tree && IsUnder(d, start) && Clear(q, d, start) && c in tree[d].children && c.name != ""
                  && t == JoinPath(d, c.name) && IsNestedTable(c, t, q);
      VisitedExactly(tree, start, q, d);
      NestedDirIsPruned(tree, start, start, q, d, c);
    }
  }

  /** Everything between the database and a directory is a directory. */
  lemma {:induction false} DirectoriesAbove(tree: Tree, database: string, path: string, above: string)
    requires Database(tree, database) && path in tree
    requires IsNormal(above) && above != "/" && IsUnder(path, above) && IsUnder(above, database)
    ensures above in tree
    decreases |path|
  {
    hide IsNormal, IsUnder, JoinPath, GoodName, Database, ParentOf;
    UnderTransitive(path, above, database);
    if path == database {
      UnderAntisymmetric(path, above);
    } else if path != above {
      var c := ListingOf(tree, database, path);
      var dir := ParentOf(path);
      StartIsNormal(tree, database, dir);
      DatabaseIsNormal(tree, database);
      NamesAreGood(tree, dir, c);
      JoinedPath(dir, c.name);
      UnderParent(dir, c.name, above);
      DirectoriesAbove(tree, database, dir, above);
    }
  }

  lemma NoNestedBehindHidden(tree: Tree, database: string, start: string, q: Query, t: string)
    requires Database(tree, database) && start in tree && IsUnder(start, database) && !Clear(q, start, database)
    requires q.prefix.Some? && IsUnder(q.prefix.value, start)
    requires IsNested(tree, database, Everything(q), t)
    ensures !PathsIntersect(t, q.prefix)
  {
    hide Visited, Database, JoinPath, NoHidden, IsUnder, Clear, IsNormal, GoodName;
    var full, prefix := Everything(q), q.prefix.value;
    var d, c :| d in tree && Visited(tree, database, full, d) && c in tree[d].children && c.name != ""
                && t == JoinPath(d, c.name) && IsNestedTable(c, t, full);
    DatabaseIsNormal(tree, database);
    VisitedIsBelow(tree, database, full, d);
    VisitedExactly(tree, database, q, d);
    TableIsNoDirectory(tree, database, d, c);
    JoinedPath(d, c.name);
    ParentIsAbove(d, c.name);
    UnderTransitive(t, d, database);
    StartIsNormal(tree, database, start);
    if IsUnder(t, start) {
      UnderParent(d, c.name, start);
      ClearAbove(q, d, start, database);
      assert false;
    }
    if IsUnder(t, prefix) {
      UnderTransitive(t, prefix, start);
    }
    if IsUnder(prefix, t) {
      UnderComparable(prefix, t, start);
      DirectoriesAbove(tree, database, start, t);
    }
  }

  /** The nested tables of the two walks agree under the same condition, or when there are
      none behind the hidden component. */
  lemma NestedAgreeExactly(tree: Tree, database: string, start: string, q: Query)
    requires Database(tree, database) && start in tree && IsUnder(start, database)
    requires q.prefix.Some? && IsUnder(q.prefix.value, start)
    ensures (forall t :: IsNested(tree, start, q, t) <==>
            IsNested(tree, database, Everything(q), t) && PathsIntersect(t, q.prefix))
            <==> Clear(q, start, database) || forall t :: !NestedShown(tree, start, q, t)
  {
    hide IsNested, IsUnder, Database, Visited, NestedShown, Clear, PathsIntersect;
    if Clear(q, start, database) {
      StartsAboveExactly(tree, database, q, start);
      forall t {
        PrunedNestedIsFiltered(tree, database, start, q, t);
      }
    } else {
      forall t
        ensures IsNested(tree, start, q, t) <==> NestedShown(tree, start, q, t)
        ensures !(IsNested(tree, database, Everything(q), t) && PathsIntersect(t, q.prefix))
      {
        WalkShowsNested(tree, database, start, q, t);
        if IsNested(tree, database, Everything(q), t) {
          NoNestedBehindHidden(tree, database, start, q, t);
        }
      }
    }
  }

  // ---------- a database where they differ ----------

  /** A database with a hidden directory and a table in it. */
  function HiddenTree(): Tree {
    map["/db" := Directory("DATABASE", [Child(".sys", "DIRECTORY")]),
        "/db/.sys" := Directory("DIRECTORY", [Child("t", "TABLE")])]
  }

  function HiddenQuery(): Query {
    Query({"TABLE"}, Some("/db/.sys"), false)
  }

  lemma HiddenPaths()
    ensures JoinPath("/db", ".sys") == "/db/.sys" && JoinPath("/db/.sys", "t") == "/db/.sys/t"
    ensures ParentOf("/db/.sys") == "/db" && GoodName(".sys") && GoodName("t")
    ensures IsNormal("/db") && IsNormal("/db/.sys")
    ensures IsUnder("/db/.sys", "/db") && !IsUnder("/db", "/db/.sys") && IsUnder("/db/.sys/t", "/db/.sys")
    ensures !NoHidden("/db/.sys", "/db")
  {
    assert GoodName(".sys") && GoodName("t");
    JoinedPath("/db", ".sys");
    JoinedPath("/db/.sys", "t");
    assert "/db" + "/" + ".sys" == "/db/.sys";
    assert "/db/.sys" + "/" + "t" == "/db/.sys/t";
    var p := "/db/.sys";
    assert p[3] == '/' && p[4] == '.';
    assert "/db" + "/" <= "/db/.sys";
    assert "/db/.sys" + "/" <= "/db/.sys/t";
  }

  lemma HiddenTreeIsDatabase()
    ensures Database(HiddenTree(), "/db") && IsListedDirectory(HiddenTree(), "/db/.sys")
  {
    HiddenPaths();
    HiddenListings();
    hide JoinPath, ParentOf, IsUnder, HiddenTree, IsNormal;
    assert Child(".sys", "DIRECTORY") in HiddenTree()["/db"].children;
  }

  lemma HiddenListings()
    ensures HiddenTree().Keys == {"/db", "/db/.sys"}
    ensures HiddenTree()["/db"].children == [Child(".sys", "DIRECTORY")]
    ensures HiddenTree()["/db/.sys"].children == [Child("t", "TABLE")]
    ensures HiddenTree()["/db/.sys"].self == "DIRECTORY"
  {
  }

  /** The table in the hidden directory is in the result for the prefix, and in no result
      for the whole database. */
  lemma HiddenTreeDiffers(pruned: seq<Object>, full: seq<Object>)
    requires IsResult(HiddenTree(), "/db/.sys", HiddenQuery(), pruned)
    requires IsResult(HiddenTree(), "/db", Everything(HiddenQuery()), full)
    ensures HasPath(pruned, "/db/.sys/t") && !HasPath(full, "/db/.sys/t")
    ensures pruned != Filtered(full, "/db/.sys")
  {
    var tree, q, o := HiddenTree(), HiddenQuery(), Object("/db/.sys/t", "TABLE");
    HiddenTreeIsDatabase();
    HiddenPaths();
    hide JoinPath, ParentOf, IsUnder, Database, NoHidden, IsResult, IsObject, PathSorted;
    assert tree["/db/.sys"].children == [Child("t", "TABLE")];
    assert Child("t", "TABLE") in tree["/db/.sys"].children;
    assert Adds(tree, "/db/.sys", q, o);
    SelfUnder("/db/.sys");
    NothingBelow("/db/.sys");
    assert Shown(tree, "/db/.sys", q, o);
    hide Shown, Clear;
    HiddenStartFindsMore(tree, "/db", "/db/.sys", q, o);
    DifferentWhenMore(tree, "/db", "/db/.sys", q, o, pruned, full);
    ResultHas(tree, "/db/.sys", q, pruned, o);
    ResultOnly(tree, "/db", Everything(q), full);
  }
}
