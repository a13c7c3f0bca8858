/** The breadth-first walk over scheme directories (`collect_objects`, `resolve_start_path`
    in manage_tablets.py), with and without a path prefix. */
module SchemeWalk {
  import opened Wrappers
  import opened Order
  import opened SchemePath

  const DIRECTORY_TYPES := {"DIRECTORY", "DATABASE", "COLUMN_STORE"}

  datatype Child = Child(name: string, kind: string)

  datatype Directory = Directory(self: string, children: seq<Child>)

  /** The answers of the listing calls; a path without an answer is a listing error. */
  type Tree = map<string, Directory>

  datatype Query = Query(kinds: set<string>, prefix: Option<string>, includeSys: bool)

  datatype Object = Object(path: string, kind: string)

  // ---------- what one directory contributes ----------

  predicate Enters(c: Child, path: string, q: Query) {
    && c.kind in DIRECTORY_TYPES
    && (q.includeSys || c.name == "" || c.name[0] != '.')
    && PathsIntersect(path, q.prefix)
  }

  predicate Selects(path: string, kind: string, q: Query) {
    kind in q.kinds && PathMatchesPrefix(path, q.prefix)
  }

  predicate WantsNested(q: Query) {
    "TOPIC" in q.kinds || "PERS_QUEUE_GROUP" in q.kinds || "TABLE" in q.kinds
  }

  predicate IsNestedTable(c: Child, path: string, q: Query) {
    WantsNested(q) && c.kind == "TABLE" && PathsIntersect(path, q.prefix)
  }

  /** The objects one listed directory adds: itself and its children. */
  ghost predicate Adds(tree: Tree, dir: string, q: Query, o: Object)
    requires dir in tree
  {
    && Selects(o.path, o.kind, q)
    && (o == Object(dir, tree[dir].self)
        || exists c :: c in tree[dir].children && c.name != "" && o == Object(JoinPath(dir, c.name), c.kind))
  }

  // ---------- the directories a walk visits ----------

  ghost predicate Listed(tree: Tree, dir: string, path: string, q: Query)
    requires dir in tree
  {
    exists c :: c in tree[dir].children && c.name != "" && JoinPath(dir, c.name) == path && Enters(c, path, q)
  }

  ghost predicate Visited(tree: Tree, start: string, q: Query, path: string)
    decreases |path|
  {
    || path == start
    || (var dir := ParentOf(path);
        |dir| < |path| && dir in tree && Visited(tree, start, q, dir) && Listed(tree, dir, path, q))
  }

  /** The scheme names things properly. */
  predicate GoodNames(tree: Tree) {
    forall d :: d in tree ==> forall c :: c in tree[d].children ==> c.name == "" || GoodName(c.name)
  }

  /** Everything a walk is to return, before sorting. */
  ghost predicate IsObject(tree: Tree, start: string, q: Query, o: Object) {
    exists d :: d in tree && Visited(tree, start, q, d) && Adds(tree, d, q, o)
  }

  ghost predicate IsNested(tree: Tree, start: string, q: Query, path: string) {
    exists d, c :: d in tree && Visited(tree, start, q, d) && c in tree[d].children && c.name != ""
                   && path == JoinPath(d, c.name) && IsNestedTable(c, path, q)
  }

  lemma {:induction false} VisitedIsNormal(tree: Tree, start: string, q: Query, path: string)
    requires IsNormal(start) && GoodNames(tree) && Visited(tree, start, q, path)
    ensures IsNormal(path) && (path != start ==> path != "/")
    decreases |path|
  {
    if path != start {
      var dir := ParentOf(path);
      VisitedIsNormal(tree, start, q, dir);
      var c :| c in tree[dir].children && c.name != "" && JoinPath(dir, c.name) == path;
      JoinedPath(dir, c.name);
    }
  }

  lemma VisitedChild(tree: Tree, start: string, q: Query, dir: string, c: Child)
    requires IsNormal(start) && GoodNames(tree)
    requires dir in tree && Visited(tree, start, q, dir)
    requires c in tree[dir].children && c.name != "" && Enters(c, JoinPath(dir, c.name), q)
    ensures Visited(tree, start, q, JoinPath(dir, c.name))
  {
    VisitedIsNormal(tree, start, q, dir);
    JoinedPath(dir, c.name);
  }

  // ---------- the loop ----------

  /** A set of seen directories and a queue that together account for the walk so far. */
  ghost predicate Frontier(tree: Tree, start: string, q: Query, seen: set<string>, queue: seq<string>) {
    && (start in seen || start in queue)
    && (forall d :: d in seen || d in queue ==> Visited(tree, start, q, d))
    && (forall d, c :: d in seen && d in tree && c in tree[d].children && c.name != ""
                       && Enters(c, JoinPath(d, c.name), q) ==>
          JoinPath(d, c.name) in seen || JoinPath(d, c.name) in queue)
  }

  lemma {:induction false} EmptyQueueIsComplete(tree: Tree, start: string, q: Query, seen: set<string>, path: string)
    requires Frontier(tree, start, q, seen, [])
    ensures path in seen <==> Visited(tree, start, q, path)
    decreases |path|
  {
    if path != start && Visited(tree, start, q, path) {
      var dir := ParentOf(path);
      EmptyQueueIsComplete(tree, start, q, seen, dir);
      var c :| c in tree[dir].children && c.name != "" && JoinPath(dir, c.name) == path && Enters(c, path, q);
      assert JoinPath(dir, c.name) in seen;
    }
  }

  datatype Found = Found(objects: seq<Object>, nested: seq<string>, dirs: seq<string>)

  /** The inner loop, over the first n children. */
  function FromChildren(path: string, children: seq<Child>, q: Query): Found {
    if children == [] then Found([], [], [])
    else
      var rest := FromChildren(path, children[..|children| - 1], q);
      var c := children[|children| - 1];
      var p := JoinPath(path, c.name);
      if c.name == "" then rest
      else
        Found(rest.objects + (if Selects(p, c.kind, q) then [Object(p, c.kind)] else []),
              rest.nested + (if IsNestedTable(c, p, q) then [p] else []),
              rest.dirs + (if Enters(c, p, q) then [p] else []))
  }

  lemma FromLastChild(path: string, children: seq<Child>, q: Query)
    requires children != []
    ensures var init, last := children[..|children| - 1], children[|children| - 1];
            var f, rest, p := FromChildren(path, children, q), FromChildren(path, init, q), JoinPath(path, last.name);
            && (forall c :: c in children <==> c in init || c == last)
            && (forall o :: o in f.objects <==>
               o in rest.objects || (last.name != "" && o == Object(p, last.kind) && Selects(p, last.kind, q)))
            && (forall t :: t in f.nested <==>
               t in rest.nested || (last.name != "" && t == p && IsNestedTable(last, p, q)))
            && (forall d :: d in f.dirs <==> d in rest.dirs || (last.name != "" && d == p && Enters(last, p, q)))
  {
    hide JoinPath, Selects, IsNestedTable, Enters;
    assert children == children[..|children| - 1] + [children[|children| - 1]];
  }

  lemma {:induction false} ObjectsOfChildren(path: string, children: seq<Child>, q: Query, o: Object)
    ensures o in FromChildren(path, children, q).objects <==>
            exists c :: c in children && c.name != "" && o == Object(JoinPath(path, c.name), c.kind) &&
              Selects(o.path, o.kind, q)
  {
    hide JoinPath, Selects, IsNestedTable, Enters;
    if children != [] {
      ObjectsOfChildren(path, children[..|children| - 1], q, o);
      FromLastChild(path, children, q);
      hide FromChildren;
    }
  }

  lemma {:induction false} NestedOfChildren(path: string, children: seq<Child>, q: Query, t: string)
    ensures t in FromChildren(path, children, q).nested <==>
            exists c :: c in children && c.name != "" && t == JoinPath(path, c.name) && IsNestedTable(c, t, q)
  {
    hide JoinPath, Selects, IsNestedTable, Enters;
    if children != [] {
      NestedOfChildren(path, children[..|children| - 1], q, t);
      FromLastChild(path, children, q);
      hide FromChildren;
    }
  }

  lemma {:induction false} DirsOfChildren(path: string, children: seq<Child>, q: Query, d: string)
    ensures d in FromChildren(path, children, q).dirs <==>
            exists c :: c in children && c.name != "" && d == JoinPath(path, c.name) && Enters(c, d, q)
  {
    hide JoinPath, Selects, IsNestedTable, Enters;
    if children != [] {
      DirsOfChildren(path, children[..|children| - 1], q, d);
      FromLastChild(path, children, q);
      hide FromChildren;
    }
  }

  lemma FromChildrenHas(path: string, children: seq<Child>, q: Query)
    ensures var f := FromChildren(path, children, q);
            && (forall o :: o in f.objects <==>
                  exists c :: c in children && c.name != "" && o == Object(JoinPath(path, c.name), c.kind) &&
                    Selects(o.path, o.kind, q))
            && (forall t :: t in f.nested <==>
                  exists c :: c in children && c.name != "" && t == JoinPath(path, c.name) && IsNestedTable(c, t, q))
            && (forall d :: d in f.dirs <==>
                  exists c :: c in children && c.name != "" && d == JoinPath(path, c.name) && Enters(c, d, q))
  {
    hide JoinPath, Selects, IsNestedTable, Enters, FromChildren;
    forall o {
      ObjectsOfChildren(path, children, q, o);
    }
    forall t {
      NestedOfChildren(path, children, q, t);
    }
    forall d {
      DirsOfChildren(path, children, q, d);
    }
  }

  method ListChildren(path: string, children: seq<Child>, q: Query) returns (f: Found)
    ensures f == FromChildren(path, children, q)
  {
    var objects: seq<Object>, nested: seq<string>, dirs: seq<string> := [], [], [];
    for i := 0 to |children|
      invariant Found(objects, nested, dirs) == FromChildren(path, children[..i], q)
    {
      assert children[..i + 1][..i] == children[..i];
      var c := children[i];
      if c.name == "" {
        continue;
      }
      var p := JoinPath(path, c.name);
      if c.kind in q.kinds && PathMatchesPrefix(p, q.prefix) {
        objects := objects + [Object(p, c.kind)];
      }
      if WantsNested(q) && c.kind == "TABLE" && PathsIntersect(p, q.prefix) {
        nested := nested + [p];
      }
      if c.kind in DIRECTORY_TYPES {
        if !q.includeSys && c.name[0] == '.' {
          continue;
        }
        if PathsIntersect(p, q.prefix) {
          dirs := dirs + [p];
        }
      }
    }
    assert children[..|children|] == children;
    f := Found(objects, nested, dirs);
  }

  ghost predicate FoundSoFar(tree: Tree, q: Query, seen: set<string>, objects: seq<Object>) {
    forall o :: o in objects <==> exists d :: d in seen && d in tree && Adds(tree, d, q, o)
  }

  ghost predicate NestedSoFar(tree: Tree, q: Query, seen: set<string>, nested: seq<string>) {
    forall t :: t in nested <==>
      exists d, c :: d in seen && d in tree && c in tree[d].children && c.name != ""
                     && t == JoinPath(d, c.name) && IsNestedTable(c, t, q)
  }

  lemma FoundGrows(tree: Tree, q: Query, seen: set<string>, objects: seq<Object>, dir: string, more: seq<Object>)
    requires FoundSoFar(tree, q, seen, objects)
    requires dir in tree ==> forall o :: o in more <==> Adds(tree, dir, q, o)
    requires dir !in tree ==> more == []
    ensures FoundSoFar(tree, q, seen + {dir}, objects + more)
  {
    hide Adds;
    forall o
      ensures o in objects + more <==> exists d :: d in seen + {dir} && d in tree && Adds(tree, d, q, o)
    {
      if o in objects {
        var d :| d in seen && d in tree && Adds(tree, d, q, o);
        assert d in seen + {dir};
      } else if o in more {
        assert dir in seen + {dir} && Adds(tree, dir, q, o);
      }
    }
  }

  lemma NestedGrows(tree: Tree, q: Query, seen: set<string>, nested: seq<string>, dir: string, more: seq<string>)
    requires NestedSoFar(tree, q, seen, nested)
    requires dir in tree ==> forall t :: t in more <==>
               exists c :: c in tree[dir].children && c.name != "" && t == JoinPath(dir, c.name) &&
                 IsNestedTable(c, t, q)
    requires dir !in tree ==> more == []
    ensures NestedSoFar(tree, q, seen + {dir}, nested + more)
  {
    hide IsNestedTable, JoinPath;
    forall t
      ensures t in nested + more <==>
        exists d, c :: d in seen + {dir} && d in tree && c in tree[d].children && c.name != ""
                       && t == JoinPath(d, c.name) && IsNestedTable(c, t, q)
    {
      if t in nested {
        var d, c :| d in seen && d in tree && c in tree[d].children && c.name != ""
                     && t == JoinPath(d, c.name) && IsNestedTable(c, t, q);
        assert d in seen + {dir};
      } else if t in more {
        assert dir in seen + {dir};
      }
    }
  }

  lemma FrontierSkips(tree: Tree, start: string, q: Query, seen: set<string>, queue: seq<string>)
    requires queue != [] && queue[0] in seen && Frontier(tree, start, q, seen, queue)
    ensures Frontier(tree, start, q, seen, queue[1..])
  {
    hide Visited, Enters, JoinPath;
    assert queue == [queue[0]] + queue[1..];
    assert forall d :: d in queue <==> d == queue[0] || d in queue[1..];
  }

  lemma FrontierAdvances(tree: Tree, start: string, q: Query, seen: set<string>, queue: seq<string>, dirs: seq<string>)
    requires IsNormal(start) && GoodNames(tree)
    requires queue != [] && Frontier(tree, start, q, seen, queue)
    requires queue[0] in tree ==> forall d :: d in dirs <==>
               exists c :: c in tree[queue[0]].children && c.name != "" && d == JoinPath(queue[0], c.name) &&
                 Enters(c, d, q)
    requires queue[0] !in tree ==> dirs == []
    ensures Frontier(tree, start, q, seen + {queue[0]}, queue[1..] + dirs)
  {
    hide Visited, Enters, JoinPath, IsNormal;
    var path := queue[0];
    assert queue == [path] + queue[1..];
    assert forall d :: d in queue <==> d == path || d in queue[1..];
    forall d | d in dirs
      ensures Visited(tree, start, q, d)
    {
      var c :| c in tree[path].children && c.name != "" && d == JoinPath(path, c.name) && Enters(c, d, q);
      VisitedChild(tree, start, q, path, c);
    }
  }

  /** The walk: finds exactly the objects of the visited directories, whatever the shape of
      the scheme, and terminates. */
  method Walk(tree: Tree, start: string, q: Query)
    returns (objects: seq<Object>, nested: seq<string>, errors: seq<string>)
    requires IsNormal(start) && GoodNames(tree)
    ensures forall o :: o in objects <==> IsObject(tree, start, q, o)
    ensures forall t :: t in nested <==> IsNested(tree, start, q, t)
    ensures forall d :: d in errors <==> d !in tree && Visited(tree, start, q, d)
  {
    hide Visited, Adds, Enters, JoinPath, IsNormal, FoundSoFar, NestedSoFar, Frontier, Selects, IsNestedTable;
    objects, nested, errors := [], [], [];
    var queue := [start];
    var seen: set<string> := {};
    StartFrontier(tree, start, q);
    while queue != []
      invariant Frontier(tree, start, q, seen, queue)
      invariant FoundSoFar(tree, q, seen, objects)
      invariant NestedSoFar(tree, q, seen, nested)
      invariant forall d :: d in errors <==> d !in tree && d in seen
      decreases |tree.Keys - seen|, |queue|
    {
      var path := queue[0];
      if path in seen {
        FrontierSkips(tree, start, q, seen, queue);
        queue := queue[1..];
        continue;
      }
      if path !in tree {
        FrontierAdvances(tree, start, q, seen, queue, []);
        FoundGrows(tree, q, seen, objects, path, []);
        NestedGrows(tree, q, seen, nested, path, []);
        assert queue[1..] + [] == queue[1..] && objects + [] == objects && nested + [] == nested;
        assert tree.Keys - (seen + {path}) == tree.Keys - seen;
        seen, queue, errors := seen + {path}, queue[1..], errors + [path];
        continue;
      }
      var self: seq<Object> := [];
      if Selects(path, tree[path].self, q) {
        self := [Object(path, tree[path].self)];
      }
      var f := ListChildren(path, tree[path].children, q);
      FromChildrenHas(path, tree[path].children, q);
      SelfAndChildren(tree, path, q, self, f);
      FrontierAdvances(tree, start, q, seen, queue, f.dirs);
      FoundGrows(tree, q, seen, objects, path, self + f.objects);
      NestedGrows(tree, q, seen, nested, path, f.nested);
      Shrinks(tree.Keys, seen, path);
      objects, nested := objects + (self + f.objects), nested + f.nested;
      seen, queue := seen + {path}, queue[1..] + f.dirs;
    }
    WalkIsComplete(tree, start, q, seen, objects, nested);
  }

  lemma StartFrontier(tree: Tree, start: string, q: Query)
    ensures Frontier(tree, start, q, {}, [start])
    ensures FoundSoFar(tree, q, {}, []) && NestedSoFar(tree, q, {}, [])
  {
  }

  lemma Shrinks(keys: set<string>, seen: set<string>, path: string)
    requires path in keys && path !in seen
    ensures |keys - (seen + {path})| < |keys - seen|
  {
    assert keys - seen == (keys - (seen + {path})) + {path};
  }

  lemma SelfAndChildren(tree: Tree, path: string, q: Query, self: seq<Object>, f: Found)
    requires path in tree && f == FromChildren(path, tree[path].children, q)
    requires self == if Selects(path, tree[path].self, q) then [Object(path, tree[path].self)] else []
    ensures forall o :: o in self + f.objects <==> Adds(tree, path, q, o)
  {
    hide Selects, JoinPath;
    FromChildrenHas(path, tree[path].children, q);
  }

  lemma WalkIsComplete(tree: Tree, start: string, q: Query, seen: set<string>, objects: seq<Object>,
                       nested: seq<string>)
    requires Frontier(tree, start, q, seen, [])
    requires FoundSoFar(tree, q, seen, objects) && NestedSoFar(tree, q, seen, nested)
    ensures forall o :: o in objects <==> IsObject(tree, start, q, o)
    ensures forall t :: t in nested <==> IsNested(tree, start, q, t)
    ensures forall d :: d in seen <==> Visited(tree, start, q, d)
  {
    hide Visited, Adds, Enters, JoinPath, IsNestedTable, Frontier;
    forall d
      ensures d in seen <==> Visited(tree, start, q, d)
    {
      EmptyQueueIsComplete(tree, start, q, seen, d);
    }
  }

  // ---------- objects.sort() and the removal of duplicate paths ----------

  predicate ObjectLess(a: Object, b: Object) {
    Less(a.path, b.path) || (a.path == b.path && Less(a.kind, b.kind))
  }

  lemma ObjectLessIsStrict()
    ensures StrictOrder(ObjectLess)
    ensures forall s :: TotalOn(ObjectLess, s)
  {
    hide Less;
    LessIsStrict();
    forall a, b
      ensures a == b || ObjectLess(a, b) || ObjectLess(b, a)
    {
      LessTotal(a.path, b.path);
      LessTotal(a.kind, b.kind);
    }
  }

  /** In order of paths, each path once. */
  ghost predicate PathSorted(r: seq<Object>) {
    forall i, j :: 0 <= i < j < |r| ==> Less(r[i].path, r[j].path)
  }

  predicate HasPath(s: seq<Object>, path: string) {
    exists o :: o in s && o.path == path
  }

  function AddIfNew(unique: seq<Object>, o: Object): seq<Object> {
    if HasPath(unique, o.path) then unique else unique + [o]
  }

  /** The first of each path in a list. */
  function FirstOfEach(sorted: seq<Object>): seq<Object> {
    if sorted == [] then []
    else AddIfNew(FirstOfEach(sorted[..|sorted| - 1]), sorted[|sorted| - 1])
  }

  ghost predicate IsLeast(s: seq<Object>, o: Object) {
    o in s && forall p :: p in s && p.path == o.path ==> !Less(p.kind, o.kind)
  }

  ghost predicate SamePaths(s: seq<Object>, r: seq<Object>) {
    && (forall o :: o in r ==> o in s)
    && (forall o :: o in s ==> HasPath(r, o.path))
  }

  /** No element of s comes after o. */
  ghost predicate NoneAfter(s: seq<Object>, o: Object) {
    forall p :: p in s ==> !ObjectLess(o, p)
  }

  lemma InitSorted(init: seq<Object>, last: Object)
    requires Order.Sorted(ObjectLess, init + [last])
    ensures Order.Sorted(ObjectLess, init) && NoneAfter(init, last)
  {
    hide ObjectLess;
    var s := init + [last];
    forall i, j | 0 <= i < j < |init|
      ensures !ObjectLess(init[j], init[i])
    {
      assert s[i] == init[i] && s[j] == init[j];
    }
    forall p | p in init
      ensures !ObjectLess(last, p)
    {
      var i :| 0 <= i < |init| && init[i] == p;
      assert s[i] == p && s[|init|] == last;
    }
  }

  lemma SamePathsStep(init: seq<Object>, r: seq<Object>, last: Object)
    requires SamePaths(init, r)
    ensures SamePaths(init + [last], AddIfNew(r, last))
  {
    var s, t := init + [last], AddIfNew(r, last);
    assert forall o :: o in s <==> o in init || o == last;
    assert forall o :: o in r + [last] <==> o in r || o == last;
    forall o | o in s
      ensures HasPath(t, o.path)
    {
      if o == last {
        if !HasPath(r, last.path) {
          assert last in t;
        }
      } else {
        var p :| p in r && p.path == o.path;
        assert p in t;
      }
    }
  }

  lemma PathSortedStep(init: seq<Object>, r: seq<Object>, last: Object)
    requires SamePaths(init, r) && NoneAfter(init, last) && PathSorted(r)
    ensures PathSorted(AddIfNew(r, last))
  {
    hide Less;
    if !HasPath(r, last.path) {
      forall o | o in r
        ensures Less(o.path, last.path)
      {
        LessTotal(o.path, last.path);
      }
    }
  }

  lemma LeastStep(init: seq<Object>, r: seq<Object>, last: Object)
    requires SamePaths(init, r) && NoneAfter(init, last)
    requires forall o :: o in r ==> IsLeast(init, o)
    ensures forall o :: o in AddIfNew(r, last) ==> IsLeast(init + [last], o)
  {
    hide Less;
    assert forall p :: p in init + [last] <==> p in init || p == last;
    assert forall o :: o in r + [last] <==> o in r || o == last;
    LessIrreflexive(last.kind);
  }

  lemma {:induction false} FirstOfEachHas(sorted: seq<Object>)
    requires Order.Sorted(ObjectLess, sorted)
    ensures var r := FirstOfEach(sorted);
            PathSorted(r) && SamePaths(sorted, r) && forall o :: o in r ==> IsLeast(sorted, o)
  {
    hide Less, ObjectLess, Order.Sorted, PathSorted, SamePaths, IsLeast, AddIfNew;
    if sorted == [] {
      NoneFirst();
    } else {
      var init, last := sorted[..|sorted| - 1], sorted[|sorted| - 1];
      assert sorted == init + [last];
      InitSorted(init, last);
      FirstOfEachHas(init);
      SamePathsStep(init, FirstOfEach(init), last);
      PathSortedStep(init, FirstOfEach(init), last);
      LeastStep(init, FirstOfEach(init), last);
    }
  }

  lemma NoneFirst()
    ensures PathSorted([]) && SamePaths([], [])
  {
  }

  method SortAndUnique(objects: seq<Object>) returns (unique: seq<Object>)
    ensures unique == FirstOfEach(Sort(ObjectLess, objects))
  {
    var sorted := Sort(ObjectLess, objects);
    unique := [];
    var seen: set<string> := {};
    for i := 0 to |sorted|
      invariant unique == FirstOfEach(sorted[..i])
      invariant forall p :: p in seen <==> exists o :: o in unique && o.path == p
    {
      assert sorted[..i + 1][..i] == sorted[..i];
      if sorted[i].path in seen {
        continue;
      }
      seen := seen + {sorted[i].path};
      unique := unique + [sorted[i]];
    }
    assert sorted[..|sorted|] == sorted;
  }

  /** What `collect_objects` returns: sorted by path, each path once, with the least kind
      the walk found for it. */
  ghost predicate IsResult(tree: Tree, start: string, q: Query, r: seq<Object>) {
    && PathSorted(r)
    && (forall o :: o in r ==> IsObject(tree, start, q, o)
                               && forall k :: IsObject(tree, start, q, Object(o.path, k)) ==> !Less(k, o.kind))
    && (forall o :: IsObject(tree, start, q, o) ==> HasPath(r, o.path))
  }

  method CollectObjects(tree: Tree, start: string, q: Query)
    returns (unique: seq<Object>, errors: seq<string>, nested: seq<string>)
    requires IsNormal(start) && GoodNames(tree)
    ensures IsResult(tree, start, q, unique)
    ensures Ascending(nested) && forall t :: t in nested <==> IsNested(tree, start, q, t)
    ensures forall d :: d in errors <==> d !in tree && Visited(tree, start, q, d)
  {
    hide IsObject, IsNested, Visited, IsNormal;
    var objects;
    objects, nested, errors := Walk(tree, start, q);
    unique := SortAndUnique(objects);
    SortedResult(tree, start, q, objects);
    SortNamesSorts(nested);
    nested := SortNames(nested);
  }

  lemma SortedResult(tree: Tree, start: string, q: Query, objects: seq<Object>)
    requires forall o :: o in objects <==> IsObject(tree, start, q, o)
    ensures IsResult(tree, start, q, FirstOfEach(Sort(ObjectLess, objects)))
  {
    hide IsObject, Less, ObjectLess, FirstOfEach, PathSorted, Sort, HasPath;
    var sorted := Sort(ObjectLess, objects);
    SortMembers(ObjectLess, objects);
    ObjectLessIsStrict();
    SortSorts(ObjectLess, objects);
    FirstOfEachHas(sorted);
    forall o, k | o in FirstOfEach(sorted) && IsObject(tree, start, q, Object(o.path, k))
      ensures !Less(k, o.kind)
    {
      assert Object(o.path, k) in sorted && IsLeast(sorted, o);
    }
  }

  // ---------- the pruned walk and the full walk ----------

  /** The scheme as one consistent database: every directory that is listed can be listed
      itself and says the same type of itself, and every directory but the database is
      listed in its parent. */
  ghost predicate Database(tree: Tree, database: string) {
    && GoodNames(tree) && IsNormal(database) && database != "/" && database in tree
    && (forall d, c :: d in tree && c in tree[d].children && c.name != "" ==>
          if c.kind in DIRECTORY_TYPES
          then JoinPath(d, c.name) in tree && tree[JoinPath(d, c.name)].self == c.kind
          else JoinPath(d, c.name) !in tree)
    && (forall d :: d in tree ==> IsNormal(d))
    && (forall d :: d in tree && d != database && IsUnder(d, database) ==> HasListing(tree, d))
  }

  predicate HasListing(tree: Tree, path: string) {
    var dir := ParentOf(path);
    |dir| < |path| && dir in tree
    && exists c ::
         c in tree[dir].children && GoodName(c.name) && JoinPath(dir, c.name) == path && c.kind in DIRECTORY_TYPES
  }

  function Everything(q: Query): Query {
    q.(prefix := None)
  }

  /** A start for the walk to a prefix: a directory the full walk visits, at or above it. */
  ghost predicate StartsAbove(tree: Tree, database: string, start: string, q: Query) {
    q.prefix.Some? && start in tree && IsUnder(q.prefix.value, start) && Visited(tree, database, Everything(q), start)
  }

  lemma {:induction false} PrunedIsInFull(tree: Tree, database: string, start: string, q: Query, path: string)
    requires Visited(tree, database, Everything(q), start)
    requires Visited(tree, start, q, path)
    ensures Visited(tree, database, Everything(q), path)
    decreases |path|
  {
    if path != start {
      PrunedIsInFull(tree, database, start, q, ParentOf(path));
    }
  }

  lemma {:induction false} VisitedIsBelow(tree: Tree, start: string, q: Query, path: string)
    requires IsNormal(start) && start != "/" && GoodNames(tree) && Visited(tree, start, q, path)
    ensures IsNormal(path) && path != "/" && IsUnder(path, start)
    decreases |path|
  {
    hide IsNormal, JoinPath, GoodName;
    if path != start {
      var dir := ParentOf(path);
      VisitedIsBelow(tree, start, q, dir);
      var c :| c in tree[dir].children && c.name != "" && JoinPath(dir, c.name) == path;
      JoinedPath(dir, c.name);
      ParentIsAbove(dir, c.name);
      UnderTransitive(path, dir, start);
    }
  }

  lemma UnderAntisymmetric(a: string, b: string)
    requires IsUnder(a, b) && IsUnder(b, a)
    ensures a == b
  {
  }

  /** Pruning never cuts off a directory on the way to something under the prefix. */
  lemma {:induction false} FullIsInPruned(tree: Tree, database: string, start: string, q: Query, path: string,
                                          target: string)
    requires Database(tree, database) && StartsAbove(tree, database, start, q)
    requires Visited(tree, database, Everything(q), path) && IsUnder(path, start)
    requires IsUnder(target, path) && IsUnder(target, q.prefix.value)
    ensures Visited(tree, start, q, path)
    decreases |path|
  {
    hide IsNormal, IsUnder, JoinPath, GoodName;
    VisitedIsBelow(tree, database, Everything(q), start);
    if path == database {
      UnderAntisymmetric(database, start);
    } else if path != start {
      var dir := ParentOf(path);
      var c :| c in tree[dir].children && c.name != "" && JoinPath(dir, c.name) == path &&
            Enters(c, path, Everything(q));
      VisitedIsBelow(tree, database, Everything(q), dir);
      UnderParent(dir, c.name, start);
      ParentIsAbove(dir, c.name);
      UnderTransitive(target, path, dir);
      FullIsInPruned(tree, database, start, q, dir, target);
      UnderComparable(target, path, q.prefix.value);
    }
  }

  lemma PrunedObjectIsInFull(tree: Tree, database: string, start: string, q: Query, o: Object)
    requires StartsAbove(tree, database, start, q) && IsObject(tree, start, q, o)
    ensures IsObject(tree, database, Everything(q), o) && PathMatchesPrefix(o.path, q.prefix)
  {
    hide Visited, JoinPath;
    var d :| d in tree && Visited(tree, start, q, d) && Adds(tree, d, q, o);
    PrunedIsInFull(tree, database, start, q, d);
    assert Adds(tree, d, Everything(q), o);
  }

  lemma FullObjectIsInPruned(tree: Tree, database: string, start: string, q: Query, o: Object)
    requires Database(tree, database) && StartsAbove(tree, database, start, q)
    requires IsObject(tree, database, Everything(q), o) && PathMatchesPrefix(o.path, q.prefix)
    ensures IsObject(tree, start, q, o)
  {
    hide Visited, JoinPath, IsUnder, IsNormal, GoodName;
    var full := Everything(q);
    var d :| d in tree && Visited(tree, database, full, d) && Adds(tree, d, full, o);
    UnderTransitive(o.path, q.prefix.value, start);
    VisitedIsBelow(tree, database, full, d);
    VisitedIsBelow(tree, database, full, start);
    if o == Object(d, tree[d].self) {
      SelfUnder(d);
      FullIsInPruned(tree, database, start, q, d, d);
    } else {
      var c :| c in tree[d].children && c.name != "" && o == Object(JoinPath(d, c.name), c.kind);
      if o.path == start {
        StartVisited(tree, start, q);
        assert Adds(tree, start, q, o);
      } else {
        UnderParent(d, c.name, start);
        ParentIsAbove(d, c.name);
        FullIsInPruned(tree, database, start, q, d, o.path);
      }
    }
    if d in tree && Visited(tree, start, q, d) {
      assert Adds(tree, d, q, o);
    }
  }

  lemma SelfUnder(path: string)
    ensures IsUnder(path, path)
  {
  }

  lemma StartVisited(tree: Tree, start: string, q: Query)
    ensures Visited(tree, start, q, start)
  {
  }

  function Filtered(objects: seq<Object>, prefix: string): seq<Object> {
    if objects == [] then []
    else (if IsUnder(objects[0].path, prefix) then [objects[0]] else []) + Filtered(objects[1..], prefix)
  }

  lemma {:induction false} FilteredHas(objects: seq<Object>, prefix: string)
    requires PathSorted(objects)
    ensures forall o :: o in Filtered(objects, prefix) <==> o in objects && IsUnder(o.path, prefix)
    ensures PathSorted(Filtered(objects, prefix))
  {
    hide Less, IsUnder;
    if objects != [] {
      PathSortedTail(objects);
      FilteredHas(objects[1..], prefix);
      var rest := Filtered(objects[1..], prefix);
      assert forall o :: o in objects <==> o == objects[0] || o in objects[1..];
      forall i | 0 <= i < |rest|
        ensures Less(objects[0].path, rest[i].path)
      {
        assert rest[i] in objects[1..];
      }
    }
  }

  lemma PathSortedTail(objects: seq<Object>)
    requires PathSorted(objects) && objects != []
    ensures PathSorted(objects[1..])
    ensures forall o :: o in objects[1..] ==> Less(objects[0].path, o.path)
    ensures forall o :: o in objects[1..] <==> o in objects && o != objects[0]
  {
    hide Less;
    LessIrreflexive(objects[0].path);
    assert forall o :: o in objects <==> o == objects[0] || o in objects[1..];
    forall o | o in objects[1..]
      ensures Less(objects[0].path, o.path)
    {
      var i :| 0 <= i < |objects[1..]| && objects[1..][i] == o;
      assert objects[i + 1] == o;
    }
  }

  /** A list sorted by path is determined by its members. */
  lemma {:induction false} PathSortedIsUnique(a: seq<Object>, b: seq<Object>)
    requires PathSorted(a) && PathSorted(b)
    requires forall o :: o in a <==> o in b
    ensures a == b
  {
    hide Less, PathSorted;
    if a == [] {
      HeadMember(b);
    } else {
      assert a[0] in b && b[0] in a;
      PathSortedTail(a);
      PathSortedTail(b);
      if a[0] != b[0] {
        LessTransitive(a[0].path, b[0].path, a[0].path);
        LessIrreflexive(a[0].path);
      }
      PathSortedIsUnique(a[1..], b[1..]);
    }
  }

  /** The walk limited to a prefix returns exactly the objects under the prefix that the
      walk over the whole database returns, in the same order, each path once. */
  lemma PrunedWalkIsFilteredWalk(tree: Tree, database: string, start: string, q: Query, pruned: seq<Object>,
                                 full: seq<Object>)
    requires Database(tree, database) && StartsAbove(tree, database, start, q)
    requires IsResult(tree, start, q, pruned) && IsResult(tree, database, Everything(q), full)
    ensures pruned == Filtered(full, q.prefix.value)
  {
    hide IsObject, IsUnder, Less, PathSorted, Database, Visited;
    var prefix := q.prefix.value;
    FilteredHas(full, prefix);
    forall o
      ensures IsObject(tree, start, q, o) <==> IsObject(tree, database, Everything(q), o) && IsUnder(o.path, prefix)
    {
      if IsObject(tree, start, q, o) {
        PrunedObjectIsInFull(tree, database, start, q, o);
      } else if IsObject(tree, database, Everything(q), o) && IsUnder(o.path, prefix) {
        FullObjectIsInPruned(tree, database, start, q, o);
      }
    }
    forall o
      ensures o in pruned <==> o in full && IsUnder(o.path, prefix)
    {
      SameLeast(tree, database, start, q, pruned, full, o);
    }
    PathSortedIsUnique(pruned, Filtered(full, prefix));
  }

  lemma SameLeast(tree: Tree, database: string, start: string, q: Query, pruned: seq<Object>, full: seq<Object>,
                  o: Object)
    requires q.prefix.Some?
    requires IsResult(tree, start, q, pruned) && IsResult(tree, database, Everything(q), full)
    requires forall p :: IsObject(tree, start, q, p) <==>
               IsObject(tree, database, Everything(q), p) && IsUnder(p.path, q.prefix.value)
    ensures o in pruned <==> o in full && IsUnder(o.path, q.prefix.value)
  {
    hide IsObject, IsUnder, Less, PathSorted;
    if o in pruned {
      var p :| p in full && p.path == o.path;
      assert IsObject(tree, start, q, Object(p.path, p.kind));
      LessTotal(p.kind, o.kind);
    } else if o in full && IsUnder(o.path, q.prefix.value) {
      var p :| p in pruned && p.path == o.path;
      assert IsObject(tree, database, Everything(q), Object(p.path, p.kind));
      LessTotal(p.kind, o.kind);
    }
  }

  // ---------- the nested tables of the two walks ----------

  /** Everything between the database and a visited directory is a directory. */
  lemma {:induction false} VisitedAbove(tree: Tree, database: string, q: Query, path: string, above: string)
    requires GoodNames(tree) && IsNormal(database) && database != "/" && IsNormal(above) && above != "/"
    requires path in tree && Visited(tree, database, q, path)
    requires IsUnder(path, above) && IsUnder(above, database)
    ensures above in tree
    decreases |path|
  {
    hide IsNormal, IsUnder, JoinPath, GoodName;
    if path == database {
      UnderAntisymmetric(path, above);
    } else if path != above {
      var dir := ParentOf(path);
      var c :| c in tree[dir].children && c.name != "" && JoinPath(dir, c.name) == path;
      VisitedIsBelow(tree, database, q, dir);
      UnderParent(dir, c.name, above);
      VisitedAbove(tree, database, q, dir, above);
    }
  }

  lemma TableIsNoDirectory(tree: Tree, database: string, dir: string, c: Child)
    requires Database(tree, database) && dir in tree && c in tree[dir].children && c.name != "" && c.kind == "TABLE"
    ensures JoinPath(dir, c.name) !in tree && GoodName(c.name)
  {
    hide JoinPath, GoodName, IsNormal;
  }

  /** The directory of a nested table that the full walk finds lies at or below the start. */
  lemma NestedBelowStart(tree: Tree, database: string, start: string, q: Query, dir: string, c: Child)
    requires Database(tree, database) && StartsAbove(tree, database, start, q)
    requires dir in tree && Visited(tree, database, Everything(q), dir)
    requires c in tree[dir].children && c.name != "" && c.kind == "TABLE" &&
             PathsIntersect(JoinPath(dir, c.name), q.prefix)
    ensures IsUnder(dir, start)
  {
    hide IsNormal, IsUnder, JoinPath, GoodName, Visited;
    var t, prefix := JoinPath(dir, c.name), q.prefix.value;
    TableIsNoDirectory(tree, database, dir, c);
    VisitedIsBelow(tree, database, Everything(q), dir);
    VisitedIsBelow(tree, database, Everything(q), start);
    ParentIsAbove(dir, c.name);
    JoinedPath(dir, c.name);
    if IsUnder(t, prefix) {
      UnderTransitive(t, prefix, start);
    } else {
      UnderComparable(prefix, t, start);
      UnderTransitive(t, dir, database);
      if IsUnder(start, t) {
        VisitedAbove(tree, database, Everything(q), start, t);
      }
    }
    UnderParent(dir, c.name, start);
  }

  /** The pruned walk notes exactly the nested tables of the full walk that lie under the
      prefix or above it. */
  lemma PrunedNestedIsFiltered(tree: Tree, database: string, start: string, q: Query, t: string)
    requires Database(tree, database) && StartsAbove(tree, database, start, q)
    ensures IsNested(tree, start, q, t) <==> IsNested(tree, database, Everything(q), t) && PathsIntersect(t, q.prefix)
  {
    hide IsNormal, IsUnder, JoinPath, GoodName, Visited, Database, PathsIntersect;
    if IsNested(tree, start, q, t) {
      var d, c :| d in tree && Visited(tree, start, q, d) && c in tree[d].children && c.name != ""
                  && t == JoinPath(d, c.name) && IsNestedTable(c, t, q);
      PrunedIsInFull(tree, database, start, q, d);
      EverythingIntersects(t, q);
    }
    if IsNested(tree, database, Everything(q), t) && PathsIntersect(t, q.prefix) {
      var d, c :| d in tree && Visited(tree, database, Everything(q), d) && c in tree[d].children && c.name != ""
                  && t == JoinPath(d, c.name) && IsNestedTable(c, t, Everything(q));
      NestedBelowStart(tree, database, start, q, d, c);
      NestedDirIsPruned(tree, database, start, q, d, c);
    }
  }

  lemma EverythingIntersects(t: string, q: Query)
    ensures PathsIntersect(t, Everything(q).prefix)
  {
  }

  lemma NestedDirIsPruned(tree: Tree, database: string, start: string, q: Query, dir: string, c: Child)
    requires Database(tree, database) && StartsAbove(tree, database, start, q) && IsUnder(dir, start)
    requires dir in tree && Visited(tree, database, Everything(q), dir)
    requires c in tree[dir].children && c.name != "" && PathsIntersect(JoinPath(dir, c.name), q.prefix)
    ensures Visited(tree, start, q, dir)
  {
    hide IsNormal, IsUnder, JoinPath, GoodName, Visited;
    var t, prefix := JoinPath(dir, c.name), q.prefix.value;
    VisitedIsBelow(tree, database, Everything(q), dir);
    ParentIsAbove(dir, c.name);
    if IsUnder(t, prefix) {
      FullIsInPruned(tree, database, start, q, dir, t);
    } else {
      UnderTransitive(prefix, t, dir);
      SelfUnder(prefix);
      FullIsInPruned(tree, database, start, q, dir, prefix);
    }
  }

  // ---------- where the walk starts ----------

  predicate IsListedDirectory(tree: Tree, path: string) {
    path in tree && tree[path].self in DIRECTORY_TYPES
  }

  lemma BeforeIsBetween(path: string, database: string)
    requires IsUnder(path, database) && path != database
    ensures var parent := Before(path);
            && IsUnder(path, parent) && IsUnder(parent, database)
            && |parent| < |path| && |database| <= |parent|
            && forall y :: IsUnder(path, y) && IsUnder(y, parent) ==> y == path || y == parent
  {
    var k := LastSlash(path);
    assert path[|database|] == '/';
    assert k >= |database|;
    var parent := path[..k];
    assert path[..k + 1] == parent + "/";
    assert path[..|database| + 1] == database + "/";
    if k > |database| {
      assert parent[..|database| + 1] == database + "/";
    }
    forall m | k < m < |path|
      ensures path[m] != '/'
    {
      assert path[m] == path[k + 1..][m - k - 1];
    }
    forall y | IsUnder(path, y) && IsUnder(y, parent) && y != path
      ensures y == parent
    {
      assert path[|y|] == '/';
    }
  }

  /** The deepest listed directory at or above the prefix, or the database. */
  method ResolveStartPath(tree: Tree, database: string, prefix: Option<string>) returns (start: string)
    requires database != "" && (prefix.Some? ==> IsUnder(prefix.value, database))
    ensures prefix.None? ==> start == database
    ensures prefix.Some? ==>
              && IsUnder(prefix.value, start) && IsUnder(start, database)
              && (start == database || IsListedDirectory(tree, start))
              && forall y :: IsUnder(prefix.value, y) && IsUnder(y, start) && y != start ==> !IsListedDirectory(tree, y)
  {
    hide IsListedDirectory;
    if prefix.None? {
      return database;
    }
    if prefix.value == database {
      return database;
    }
    var candidate := prefix.value;
    while true
      invariant IsUnder(prefix.value, candidate) && IsUnder(candidate, database)
      invariant forall y :: IsUnder(prefix.value, y) && IsUnder(y, candidate) && y != candidate ==>
                !IsListedDirectory(tree, y)
      decreases |candidate|
    {
      if IsListedDirectory(tree, candidate) {
        return candidate;
      }
      var parent := Before(candidate);
      if candidate != database {
        BeforeIsBetween(candidate, database);
        UnderTransitive(prefix.value, candidate, parent);
        NothingBetween(tree, prefix.value, candidate, parent);
      }
      if parent == "" || parent == candidate || |parent| < |database| {
        return database;
      }
      candidate := parent;
    }
  }

  lemma NothingBetween(tree: Tree, prefix: string, candidate: string, parent: string)
    requires IsUnder(prefix, candidate) && IsUnder(candidate, parent)
    requires !IsListedDirectory(tree, candidate)
    requires forall y :: IsUnder(candidate, y) && IsUnder(y, parent) ==> y == candidate || y == parent
    requires forall y :: IsUnder(prefix, y) && IsUnder(y, candidate) && y != candidate ==> !IsListedDirectory(tree, y)
    ensures forall y :: IsUnder(prefix, y) && IsUnder(y, parent) && y != parent ==> !IsListedDirectory(tree, y)
  {
    hide IsUnder, IsListedDirectory;
    forall y | IsUnder(prefix, y) && IsUnder(y, parent) && y != parent
      ensures !IsListedDirectory(tree, y)
    {
      UnderComparable(prefix, y, candidate);
    }
  }

  /** No component of the path below the database starts with a dot. */
  predicate NoHidden(path: string, database: string) {
    forall k :: |database| <= k < |path| - 1 && path[k] == '/' ==> path[k + 1] != '.'
  }

  /** A directory without hidden components is reached by the full walk. */
  lemma {:induction false} FullWalkReaches(tree: Tree, database: string, q: Query, path: string)
    requires Database(tree, database) && path in tree && IsUnder(path, database)
    requires q.includeSys || NoHidden(path, database)
    ensures Visited(tree, database, Everything(q), path)
    decreases |path|
  {
    hide IsNormal, GoodName;
    if path != database {
      assert HasListing(tree, path);
      var dir := ParentOf(path);
      var c :| c in tree[dir].children && GoodName(c.name) && JoinPath(dir, c.name) == path &&
            c.kind in DIRECTORY_TYPES;
      UnderParent(dir, c.name, database);
      NamePosition(dir, c.name);
      DatabaseNotRoot(dir, database);
      NamedNotEmpty(c.name);
      FullWalkReaches(tree, database, q, dir);
      assert Enters(c, path, Everything(q));
    }
  }

  lemma NamedNotEmpty(name: string)
    requires GoodName(name)
    ensures name != ""
  {
  }

  lemma DatabaseNotRoot(dir: string, database: string)
    requires IsNormal(database) && database != "/" && IsUnder(dir, database)
    ensures dir != "/" && |database| <= |dir|
  {
  }

  lemma NamePosition(dir: string, name: string)
    requires IsNormal(dir) && GoodName(name)
    ensures var path := JoinPath(dir, name);
            dir != "/" ==>
              dir <= path && |path| == |dir| + 1 + |name| && path[|dir|] == '/' && path[|dir| + 1] == name[0]
  {
    JoinedPath(dir, name);
  }

  lemma DatabaseListed(tree: Tree, database: string)
    requires Database(tree, database)
    ensures database in tree
  {
    hide JoinPath, IsNormal, GoodName;
  }

  /** The start `resolve_start_path` picks for a prefix inside the database, none of whose
      components is hidden, satisfies the condition of PrunedWalkIsFilteredWalk. */
  lemma ResolvedStartsAbove(tree: Tree, database: string, q: Query, start: string)
    requires Database(tree, database) && q.prefix.Some? && IsUnder(q.prefix.value, database)
    requires q.includeSys || NoHidden(q.prefix.value, database)
    requires IsUnder(q.prefix.value, start) && IsUnder(start, database)
    requires start == database || IsListedDirectory(tree, start)
    ensures StartsAbove(tree, database, start, q)
  {
    hide Visited, Database, JoinPath, ParentOf, IsNormal, GoodName;
    DatabaseListed(tree, database);
    var prefix := q.prefix.value;
    assert start <= prefix;
    forall k | |database| <= k < |start| - 1 && start[k] == '/'
      ensures q.includeSys || start[k + 1] != '.'
    {
      assert prefix[k] == '/' && prefix[k + 1] == start[k + 1];
    }
    FullWalkReaches(tree, database, q, start);
  }
}
