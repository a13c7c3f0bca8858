/** Sorting as Python's `sorted` does it: stable, by a strict order.  When the elements are
    pairwise comparable the result does not depend on their order in the input. */
module Order {

  ghost predicate StrictOrder<T(!new)>(lt: (T, T) -> bool) {
    && (forall x :: !lt(x, x))
    && (forall x, y, z :: lt(x, y) && lt(y, z) ==> lt(x, z))
  }

  ghost predicate TotalOn<T>(lt: (T, T) -> bool, s: seq<T>) {
    forall x, y :: x in s && y in s ==> x == y || lt(x, y) || lt(y, x)
  }

  ghost predicate Sorted<T>(lt: (T, T) -> bool, s: seq<T>) {
    forall i, j :: 0 <= i < j < |s| ==> !lt(s[j], s[i])
  }

  function Insert<T>(lt: (T, T) -> bool, x: T, s: seq<T>): seq<T> {
    if s == [] || !lt(s[0], x) then [x] + s else [s[0]] + Insert(lt, x, s[1..])
  }

  function Sort<T>(lt: (T, T) -> bool, s: seq<T>): seq<T> {
    if s == [] then [] else Insert(lt, s[0], Sort(lt, s[1..]))
  }

  lemma {:induction false} InsertKeeps<T>(lt: (T, T) -> bool, x: T, s: seq<T>)
    ensures multiset(Insert(lt, x, s)) == multiset(s) + multiset{x}
  {
    if s != [] {
      assert s == [s[0]] + s[1..];
      if lt(s[0], x) {
        InsertKeeps(lt, x, s[1..]);
      }
    }
  }

  lemma {:induction false} SortKeeps<T>(lt: (T, T) -> bool, s: seq<T>)
    ensures multiset(Sort(lt, s)) == multiset(s)
  {
    if s != [] {
      assert s == [s[0]] + s[1..];
      SortKeeps(lt, s[1..]);
      InsertKeeps(lt, s[0], Sort(lt, s[1..]));
    }
  }

  lemma SortMembers<T>(lt: (T, T) -> bool, s: seq<T>)
    ensures |Sort(lt, s)| == |s|
    ensures forall x :: x in Sort(lt, s) <==> x in s
  {
    SortKeeps(lt, s);
    assert |multiset(Sort(lt, s))| == |multiset(s)|;
    forall x
      ensures x in Sort(lt, s) <==> x in s
    {
      assert x in Sort(lt, s) <==> x in multiset(Sort(lt, s));
      assert x in s <==> x in multiset(s);
    }
  }

  lemma {:induction false} InsertSorts<T(!new)>(lt: (T, T) -> bool, x: T, s: seq<T>)
    requires StrictOrder(lt) && TotalOn(lt, [x] + s) && Sorted(lt, s)
    ensures Sorted(lt, Insert(lt, x, s))
  {
    if s == [] || !lt(s[0], x) {
      var r := [x] + s;
      forall i, j | 0 <= i < j < |r|
        ensures !lt(r[j], r[i])
      {
        if i == 0 {
          assert s[0] in r && x in r;
          assert j > 1 ==> !lt(s[j - 1], s[0]);
        } else {
          assert !lt(s[j - 1], s[i - 1]);
        }
      }
    } else {
      var tail := s[1..];
      assert forall y :: y in [x] + tail ==> y in [x] + s;
      InsertSorts(lt, x, tail);
      InsertKeeps(lt, x, tail);
      var rest := Insert(lt, x, tail);
      forall j | 0 <= j < |rest|
        ensures !lt(rest[j], s[0])
      {
        assert rest[j] in multiset(tail) + multiset{x};
        if rest[j] != x {
          assert rest[j] in multiset(tail);
          assert rest[j] in tail;
          var k :| 0 <= k < |tail| && tail[k] == rest[j];
          assert !lt(s[k + 1], s[0]);
        }
      }
    }
  }

  lemma {:induction false} SortSorts<T(!new)>(lt: (T, T) -> bool, s: seq<T>)
    requires StrictOrder(lt) && TotalOn(lt, s)
    ensures Sorted(lt, Sort(lt, s))
  {
    if s != [] {
      SortSorts(lt, s[1..]);
      SortMembers(lt, s[1..]);
      assert forall y :: y in [s[0]] + Sort(lt, s[1..]) ==> y in s;
      InsertSorts(lt, s[0], Sort(lt, s[1..]));
    }
  }

  /** Two sorted lists of the same elements are the same list. */
  lemma {:induction false} SortedIsUnique<T(!new)>(lt: (T, T) -> bool, a: seq<T>, b: seq<T>)
    requires StrictOrder(lt) && TotalOn(lt, a) && Sorted(lt, a) && Sorted(lt, b)
    requires multiset(a) == multiset(b)
    ensures a == b
    decreases |a|
  {
    hide Sorted, TotalOn, StrictOrder;
    SameSize(a, b);
    if a != [] {
      FirstIsLeast(lt, a, b);
      TailSorted(lt, a);
      TailSorted(lt, b);
      SameTails(a, b);
      SortedIsUnique(lt, a[1..], b[1..]);
      SameWhole(a, b);
    }
  }

  lemma SameTails<T>(a: seq<T>, b: seq<T>)
    requires a != [] && b != [] && a[0] == b[0] && multiset(a) == multiset(b)
    ensures multiset(a[1..]) == multiset(b[1..])
  {
    TailCounts(a);
    TailCounts(b);
  }

  lemma TailCounts<T>(s: seq<T>)
    requires s != []
    ensures multiset(s[1..]) == multiset(s) - multiset{s[0]}
  {
    assert s == [s[0]] + s[1..];
  }

  lemma SameWhole<T>(a: seq<T>, b: seq<T>)
    requires a != [] && b != [] && a[0] == b[0] && a[1..] == b[1..]
    ensures a == b
  {
    assert a == [a[0]] + a[1..] && b == [b[0]] + b[1..];
  }

  lemma SameSize<T>(a: seq<T>, b: seq<T>)
    requires multiset(a) == multiset(b)
    ensures |a| == |b|
  {
    assert |multiset(a)| == |a| && |multiset(b)| == |b|;
  }

  lemma TailSorted<T(!new)>(lt: (T, T) -> bool, s: seq<T>)
    requires s != []
    ensures Sorted(lt, s) ==> Sorted(lt, s[1..])
    ensures TotalOn(lt, s) ==> TotalOn(lt, s[1..])
  {
  }

  lemma FirstIsLeast<T(!new)>(lt: (T, T) -> bool, a: seq<T>, b: seq<T>)
    requires StrictOrder(lt) && TotalOn(lt, a) && Sorted(lt, a) && Sorted(lt, b)
    requires multiset(a) == multiset(b) && a != [] && b != []
    ensures a[0] == b[0]
  {
    assert a[0] in multiset(b) && b[0] in multiset(a);
    var i :| 0 <= i < |b| && b[i] == a[0];
    var j :| 0 <= j < |a| && a[j] == b[0];
    assert i > 0 ==> !lt(b[i], b[0]);
    assert j > 0 ==> !lt(a[j], a[0]);
  }

  /** The order of the input does not matter. */
  lemma SortIgnoresOrder<T(!new)>(lt: (T, T) -> bool, a: seq<T>, b: seq<T>)
    requires StrictOrder(lt) && TotalOn(lt, a) && multiset(a) == multiset(b)
    ensures Sort(lt, a) == Sort(lt, b)
  {
    forall x | x in b
      ensures x in a
    {
      assert x in multiset(b);
    }
    SortKeeps(lt, a);
    SortKeeps(lt, b);
    SortMembers(lt, a);
    SortSorts(lt, a);
    SortSorts(lt, b);
    SortedIsUnique(lt, Sort(lt, a), Sort(lt, b));
  }

  function Map<T, U>(f: T -> U, s: seq<T>): (r: seq<U>)
    ensures |r| == |s| && forall i :: 0 <= i < |s| ==> r[i] == f(s[i])
  {
    if s == [] then [] else [f(s[0])] + Map(f, s[1..])
  }

  lemma {:induction false} InsertMap<T(!new)>(lt: (T, T) -> bool, f: T -> T, x: T, s: seq<T>)
    requires forall y, z :: lt(f(y), f(z)) == lt(y, z)
    ensures Insert(lt, f(x), Map(f, s)) == Map(f, Insert(lt, x, s))
  {
    if s != [] && lt(s[0], x) {
      InsertMap(lt, f, x, s[1..]);
      assert ([s[0]] + Insert(lt, x, s[1..]))[1..] == Insert(lt, x, s[1..]);
    } else {
      assert ([x] + s)[1..] == s;
    }
  }

  /** A change of the elements that the order does not see moves through the sort. */
  lemma {:induction false} SortMap<T(!new)>(lt: (T, T) -> bool, f: T -> T, s: seq<T>)
    requires forall y, z :: lt(f(y), f(z)) == lt(y, z)
    ensures Sort(lt, Map(f, s)) == Map(f, Sort(lt, s))
  {
    if s != [] {
      SortMap(lt, f, s[1..]);
      InsertMap(lt, f, s[0], Sort(lt, s[1..]));
    }
  }

  // ---------- lists without repetitions ----------

  ghost predicate NoDup<T>(s: seq<T>) {
    forall i, j :: 0 <= i < j < |s| ==> s[i] != s[j]
  }

  lemma {:induction false} NoDupCount<T>(s: seq<T>)
    ensures NoDup(s) <==> forall x :: multiset(s)[x] <= 1
  {
    if s != [] {
      assert s == [s[0]] + s[1..];
      NoDupCount(s[1..]);
      if NoDup(s) {
        assert forall j :: 0 <= j < |s[1..]| ==> s[1..][j] != s[0];
        assert s[0] !in s[1..];
      } else {
        NotNoDup(s);
        assert multiset(s) == multiset{s[0]} + multiset(s[1..]);
        if s[0] in s[1..] {
          assert multiset(s)[s[0]] > 1;
        } else {
          var x :| multiset(s[1..])[x] > 1;
          assert multiset(s)[x] > 1;
        }
      }
    }
  }

  lemma NotNoDup<T>(s: seq<T>)
    requires s != [] && !NoDup(s)
    ensures s[0] in s[1..] || !NoDup(s[1..])
  {
    var i, j :| 0 <= i < j < |s| && s[i] == s[j];
    if i == 0 {
      assert s[1..][j - 1] == s[0];
    } else {
      assert s[1..][i - 1] == s[1..][j - 1];
    }
  }

  lemma SortNoDup<T>(lt: (T, T) -> bool, s: seq<T>)
    requires NoDup(s)
    ensures NoDup(Sort(lt, s))
  {
    NoDupCount(s);
    SortKeeps(lt, s);
    NoDupCount(Sort(lt, s));
  }

  /** An element that keeps its rank keeps its place. */
  lemma SortReplace<T(!new)>(lt: (T, T) -> bool, s: seq<T>, p: nat, y: T) returns (q: nat)
    requires NoDup(s) && p < |s|
    requires lt(y, y) == lt(s[p], s[p])
    requires forall z :: lt(y, z) == lt(s[p], z) && lt(z, y) == lt(z, s[p])
    ensures q < |Sort(lt, s)| && Sort(lt, s)[q] == s[p]
    ensures Sort(lt, s[p := y]) == Sort(lt, s)[q := y]
  {
    var x := s[p];
    var f := z => if z == x then y else z;
    SortMap(lt, f, s);
    SortMembers(lt, s);
    SortNoDup(lt, s);
    assert x in s;
    q :| 0 <= q < |Sort(lt, s)| && Sort(lt, s)[q] == x;
    MapOne(f, s, p, y);
    MapOne(f, Sort(lt, s), q, y);
  }

  lemma MapOne<T(!new)>(f: T -> T, s: seq<T>, p: nat, y: T)
    requires NoDup(s) && p < |s| && f(s[p]) == y
    requires forall z :: z != s[p] ==> f(z) == z
    ensures Map(f, s) == s[p := y]
  {
    forall i | 0 <= i < |s|
      ensures Map(f, s)[i] == s[p := y][i]
    {
      if i < p {
        assert s[i] != s[p];
      } else if p < i {
        assert s[p] != s[i];
      }
    }
  }

  lemma RemoveAt<T>(s: seq<T>, i: nat)
    requires i < |s|
    ensures multiset(s[..i] + s[i + 1..]) == multiset(s) - multiset{s[i]}
  {
    assert s == s[..i] + ([s[i]] + s[i + 1..]);
  }

  /** Two places of one list are two places of any other order of it. */
  lemma TwoPlaces<T>(s: seq<T>, t: seq<T>, i: nat, j: nat) returns (a: nat, b: nat)
    requires multiset(s) == multiset(t) && i < j < |s|
    ensures a < |t| && b < |t| && a != b && t[a] == s[i] && t[b] == s[j]
  {
    a := SamePlace(s, t, i);
    RemoveAt(s, i);
    RemoveAt(t, a);
    var c := SamePlace(s[..i] + s[i + 1..], t[..a] + t[a + 1..], j - 1);
    b := if c < a then c else c + 1;
  }

  lemma SamePlace<T>(s: seq<T>, t: seq<T>, i: nat) returns (a: nat)
    requires multiset(s) == multiset(t) && i < |s|
    ensures a < |t| && t[a] == s[i]
  {
    assert s[i] in multiset(t);
    a :| 0 <= a < |t| && t[a] == s[i];
  }

  ghost predicate Comparable<T>(lt: (T, T) -> bool, s: seq<T>) {
    forall i, j :: 0 <= i < j < |s| ==> lt(s[i], s[j]) || lt(s[j], s[i])
  }

  ghost predicate StrictlySorted<T>(lt: (T, T) -> bool, s: seq<T>) {
    forall i, j :: 0 <= i < j < |s| ==> lt(s[i], s[j])
  }

  lemma ComparableTotal<T>(lt: (T, T) -> bool, s: seq<T>)
    requires Comparable(lt, s)
    ensures TotalOn(lt, s)
  {
    forall x, y | x in s && y in s
      ensures x == y || lt(x, y) || lt(y, x)
    {
      var i :| 0 <= i < |s| && s[i] == x;
      var j :| 0 <= j < |s| && s[j] == y;
    }
  }

  /** Elements that are all comparable come out strictly in order. */
  lemma SortStrict<T(!new)>(lt: (T, T) -> bool, s: seq<T>)
    requires StrictOrder(lt) && Comparable(lt, s)
    ensures StrictlySorted(lt, Sort(lt, s))
  {
    ComparableTotal(lt, s);
    SortSorts(lt, s);
    SortKeeps(lt, s);
    var t := Sort(lt, s);
    forall i, j | 0 <= i < j < |t|
      ensures lt(t[i], t[j])
    {
      var a, b := TwoPlaces(t, s, i, j);
      assert a < b || b < a;
    }
  }

  // ---------- strings, by code point ----------

  predicate Less(a: string, b: string) {
    b != "" && (a == "" || a[0] < b[0] || (a[0] == b[0] && Less(a[1..], b[1..])))
  }

  lemma {:induction false} LessIrreflexive(a: string)
    ensures !Less(a, a)
  {
    if a != "" {
      LessIrreflexive(a[1..]);
    }
  }

  lemma {:induction false} LessTransitive(a: string, b: string, c: string)
    requires Less(a, b) && Less(b, c)
    ensures Less(a, c)
  {
    if a != "" && a[0] == b[0] == c[0] {
      LessTransitive(a[1..], b[1..], c[1..]);
    }
  }

  lemma {:induction false} LessTotal(a: string, b: string)
    ensures a == b || Less(a, b) || Less(b, a)
  {
    if a != "" && b != "" && a[0] == b[0] {
      LessTotal(a[1..], b[1..]);
      assert a == [a[0]] + a[1..] && b == [b[0]] + b[1..];
    }
  }

  lemma LessIsStrict()
    ensures StrictOrder(Less)
    ensures forall s :: TotalOn(Less, s)
  {
    forall a
      ensures !Less(a, a)
    {
      LessIrreflexive(a);
    }
    forall a, b, c | Less(a, b) && Less(b, c)
      ensures Less(a, c)
    {
      LessTransitive(a, b, c);
    }
    forall a, b
      ensures a == b || Less(a, b) || Less(b, a)
    {
      LessTotal(a, b);
    }
  }

  /** `sorted(set(names))`: in order, each name once. */
  function InsertName(x: string, s: seq<string>): seq<string> {
    if s == [] then [x]
    else if x == s[0] then s
    else if Less(x, s[0]) then [x] + s
    else [s[0]] + InsertName(x, s[1..])
  }

  function SortNames(names: seq<string>): seq<string> {
    if names == [] then [] else InsertName(names[0], SortNames(names[1..]))
  }

  ghost predicate Ascending(s: seq<string>) {
    forall i, j :: 0 <= i < j < |s| ==> Less(s[i], s[j])
  }

  lemma {:induction false} InsertNameHas(x: string, s: seq<string>)
    ensures forall y :: y in InsertName(x, s) <==> y == x || y in s
  {
    hide Less;
    if s != [] {
      InsertNameHas(x, s[1..]);
      assert forall y :: y in s <==> y == s[0] || y in s[1..];
    }
  }

  lemma AscendingCons(x: string, s: seq<string>)
    requires Ascending(s) && (s != [] ==> Less(x, s[0]))
    ensures Ascending([x] + s)
  {
    hide Less;
    forall i | 0 <= i < |s|
      ensures Less(x, s[i])
    {
      if i > 0 {
        LessTransitive(x, s[0], s[i]);
      }
    }
  }

  lemma {:induction false} InsertNameAscends(x: string, s: seq<string>)
    requires Ascending(s)
    ensures Ascending(InsertName(x, s))
    ensures InsertName(x, s)[0] == if s == [] || Less(x, s[0]) then x else s[0]
  {
    hide Less;
    if s == [] || Less(x, s[0]) {
      if s != [] {
        LessIrreflexive(x);
      }
      AscendingCons(x, s);
    } else if x != s[0] {
      LessTotal(x, s[0]);
      InsertNameAscends(x, s[1..]);
      AscendingCons(s[0], InsertName(x, s[1..]));
    }
  }

  lemma {:induction false} SortNamesSorts(names: seq<string>)
    ensures Ascending(SortNames(names))
    ensures forall y :: y in SortNames(names) <==> y in names
  {
    hide Less;
    if names != [] {
      SortNamesSorts(names[1..]);
      InsertNameAscends(names[0], SortNames(names[1..]));
      InsertNameHas(names[0], SortNames(names[1..]));
      assert forall y :: y in names <==> y == names[0] || y in names[1..];
    }
  }

  lemma HeadMember<T>(s: seq<T>)
    ensures s != [] ==> s[0] in s
  {
  }

  /** An ascending list is determined by its members. */
  lemma {:induction false} AscendingIsUnique(a: seq<string>, b: seq<string>)
    requires Ascending(a) && Ascending(b)
    requires forall y :: y in a <==> y in b
    ensures a == b
  {
    hide Less;
    if a == [] {
      HeadMember(b);
    } else {
      assert a[0] in b && b[0] in a;
      AscendingFirst(a, b);
      AscendingTail(a);
      AscendingTail(b);
      AscendingIsUnique(a[1..], b[1..]);
    }
  }

  lemma AscendingFirst(a: seq<string>, b: seq<string>)
    requires Ascending(a) && Ascending(b) && a != [] && b != [] && a[0] in b && b[0] in a
    ensures a[0] == b[0]
  {
    hide Less;
    var i :| 0 <= i < |b| && b[i] == a[0];
    var j :| 0 <= j < |a| && a[j] == b[0];
    if i > 0 && j > 0 {
      LessTransitive(a[0], b[0], a[0]);
      LessIrreflexive(a[0]);
    }
  }

  lemma AscendingTail(a: seq<string>)
    requires Ascending(a) && a != []
    ensures Ascending(a[1..])
    ensures forall y :: y in a[1..] <==> y in a && y != a[0]
  {
    hide Less;
    LessIrreflexive(a[0]);
    assert forall y :: y in a <==> y == a[0] || y in a[1..];
    forall y | y in a[1..]
      ensures y != a[0]
    {
      var i :| 0 <= i < |a[1..]| && a[1..][i] == y;
      assert Less(a[0], a[i + 1]);
    }
  }
}
