/** `_process_scheme`, `_write_checksum` and `process_prefix` on a mutable store, proved to
    perform exactly the writes of SchemeStore, and what a run over many scheme files does. */
module SchemeRun {
  import opened Wrappers
  import opened Order
  import opened PythonText
  import opened SchemeRewrite
  import opened Checksum
  import opened SchemeStore

  /** What becomes of one write: made; refused with an exception; made, but the caller gets
      an exception all the same. */
  datatype Fate = Made | Refused | MadeUnseen

  /** One write: the objects and the fates after it, and whether the caller goes on.  When no
      fate is left the process has been killed. */
  function WriteOne(objects: Objects, fates: seq<Fate>, w: Write): (Objects, seq<Fate>, bool) {
    if fates == [] then (objects, [], false)
    else (if fates[0].Refused? then objects else objects[w.key := w.body], fates[1..], fates[0].Made?)
  }

  /** Several writes, up to the first that raises. */
  function Perform(objects: Objects, fates: seq<Fate>, writes: seq<Write>): (Objects, seq<Fate>, bool)
    decreases |writes|
  {
    if writes == [] then (objects, fates, true)
    else
      var (next, rest, ok) := WriteOne(objects, fates, writes[0]);
      if ok then Perform(next, rest, writes[1..]) else (next, rest, false)
  }

  class ObjectStore {
    var objects: Objects
    var fates: seq<Fate>

    constructor (objects: Objects, fates: seq<Fate>)
      ensures this.objects == objects && this.fates == fates
    {
      this.objects := objects;
      this.fates := fates;
    }

    method Put(key: string, body: Body) returns (ok: bool)
      modifies this
      ensures (objects, fates, ok) == WriteOne(old(objects), old(fates), Write(key, body))
    {
      if fates == [] {
        return false;
      }
      ok := fates[0].Made?;
      if !fates[0].Refused? {
        objects := objects[key := body];
      }
      fates := fates[1..];
    }

    method Copy(source: string, target: string) returns (ok: bool)
      requires source in objects
      modifies this
      ensures (objects, fates, ok) == WriteOne(old(objects), old(fates), Write(target, old(objects)[source]))
    {
      ok := Put(target, objects[source]);
    }
  }

  lemma {:induction false} PerformConcat(objects: Objects, fates: seq<Fate>, a: seq<Write>, b: seq<Write>)
    ensures var (mid, rest, ok) := Perform(objects, fates, a);
            Perform(objects, fates, a + b) == if ok then Perform(mid, rest, b) else (mid, rest, false)
    decreases |a|
  {
    hide WriteOne;
    if a == [] {
      assert [] + b == b;
    } else {
      assert (a + b)[1..] == a[1..] + b;
      var (next, rest, ok) := WriteOne(objects, fates, a[0]);
      if ok {
        PerformConcat(next, rest, a[1..], b);
      }
    }
  }

  lemma PerformOne(objects: Objects, fates: seq<Fate>, w: Write)
    ensures Perform(objects, fates, [w]) == WriteOne(objects, fates, w)
  {
    hide WriteOne;
    var (next, rest, ok) := WriteOne(objects, fates, w);
    assert [w][1..] == [];
    assert ok ==> Perform(next, rest, []) == (next, rest, true);
  }

  /** Whatever the fates, the writes that were made are the first k of them: the run was cut
      off after k writes, or ended. */
  lemma {:induction false} PerformCuts(objects: Objects, fates: seq<Fate>, writes: seq<Write>) returns (k: nat)
    ensures k <= |writes| && Perform(objects, fates, writes).0 == Apply(objects, Take(writes, k))
    ensures Perform(objects, fates, writes).2 ==> k == |writes|
    decreases |writes|
  {
    hide Apply;
    if writes == [] {
      k := 0;
      ApplyOne(objects, writes);
    } else {
      var (next, rest, ok) := WriteOne(objects, fates, writes[0]);
      ApplyOne(objects, writes);
      if ok {
        var m := PerformCuts(next, rest, writes[1..]);
        k := m + 1;
        ApplyOne(objects, Take(writes, k));
        assert Take(writes, k)[1..] == Take(writes[1..], m);
      } else if next == objects {
        k := 0;
        ApplyOne(objects, []);
        assert Take(writes, 0) == [];
      } else {
        k := 1;
        ApplyOne(objects, [writes[0]]);
        ApplyOne(next, []);
        assert Take(writes, 1) == [writes[0]] && [writes[0]][1..] == [];
      }
    }
  }

  lemma ApplyOne(objects: Objects, writes: seq<Write>)
    ensures Apply(objects, writes) ==
            if writes == [] then objects else Apply(objects[writes[0].key := writes[0].body], writes[1..])
  {
  }

  predicate AllMade(fates: seq<Fate>) {
    forall f :: f in fates ==> f.Made?
  }

  /** Enough writes that all succeed: nothing is cut off, and that many fates are used up. */
  lemma {:induction false} PerformAllMade(objects: Objects, fates: seq<Fate>, writes: seq<Write>)
    requires AllMade(fates) && |fates| >= |writes|
    ensures Perform(objects, fates, writes) == (Apply(objects, writes), fates[|writes|..], true)
    decreases |writes|
  {
    if writes != [] {
      assert fates[0] in fates;
      PerformAllMade(objects[writes[0].key := writes[0].body], fates[1..], writes[1..]);
      assert fates[1..][|writes| - 1..] == fates[|writes|..];
    }
  }

  datatype Counts = Counts(schemeFiles: nat, updated: nat, skipped: nat, checksumsUpdated: nat, checksumsRepaired: nat,
                           errors: nat)

  class Stats {
    var schemeFiles: nat
    var updated: nat
    var skipped: nat
    var checksumsUpdated: nat
    var checksumsRepaired: nat
    var errors: nat

    constructor ()
      ensures Values() == Counts(0, 0, 0, 0, 0, 0)
    {
      schemeFiles, updated, skipped, checksumsUpdated, checksumsRepaired, errors := 0, 0, 0, 0, 0, 0;
    }

    function Values(): Counts
      reads this
    {
      Counts(schemeFiles, updated, skipped, checksumsUpdated, checksumsRepaired, errors)
    }
  }

  /** How one finished run counts. */
  function Tally(c: Counts, verdict: Verdict, hasSum: bool): Counts {
    match verdict
    case Fails => c
    case Skips => c.(skipped := c.skipped + 1)
    case Repairs(_) => c.(checksumsRepaired := c.checksumsRepaired + 1)
    case Updates(_, _) =>
      c.(updated := c.updated + 1, checksumsUpdated := c.checksumsUpdated + if hasSum then 1 else 0)
  }

  method WriteChecksum(store: ObjectStore, key: string, current: Body, scheme: Body, dryRun: bool, sha: Body -> string)
    returns (ok: bool)
    requires IsHash(sha)
    requires SumKey(key) != SumBackupKey(key)
    requires SumKey(key) in store.objects && store.objects[SumKey(key)] == current
    modifies store
    ensures if dryRun then ok && store.objects == old(store.objects) && store.fates == old(store.fates)
            else (store.objects, store.fates, ok) ==
                 Perform(old(store.objects), old(store.fates), SumWrites(sha, old(store.objects), key, scheme))
    ensures SumKey(key) in store.objects
  {
    hide Replaced, ParseChecksum, SumKey, SumBackupKey, IsDigest, Perform;
    ghost var before, fates := store.objects, store.fates;
    var replaced := ReplaceChecksum(current, sha(scheme));
    ParseReplaced(current, sha(scheme));
    if replaced.None? || ParseChecksum(replaced.value) != Some(sha(scheme)) {
      return false;
    }
    if dryRun {
      return true;
    }
    ghost var first, last := Write(SumBackupKey(key), current), Write(SumKey(key), replaced.value);
    PerformConcat(before, fates, [first], [last]);
    PerformOne(before, fates, first);
    PerformOne(before, fates, last);
    assert [] + [last] == [last];
    if SumBackupKey(key) !in store.objects {
      ok := store.Copy(SumKey(key), SumBackupKey(key));
      if !ok {
        return;
      }
    }
    PerformOne(store.objects, store.fates, last);
    ok := store.Put(SumKey(key), replaced.value);
  }

  method ProcessScheme(store: ObjectStore, key: string, dryRun: bool, stats: Stats, sha: Body -> string)
    returns (ok: bool)
    requires IsHash(sha) && IsSchemePb(key)
    modifies store, stats
    ensures var verdict := Judge(sha, old(store.objects), key);
            var (objects, fates, done) := Perform(old(store.objects), old(store.fates),
                  Writes(sha, old(store.objects), key));
            && (ok <==> !verdict.Fails? && (dryRun || done))
            && (if dryRun then store.objects == old(store.objects) && store.fates == old(store.fates)
                else store.objects == objects && store.fates == fates)
            && stats.Values() == if ok then Tally(old(stats.Values()), verdict, SumKey(key) in old(store.objects))
                                 else old(stats.Values())
  {
    hide IsRowScheme, Rewrite, ParseChecksum, Replaced, SumKey, SumBackupKey, BackupKey, IsSchemePb, IsHash;
    if key !in store.objects {
      return false;
    }
    var raw := store.objects[key];
    if raw.Undecodable? {
      return false;
    }
    var rewritten := RewriteDocumentScheme(raw.text);
    if rewritten.Err? {
      return false;
    }
    FamilyMembers(key);
    if rewritten.value.None? {
      if BackupKey(key) in store.objects && SumKey(key) in store.objects {
        var current := store.objects[SumKey(key)];
        if ParseChecksum(current) != Some(sha(raw)) {
          ok := WriteChecksum(store, key, current, raw, dryRun, sha);
          if ok {
            stats.checksumsRepaired := stats.checksumsRepaired + 1;
          }
          return;
        }
      }
      stats.skipped := stats.skipped + 1;
      return true;
    }
    var body := Utf8(rewritten.value.value.text);
    if !IsRowScheme(body.text) || body == raw {
      return false;
    }
    ok := UpdateScheme(store, key, raw, body, dryRun, sha);
    if ok {
      stats.updated := stats.updated + 1;
      if SumKey(key) in store.objects {
        stats.checksumsUpdated := stats.checksumsUpdated + 1;
      }
    }
  }

  method UpdateScheme(store: ObjectStore, key: string, raw: Body, body: Body, dryRun: bool, sha: Body -> string)
    returns (ok: bool)
    requires IsHash(sha) && IsSchemePb(key)
    requires key in store.objects && store.objects[key] == raw
    modifies store
    ensures if dryRun then ok && store.objects == old(store.objects) && store.fates == old(store.fates)
            else (store.objects, store.fates, ok) ==
                 Perform(old(store.objects), old(store.fates), UpdateWrites(sha, old(store.objects), key, raw, body))
    ensures SumKey(key) in store.objects <==> SumKey(key) in old(store.objects)
  {
    hide IsSchemePb, SumKey, SumBackupKey, BackupKey, SumWrites, IsHash, Perform;
    FamilyMembers(key);
    ghost var before, fates := store.objects, store.fates;
    ghost var tail := if SumKey(key) in before then SumWrites(sha, before, key, body) else [];
    ghost var first, second := Write(BackupKey(key), raw), Write(key, body);
    UpdateSteps(before, fates, first, second, tail);
    if BackupKey(key) !in store.objects {
      if !dryRun {
        ok := store.Copy(key, BackupKey(key));
        if !ok {
          return;
        }
      }
    }
    UpdateEnd(store.objects, store.fates, second, tail);
    var checksumExisted := SumKey(key) in store.objects;
    if !dryRun {
      ok := store.Put(key, body);
      if !ok {
        return;
      }
    }
    if checksumExisted {
      SumWritesSame(sha, before, store.objects, key, body);
      ok := WriteChecksum(store, key, store.objects[SumKey(key)], body, dryRun, sha);
    } else {
      NoWrites(store.objects, store.fates);
      ok := true;
    }
  }

  lemma NoWrites(objects: Objects, fates: seq<Fate>)
    ensures Perform(objects, fates, []) == (objects, fates, true)
  {
  }

  lemma UpdateSteps(objects: Objects, fates: seq<Fate>, first: Write, second: Write, tail: seq<Write>)
    ensures var (next, rest, ok) := WriteOne(objects, fates, first);
            Perform(objects, fates, [first] + [second] + tail) ==
            if ok then Perform(next, rest, [second] + tail) else (next, rest, false)
    ensures [] + [second] + tail == [second] + tail
  {
    hide WriteOne, Perform;
    assert [first] + [second] + tail == [first] + ([second] + tail);
    PerformConcat(objects, fates, [first], [second] + tail);
    PerformOne(objects, fates, first);
  }

  lemma UpdateEnd(objects: Objects, fates: seq<Fate>, second: Write, tail: seq<Write>)
    ensures var (next, rest, ok) := WriteOne(objects, fates, second);
            Perform(objects, fates, [second] + tail) == if ok then Perform(next, rest, tail) else (next, rest, false)
  {
    hide WriteOne, Perform;
    PerformConcat(objects, fates, [second], tail);
    PerformOne(objects, fates, second);
  }

  lemma SumWritesSame(sha: Body -> string, a: Objects, b: Objects, key: string, body: Body)
    requires SumKey(key) in a && SumKey(key) in b && a[SumKey(key)] == b[SumKey(key)]
    requires SumBackupKey(key) in a <==> SumBackupKey(key) in b
    ensures SumWrites(sha, a, key, body) == SumWrites(sha, b, key, body)
  {
    hide SumKey, SumBackupKey, Replaced;
  }

  // ---------- a run over every scheme file under a prefix ----------

  ghost function RunOne(sha: Body -> string, objects: Objects, fates: seq<Fate>, key: string)
    : (Objects, seq<Fate>, bool)
  {
    Perform(objects, fates, Writes(sha, objects, key))
  }

  /** The store after a run over several scheme files: one whose write raises is given up,
      and the run goes on with the next. */
  ghost function RunAll(sha: Body -> string, objects: Objects, fates: seq<Fate>, keys: seq<string>): Objects
    decreases |keys|
  {
    if keys == [] then objects
    else
      var (next, rest, _) := RunOne(sha, objects, fates, keys[0]);
      RunAll(sha, next, rest, keys[1..])
  }

  /** The number of writes such a run makes when nothing stops it. */
  ghost function TotalWrites(sha: Body -> string, objects: Objects, keys: seq<string>): nat
    decreases |keys|
  {
    if keys == [] then 0
    else |Writes(sha, objects, keys[0])| + TotalWrites(sha, Full(sha, objects, keys[0]), keys[1..])
  }

  /** `lstrip("/")`. */
  function LStripSlashes(s: string): (r: string)
    ensures |r| <= |s| && (r != "" ==> r[0] != '/' && r == s[|s| - |r|..])
  {
    if s != "" && s[0] == '/' then LStripSlashes(s[1..]) else s
  }

  /** A prefix that is neither empty nor the key of a scheme file ends with a '/'. */
  function NormalizePrefix(prefix: string): (r: string)
    ensures r != "" ==> r[0] != '/' && (IsSchemePb(r) || r[|r| - 1] == '/')
  {
    var p := LStripSlashes(Strip(prefix));
    if p == "" || p == "." then ""
    else if IsSchemePb(p) || p[|p| - 1] == '/' then p
    else p + "/"
  }

  lemma SchemeKeyEnds(key: string)
    requires IsSchemePb(key)
    ensures key != "" && key[|key| - 1] == 'b'
  {
    assert SCHEME_NAME[|SCHEME_NAME| - 1] == 'b';
    if key != SCHEME_NAME {
      var name := "/" + SCHEME_NAME;
      assert key[|key| - |name|..][|name| - 1] == name[|name| - 1];
    }
  }

  lemma {:induction false} LStripShortens(s: string)
    ensures |LStrip(s)| <= |s| && LStrip(s) == s[|s| - |LStrip(s)|..]
    ensures s != "" && IsSpace(s[0]) ==> |LStrip(s)| < |s|
  {
    if s != "" && IsSpace(s[0]) {
      LStripShortens(s[1..]);
    }
  }

  /** Normalizing twice is normalizing once unless white space follows the first '/'s: that is
      only removed the second time. */
  lemma NormalizeTwice(prefix: string)
    ensures NormalizePrefix(NormalizePrefix(prefix)) == NormalizePrefix(prefix) <==>
            var p := LStripSlashes(Strip(prefix)); p == "" || !IsSpace(p[0])
  {
    hide NormalizePrefix, IsSchemePb, IsSpace, Strip;
    var q := NormalizePrefix(prefix);
    NormalFirst(prefix);
    if q != "" {
      if IsSchemePb(q) {
        SchemeKeyEnds(q);
      }
      NoSpaceLast(q[|q| - 1]);
      if IsSpace(q[0]) {
        SpaceIsStripped(q);
      } else {
        StaysNormal(q);
      }
    } else {
      NothingNormal();
    }
  }

  lemma NormalFirst(prefix: string)
    ensures var p, q := LStripSlashes(Strip(prefix)), NormalizePrefix(prefix);
            if p == "" || p == "." then q == "" && (p == "." ==> !IsSpace(p[0])) else q != "" && q[0] == p[0]
  {
    hide IsSchemePb, Strip, LStripSlashes;
  }

  /** A prefix that is not normalized at once. */
  lemma SpacedPrefix()
    ensures NormalizePrefix("/ a") == " a/" && NormalizePrefix(" a/") == "a/"
  {
    assert SCHEME_NAME[|SCHEME_NAME| - 1] == 'b';
    assert !IsSchemePb(" a") && !IsSchemePb("a/");
    StripNothing("/ a");
    assert LStripSlashes("/ a") == " a";
    assert LStrip(" a/") == LStrip("a/") == "a/";
    NothingToStrip("a/");
    assert LStripSlashes("a/") == "a/";
  }

  lemma NothingNormal()
    ensures NormalizePrefix("") == ""
  {
  }

  lemma NoSpaceLast(c: char)
    requires c == 'b' || c == '/'
    ensures !IsSpace(c)
  {
  }

  lemma StaysNormal(q: string)
    requires q != "" && !IsSpace(q[0]) && !IsSpace(q[|q| - 1])
    requires q[0] != '/' && (IsSchemePb(q) || q[|q| - 1] == '/')
    ensures NormalizePrefix(q) == q
  {
    hide IsSchemePb, IsSpace, Strip;
    StripNothing(q);
    if IsSchemePb(q) {
      SchemeKeyEnds(q);
    }
  }

  lemma SpaceIsStripped(q: string)
    requires q != "" && IsSpace(q[0]) && !IsSpace(q[|q| - 1])
    ensures NormalizePrefix(q) != q
  {
    hide IsSpace, LStrip, RStrip, IsSchemePb, NormalizePrefix, LStripSlashes, Strip;
    LStripShortens(q);
    LastKept(q, LStrip(q));
    NothingToStrip(LStrip(q));
    StripIs(q);
    var p := LStripSlashes(LStrip(q));
    SlashesShorten(LStrip(q));
    LastKept(LStrip(q), p);
    NormalIs(q, p);
    if NormalizePrefix(q) == q {
      EndsWithSlash(p);
    }
  }

  /** A shorter text with the same end has the same last character. */
  lemma LastKept(s: string, r: string)
    requires |r| <= |s| && r == s[|s| - |r|..]
    ensures r != "" ==> r[|r| - 1] == s[|s| - 1]
  {
  }

  lemma StripIs(q: string)
    requires RStrip(LStrip(q)) == LStrip(q)
    ensures Strip(q) == LStrip(q)
  {
  }

  lemma SlashesShorten(s: string)
    ensures |LStripSlashes(s)| <= |s| && LStripSlashes(s) == s[|s| - |LStripSlashes(s)|..]
  {
    if LStripSlashes(s) == "" {
      assert s[|s|..] == "";
    }
  }

  lemma NormalIs(q: string, p: string)
    requires p == LStripSlashes(Strip(q))
    ensures NormalizePrefix(q) == "" || NormalizePrefix(q) == p ||
            (NormalizePrefix(q) == p + "/" && p != "" && p[|p| - 1] != '/')
  {
    hide Strip, LStripSlashes, IsSchemePb;
  }

  lemma EndsWithSlash(p: string)
    ensures |p + "/"| == |p| + 1 && (p + "/")[|p|] == '/'
  {
  }

  lemma NothingToStrip(s: string)
    requires s != "" ==> !IsSpace(s[|s| - 1])
    ensures RStrip(s) == s
  {
  }

  /** Below a prefix that is a directory, the objects of a scheme file are all there or none
      is: nothing outside the prefix is written. */
  lemma {:induction false} PrefixHoldsFamilies(prefix: string, key: string, member: string)
    requires var q := NormalizePrefix(prefix); q == "" || q[|q| - 1] == '/'
    requires IsSchemePb(key) && member in Family(key)
    ensures NormalizePrefix(prefix) <= key <==> NormalizePrefix(prefix) <= member
  {
    hide NormalizePrefix, IsSchemePb, Directory;
    var q := NormalizePrefix(prefix);
    FamilyDirectory(key, member);
    UnderDirectory(q, key);
    UnderDirectory(q, member);
  }

  lemma UnderDirectory(q: string, key: string)
    requires q == "" || q[|q| - 1] == '/'
    ensures q <= key <==> q <= Directory(key)
  {
    hide Directory;
  }

  /** The keys of the scheme files under a prefix, sorted. */
  method ListSchemes(objects: Objects, prefix: string) returns (keys: seq<string>)
    ensures Ascending(keys) && forall k :: k in keys <==> k in objects && prefix <= k && IsSchemePb(k)
  {
    hide IsSchemePb, Ascending, SortNames;
    keys := [];
    var rest := objects.Keys;
    while rest != {}
      invariant rest <= objects.Keys
      invariant forall k :: k in keys <==> k in objects.Keys - rest && prefix <= k && IsSchemePb(k)
      decreases |rest|
    {
      var k :| k in rest;
      if prefix <= k && IsSchemePb(k) {
        keys := keys + [k];
      }
      rest := rest - {k};
    }
    SortNamesSorts(keys);
    keys := SortNames(keys);
  }

  lemma AscendingNoDup(keys: seq<string>)
    requires Ascending(keys)
    ensures NoDup(keys)
  {
    hide Less;
    forall i, j | 0 <= i < j < |keys|
      ensures keys[i] != keys[j]
    {
      LessIrreflexive(keys[i]);
    }
  }

  /** `process_prefix`. */
  method ProcessPrefix(store: ObjectStore, prefix: string, dryRun: bool, sha: Body -> string)
    returns (stats: Stats, keys: seq<string>)
    requires IsHash(sha)
    modifies store
    ensures fresh(stats) && Ascending(keys) && NoDup(keys)
    ensures forall k :: k in keys <==> k in old(store.objects) && NormalizePrefix(prefix) <= k && IsSchemePb(k)
    ensures store.objects == if dryRun then old(store.objects)
                             else RunAll(sha, old(store.objects), old(store.fates), keys)
    ensures var c := stats.Values();
            c.schemeFiles == |keys| == c.updated + c.skipped + c.checksumsRepaired + c.errors
            && c.checksumsUpdated <= c.updated
  {
    hide IsSchemePb, IsHash, NoDup, RunAll, Ascending;
    keys := ListSchemes(store.objects, NormalizePrefix(prefix));
    AscendingNoDup(keys);
    stats := ProcessSchemes(store, keys, dryRun, sha);
  }

  /** The loop over the scheme files.  Every scheme file is counted once, as updated, skipped,
      repaired or failed, and one that fails does not keep the run from the others. */
  method ProcessSchemes(store: ObjectStore, keys: seq<string>, dryRun: bool, sha: Body -> string) returns (stats: Stats)
    requires IsHash(sha) && forall k :: k in keys ==> IsSchemePb(k)
    modifies store
    ensures fresh(stats)
    ensures store.objects == if dryRun then old(store.objects)
                             else RunAll(sha, old(store.objects), old(store.fates), keys)
    ensures var c := stats.Values();
            c.schemeFiles == |keys| == c.updated + c.skipped + c.checksumsRepaired + c.errors
            && c.checksumsUpdated <= c.updated
  {
    hide IsSchemePb, IsHash, Perform, Writes, Judge;
    stats := new Stats();
    stats.schemeFiles := |keys|;
    assert keys[0..] == keys;
    for i := 0 to |keys|
      invariant fresh(stats)
      invariant stats.schemeFiles == |keys|
      invariant stats.updated + stats.skipped + stats.checksumsRepaired + stats.errors == i
      invariant stats.checksumsUpdated <= stats.updated
      invariant if dryRun then store.objects == old(store.objects)
                else RunAll(sha, store.objects, store.fates, keys[i..]) ==
                     RunAll(sha, old(store.objects), old(store.fates), keys)
    {
      assert keys[i] in keys;
      assert keys[i..][1..] == keys[i + 1..];
      var ok := ProcessScheme(store, keys[i], dryRun, stats, sha);
      if !ok {
        stats.errors := stats.errors + 1;
      }
    }
  }

  predicate AgreeOn(a: Objects, b: Objects, keys: set<string>) {
    forall k :: k in keys ==> (k in a <==> k in b) && (k in a ==> a[k] == b[k])
  }

  /** A run reads and writes its own family of objects only. */
  lemma WritesAreLocal(sha: Body -> string, a: Objects, b: Objects, key: string)
    requires AgreeOn(a, b, Family(key))
    ensures Judge(sha, a, key) == Judge(sha, b, key)
    ensures Writes(sha, a, key) == Writes(sha, b, key)
    ensures forall w :: w in Writes(sha, a, key) ==> w.key in Family(key)
  {
    hide Rewrite, IsRowScheme, ParseChecksum, Replaced, BackupKey, SumKey, SumBackupKey;
  }

  lemma {:induction false} ApplyLocal(a: Objects, b: Objects, writes: seq<Write>, keys: set<string>)
    requires forall w :: w in writes ==> w.key in keys
    ensures AgreeOn(a, b, keys) ==> AgreeOn(Apply(a, writes), Apply(b, writes), keys)
    ensures forall k :: k !in keys ==> (k in Apply(a, writes) <==> k in a) && (k in a ==> Apply(a, writes)[k] == a[k])
    decreases |writes|
  {
    if writes != [] {
      var w := writes[0];
      assert w in writes;
      ApplyLocal(a[w.key := w.body], b[w.key := w.body], writes[1..], keys);
    }
  }

  lemma {:induction false} CutIsLocal(sha: Body -> string, a: Objects, b: Objects, key: string, k: nat)
    requires AgreeOn(a, b, Family(key))
    ensures AgreeOn(SchemeStore.Cut(sha, a, key, k), SchemeStore.Cut(sha, b, key, k), Family(key))
    ensures forall x :: x !in Family(key) ==>
              (x in SchemeStore.Cut(sha, a, key, k) <==> x in a) &&
                (x in a ==> SchemeStore.Cut(sha, a, key, k)[x] == a[x])
  {
    hide Writes, Judge;
    WritesAreLocal(sha, a, b, key);
    ApplyLocal(a, b, Take(Writes(sha, a, key), k), Family(key));
  }

  /** For each scheme file a run over many leaves what a run over that file alone, cut off
      after some number of writes, would leave, whichever writes of the others fail; all of
      its writes if none fails.  Objects of no scheme file are untouched. */
  lemma {:induction false} EachSchemeOnItsOwn(sha: Body -> string, objects: Objects, keys: seq<string>,
                                              fates: seq<Fate>, key: string)
    returns (k: nat)
    requires NoDup(keys) && forall x :: x in keys ==> IsSchemePb(x)
    requires IsSchemePb(key)
    ensures key in keys ==> AgreeOn(RunAll(sha, objects, fates, keys), SchemeStore.Cut(sha, objects, key, k),
            Family(key))
    ensures key in keys && AllMade(fates) && |fates| >= TotalWrites(sha, objects, keys) ==>
            k >= |Writes(sha, objects, key)|
    ensures key !in keys ==> AgreeOn(RunAll(sha, objects, fates, keys), objects, Family(key))
    decreases |keys|
  {
    hide IsSchemePb, Judge, Writes, Family, Perform, Apply, Take;
    k := 0;
    if keys != [] {
      var first := keys[0];
      var (next, rest, done) := RunOne(sha, objects, fates, first);
      var m := PerformCuts(objects, fates, Writes(sha, objects, first));
      CutIsLocal(sha, objects, objects, first, m);
      OneAllMade(sha, objects, fates, first);
      assert forall x :: x in keys[1..] ==> x in keys;
      k := EachSchemeOnItsOwn(sha, next, keys[1..], rest, key);
      if key == first {
        k := m;
      } else {
        FamiliesAreDisjoint(first, key);
        assert AgreeOn(next, objects, Family(key));
        WritesAreLocal(sha, next, objects, key);
        CutIsLocal(sha, next, objects, key, k);
      }
    }
  }

  lemma OneAllMade(sha: Body -> string, objects: Objects, fates: seq<Fate>, key: string)
    ensures AllMade(fates) && |fates| >= |Writes(sha, objects, key)| ==>
              var (next, rest, done) := RunOne(sha, objects, fates, key);
              done && next == Full(sha, objects, key) && AllMade(rest) &&
                |rest| == |fates| - |Writes(sha, objects, key)|
  {
    hide Writes, Apply, Perform;
    if AllMade(fates) && |fates| >= |Writes(sha, objects, key)| {
      PerformAllMade(objects, fates, Writes(sha, objects, key));
    }
  }
}
