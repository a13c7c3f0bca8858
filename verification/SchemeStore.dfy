/** The object-store protocol of fix_document_schemes.py.  A run writes at most four objects
    (backup of the scheme, scheme, backup of the checksum, checksum) and may be cut off
    before any of them. */
module SchemeStore {
  import opened Wrappers
  import opened PythonText
  import opened SchemeRewrite
  import opened Checksum

  type Objects = map<string, Body>

  // ---------- keys ----------

  /** The key up to and including its last '/'. */
  function Directory(key: string): (r: string)
    ensures r <= key && '/' !in key[|r|..]
    ensures r != "" ==> r[|r| - 1] == '/'
  {
    if key == "" || key[|key| - 1] == '/' then key else Directory(key[..|key| - 1])
  }

  function SiblingKey(key: string, filename: string): string {
    Directory(key) + filename
  }

  predicate IsSchemePb(key: string) {
    key == SCHEME_NAME || EndsWith(key, "/" + SCHEME_NAME)
  }

  function BackupKey(key: string): string {
    SiblingKey(key, "scheme.pb.orig")
  }

  function SumKey(key: string): string {
    SiblingKey(key, "scheme.pb.sha256")
  }

  function SumBackupKey(key: string): string {
    SiblingKey(key, "scheme.pb.sha256.orig")
  }

  /** The keys one scheme file's run can touch. */
  function Family(key: string): set<string> {
    {key, BackupKey(key), SumKey(key), SumBackupKey(key)}
  }

  lemma {:induction false} DirectoryOf(dir: string, name: string)
    requires '/' !in name && (dir != "" ==> dir[|dir| - 1] == '/')
    ensures Directory(dir + name) == dir
  {
    if name == "" {
      assert dir + name == dir;
    } else {
      assert (dir + name)[|dir + name| - 1] == name[|name| - 1];
      assert (dir + name)[..|dir + name| - 1] == dir + name[..|name| - 1];
      DirectoryOf(dir, name[..|name| - 1]);
    }
  }

  lemma SchemeKeyParts(key: string)
    requires IsSchemePb(key)
    ensures key == Directory(key) + SCHEME_NAME
  {
    if key == SCHEME_NAME {
      assert "" + SCHEME_NAME == key;
      DirectoryOf("", SCHEME_NAME);
    } else {
      var dir := key[..|key| - |SCHEME_NAME|];
      assert key == dir + SCHEME_NAME;
      assert dir[|dir| - 1] == key[|key| - |"/" + SCHEME_NAME|..][0];
      DirectoryOf(dir, SCHEME_NAME);
    }
  }

  lemma FamilyMembers(key: string)
    requires IsSchemePb(key)
    ensures key != BackupKey(key) && key != SumKey(key) && key != SumBackupKey(key)
    ensures BackupKey(key) != SumKey(key) && BackupKey(key) != SumBackupKey(key) && SumKey(key) != SumBackupKey(key)
  {
    SchemeKeyParts(key);
    var lengths := (|key| - |Directory(key)|, |BackupKey(key)| - |Directory(key)|,
                    |SumKey(key)| - |Directory(key)|, |SumBackupKey(key)| - |Directory(key)|);
    assert lengths == (9, 14, 16, 21);
  }

  /** Two scheme files never share an object, backups and checksums included. */
  lemma FamiliesAreDisjoint(a: string, b: string)
    requires IsSchemePb(a) && IsSchemePb(b) && a != b
    ensures Family(a) !! Family(b)
  {
    SchemeKeyParts(a);
    SchemeKeyParts(b);
    forall k | k in Family(a) && k in Family(b)
      ensures false
    {
      FamilyDirectory(a, k);
      FamilyDirectory(b, k);
    }
  }

  lemma FamilyDirectory(key: string, k: string)
    requires IsSchemePb(key) && k in Family(key)
    ensures Directory(k) == Directory(key)
  {
    hide Directory, IsSchemePb;
    if k == BackupKey(key) {
      DirectoryOf(Directory(key), "scheme.pb.orig");
    } else if k == SumKey(key) {
      DirectoryOf(Directory(key), "scheme.pb.sha256");
    } else if k == SumBackupKey(key) {
      DirectoryOf(Directory(key), "scheme.pb.sha256.orig");
    }
  }

  // ---------- the writes of one run ----------

  datatype Write = Write(key: string, body: Body)

  function Apply(objects: Objects, writes: seq<Write>): Objects
    decreases |writes|
  {
    if writes == [] then objects
    else Apply(objects[writes[0].key := writes[0].body], writes[1..])
  }

  predicate Contains(text: string, part: string) {
    exists i :: 0 <= i <= |text| && part <= text[i..]
  }

  predicate IsRowScheme(text: string) {
    Contains(text, "columns") && Contains(text, "primary_key")
  }

  /** The digest function: 64 lower-case hex digits for every body. */
  ghost predicate IsHash(sha: Body -> string) {
    forall b :: IsDigest(sha(b))
  }

  /** What a run does with a scheme file. */
  datatype Verdict =
    | Fails
    | Skips
    | Repairs(raw: Body)
    | Updates(raw: Body, body: Body)

  ghost function Judge(sha: Body -> string, objects: Objects, key: string): Verdict {
    if key !in objects || !objects[key].Utf8? then Fails
    else
      var raw := objects[key];
      match Rewrite(raw.text)
      case Err(_) => Fails
      case Ok(None) =>
        if BackupKey(key) in objects && SumKey(key) in objects
           && ParseChecksum(objects[SumKey(key)]) != Some(sha(raw)) then Repairs(raw)
        else Skips
      case Ok(Some(rewritten)) =>
        if !IsRowScheme(rewritten.text) || Utf8(rewritten.text) == raw then Fails
        else Updates(raw, Utf8(rewritten.text))
  }

  /** `_write_checksum`: keep the first checksum file, then replace the digest. */
  function SumWrites(sha: Body -> string, objects: Objects, key: string, scheme: Body): seq<Write>
    requires SumKey(key) in objects
  {
    var current := objects[SumKey(key)];
    (if SumBackupKey(key) in objects then [] else [Write(SumBackupKey(key), current)])
    + [Write(SumKey(key), Replaced(current, sha(scheme)))]
  }

  function HeadWrites(objects: Objects, key: string, raw: Body, body: Body): seq<Write> {
    (if BackupKey(key) in objects then [] else [Write(BackupKey(key), raw)]) + [Write(key, body)]
  }

  /** The writes of an update, in the order that keeps the originals safe. */
  function UpdateWrites(sha: Body -> string, objects: Objects, key: string, raw: Body, body: Body): seq<Write> {
    HeadWrites(objects, key, raw, body) + (if SumKey(key) in objects then SumWrites(sha, objects, key, body) else [])
  }

  ghost function Writes(sha: Body -> string, objects: Objects, key: string): seq<Write> {
    match Judge(sha, objects, key)
    case Fails => []
    case Skips => []
    case Repairs(raw) => SumWrites(sha, objects, key, raw)
    case Updates(raw, body) => UpdateWrites(sha, objects, key, raw, body)
  }

  function Take(writes: seq<Write>, k: nat): seq<Write> {
    if k < |writes| then writes[..k] else writes
  }

  /** The store after a run that got through at most k writes. */
  ghost function Cut(sha: Body -> string, objects: Objects, key: string, k: nat): Objects {
    Apply(objects, Take(Writes(sha, objects, key), k))
  }

  /** The store after an uninterrupted run. */
  ghost function Full(sha: Body -> string, objects: Objects, key: string): Objects {
    Apply(objects, Writes(sha, objects, key))
  }

  /** The store after any number of runs, run i cut off after cuts[i] writes. */
  ghost function Runs(sha: Body -> string, objects: Objects, key: string, cuts: seq<nat>): Objects
    decreases |cuts|
  {
    if cuts == [] then objects else Runs(sha, Cut(sha, objects, key, cuts[0]), key, cuts[1..])
  }

  lemma {:induction false} ApplyConcat(objects: Objects, a: seq<Write>, b: seq<Write>)
    ensures Apply(objects, a + b) == Apply(Apply(objects, a), b)
    decreases |a|
  {
    if a == [] {
      assert [] + b == b;
    } else {
      assert (a + b)[1..] == a[1..] + b;
      ApplyConcat(objects[a[0].key := a[0].body], a[1..], b);
    }
  }

  // ---------- runs on a store without backups ----------

  /** The export as YDB left it: the scheme is there, no backup is. */
  predicate Fresh(objects: Objects, key: string) {
    IsSchemePb(key) && key in objects && BackupKey(key) !in objects && SumBackupKey(key) !in objects
  }

  /** The first run finds a document table and will replace `raw` by `body`. */
  ghost predicate Document(sha: Body -> string, start: Objects, key: string, raw: Body, body: Body) {
    Fresh(start, key) && Judge(sha, start, key) == Updates(raw, body)
  }

  /** Everything there is to write: backup, scheme, backup of the checksum, checksum. */
  function Plan(sha: Body -> string, start: Objects, key: string, raw: Body, body: Body): seq<Write> {
    [Write(BackupKey(key), raw), Write(key, body)]
    + if SumKey(key) in start
      then [Write(SumBackupKey(key), start[SumKey(key)]), Write(SumKey(key), Replaced(start[SumKey(key)], sha(body)))]
      else []
  }

  /** The store after the first n writes of the plan. */
  function Stage(sha: Body -> string, start: Objects, key: string, raw: Body, body: Body, n: nat): Objects
    requires n <= |Plan(sha, start, key, raw, body)|
  {
    Apply(start, Plan(sha, start, key, raw, body)[..n])
  }

  /** What the four objects hold at stage n; all others are as at the start. */
  ghost predicate StageHolds(sha: Body -> string, start: Objects, key: string, raw: Body, body: Body, n: nat,
                             s: Objects) {
    && key in s && s[key] == (if n >= 2 then body else raw)
    && (BackupKey(key) in s <==> n >= 1) && (n >= 1 ==> s[BackupKey(key)] == raw)
    && (SumKey(key) in s <==> SumKey(key) in start)
    && (SumKey(key) in start ==>
          s[SumKey(key)] == if n >= 4 then Replaced(start[SumKey(key)], sha(body)) else start[SumKey(key)])
    && (SumBackupKey(key) in s <==> n >= 3)
    && (n >= 3 ==> SumKey(key) in start && s[SumBackupKey(key)] == start[SumKey(key)])
    && (forall k :: k !in Family(key) ==> (k in s <==> k in start) && (k in start ==> s[k] == start[k]))
  }

  lemma {:induction false} StageContents(sha: Body -> string, start: Objects, key: string, raw: Body, body: Body,
                                         n: nat)
    requires Document(sha, start, key, raw, body) && n <= |Plan(sha, start, key, raw, body)|
    ensures StageHolds(sha, start, key, raw, body, n, Stage(sha, start, key, raw, body, n))
  {
    hide Judge, Replaced, BackupKey, SumKey, SumBackupKey, IsSchemePb;
    FamilyMembers(key);
    var plan := Plan(sha, start, key, raw, body);
    DocumentRaw(sha, start, key, raw, body);
    if n == 0 {
      assert plan[..0] == [];
    } else {
      StageContents(sha, start, key, raw, body, n - 1);
      assert plan[..n] == plan[..n - 1] + [plan[n - 1]];
      ApplyConcat(start, plan[..n - 1], [plan[n - 1]]);
    }
  }

  lemma DocumentRaw(sha: Body -> string, start: Objects, key: string, raw: Body, body: Body)
    requires Document(sha, start, key, raw, body)
    ensures start[key] == raw
  {
    hide Rewrite, IsRowScheme;
  }

  /** A rewritten scheme is judged only by its checksum from then on. */
  lemma DocumentSettles(sha: Body -> string, start: Objects, key: string, raw: Body, body: Body, s: Objects)
    requires Document(sha, start, key, raw, body)
    requires key in s
    ensures s[key] == raw ==> Judge(sha, s, key) == Updates(raw, body)
    ensures s[key] == body ==>
              Judge(sha, s, key) ==
              if BackupKey(key) in s && SumKey(key) in s && ParseChecksum(s[SumKey(key)]) != Some(sha(body))
              then Repairs(body) else Skips
  {
    hide Rewrite, IsRowScheme, ParseChecksum, BackupKey, SumKey, IsSchemePb;
    RewriteSettles(raw.text);
  }

  /** The checksum file already holds the digest of the scheme, or there is none. */
  ghost predicate SumAgrees(sha: Body -> string, s: Objects, key: string) {
    key in s && (SumKey(key) in s ==> ParseChecksum(s[SumKey(key)]) == Some(sha(s[key])))
  }

  /** At every stage the next run writes exactly the rest of the plan, unless the scheme is
      written and the checksum happens to agree already. */
  lemma {:induction false} ResumeWrites(sha: Body -> string, start: Objects, key: string, raw: Body, body: Body, n: nat)
    requires Document(sha, start, key, raw, body) && IsHash(sha) && n <= |Plan(sha, start, key, raw, body)|
    ensures var s := Stage(sha, start, key, raw, body, n);
            var plan := Plan(sha, start, key, raw, body);
            Writes(sha, s, key) == plan[n..] || (n >= 2 && Writes(sha, s, key) == [] && SumAgrees(sha, s, key))
    ensures n == |Plan(sha, start, key, raw, body)| ==> SumAgrees(sha, Stage(sha, start, key, raw, body, n), key)
  {
    hide Judge, Replaced, BackupKey, SumKey, SumBackupKey, IsSchemePb, ParseChecksum, Stage;
    var s := Stage(sha, start, key, raw, body, n);
    StageContents(sha, start, key, raw, body, n);
    DocumentSettles(sha, start, key, raw, body, s);
    if SumKey(key) in start {
      ParseReplaced(start[SumKey(key)], sha(body));
    }
  }

  lemma TakeRest(plan: seq<Write>, n: nat, k: nat) returns (m: nat)
    requires n <= |plan|
    ensures n <= m <= |plan| && plan[..n] + Take(plan[n..], k) == plan[..m]
  {
    m := if k < |plan| - n then n + k else |plan|;
  }

  /** One more cut-off run moves from a stage to the same or a later one. */
  lemma {:induction false} CutMovesOn(sha: Body -> string, start: Objects, key: string, raw: Body, body: Body,
                                      n: nat, k: nat)
    returns (m: nat)
    requires Document(sha, start, key, raw, body) && IsHash(sha) && n <= |Plan(sha, start, key, raw, body)|
    ensures n <= m <= |Plan(sha, start, key, raw, body)|
    ensures Cut(sha, Stage(sha, start, key, raw, body, n), key, k) == Stage(sha, start, key, raw, body, m)
  {
    hide Writes, Plan, Document;
    var plan, s := Plan(sha, start, key, raw, body), Stage(sha, start, key, raw, body, n);
    ResumeWrites(sha, start, key, raw, body, n);
    if Writes(sha, s, key) == plan[n..] {
      m := TakeRest(plan, n, k);
      ApplyConcat(start, plan[..n], Take(plan[n..], k));
    } else {
      m := n;
    }
  }

  /** Any number of runs, each cut off anywhere, leave the store at some stage of the one
      plan of the first run. */
  lemma {:induction false} RunsReachStage(sha: Body -> string, start: Objects, key: string, raw: Body, body: Body,
                                          n: nat, cuts: seq<nat>) returns (m: nat)
    requires Document(sha, start, key, raw, body) && IsHash(sha) && n <= |Plan(sha, start, key, raw, body)|
    ensures n <= m <= |Plan(sha, start, key, raw, body)|
    ensures Runs(sha, Stage(sha, start, key, raw, body, n), key, cuts) == Stage(sha, start, key, raw, body, m)
    decreases |cuts|
  {
    hide Writes, Plan, Document, Stage, Cut;
    if cuts == [] {
      m := n;
    } else {
      m := CutMovesOn(sha, start, key, raw, body, n, cuts[0]);
      m := RunsReachStage(sha, start, key, raw, body, m, cuts[1..]);
    }
  }

  lemma StageZero(sha: Body -> string, start: Objects, key: string, raw: Body, body: Body)
    ensures Stage(sha, start, key, raw, body, 0) == start
  {
    hide Plan;
    assert Plan(sha, start, key, raw, body)[..0] == [];
  }

  /** A scheme the first run does not rewrite is never touched by any run. */
  lemma {:induction false} NothingToDo(sha: Body -> string, start: Objects, key: string, cuts: seq<nat>)
    requires Fresh(start, key) && !Judge(sha, start, key).Updates?
    ensures Writes(sha, start, key) == [] && Runs(sha, start, key, cuts) == start
    decreases |cuts|
  {
    hide Rewrite, IsRowScheme, ParseChecksum, BackupKey, SumKey, SumBackupKey, IsSchemePb;
    if cuts != [] {
      NothingToDo(sha, start, key, cuts[1..]);
    }
  }

  /** After any number of runs on one export, each cut off after any write: whenever the
      scheme or its checksum differs from the initial bytes, its backup holds exactly those
      bytes; a backup never holds anything else; no other object changes. */
  lemma {:induction false} OriginalsAreSafe(sha: Body -> string, start: Objects, key: string, cuts: seq<nat>)
    requires Fresh(start, key) && IsHash(sha)
    ensures var s := Runs(sha, start, key, cuts);
            && key in s
            && (s[key] != start[key] ==> BackupKey(key) in s)
            && (BackupKey(key) in s ==> s[BackupKey(key)] == start[key])
            && (SumKey(key) in s <==> SumKey(key) in start)
            && (SumKey(key) in start && s[SumKey(key)] != start[SumKey(key)] ==> SumBackupKey(key) in s)
            && (SumBackupKey(key) in s ==> SumKey(key) in start && s[SumBackupKey(key)] == start[SumKey(key)])
            && forall k :: k !in Family(key) ==> (k in s <==> k in start) && (k in start ==> s[k] == start[k])
  {
    hide Judge, Stage, Runs, Plan, Replaced, BackupKey, SumKey, SumBackupKey, IsSchemePb;
    if Judge(sha, start, key).Updates? {
      var raw, body := Judge(sha, start, key).raw, Judge(sha, start, key).body;
      StageZero(sha, start, key, raw, body);
      var n := RunsReachStage(sha, start, key, raw, body, 0, cuts);
      StageContents(sha, start, key, raw, body, n);
      DocumentRaw(sha, start, key, raw, body);
    } else {
      NothingToDo(sha, start, key, cuts);
    }
  }

  /** From whatever interrupted runs left, one uninterrupted run ends with the rewritten
      scheme, its original in the backup, and a checksum file (if there was one) that holds
      the digest of the scheme.  A further run writes nothing. */
  lemma {:induction false} FullRunHeals(sha: Body -> string, start: Objects, key: string, cuts: seq<nat>)
    requires Fresh(start, key) && IsHash(sha) && Judge(sha, start, key).Updates?
    ensures var s := Full(sha, Runs(sha, start, key, cuts), key);
            var verdict := Judge(sha, start, key);
            && key in s && s[key] == verdict.body
            && BackupKey(key) in s && s[BackupKey(key)] == verdict.raw == start[key]
            && (SumKey(key) in s <==> SumKey(key) in start)
            && SumAgrees(sha, s, key)
            && Writes(sha, s, key) == []
  {
    hide Judge, Stage, Runs, Plan, Replaced, BackupKey, SumKey, SumBackupKey, IsSchemePb, Writes, SumAgrees;
    var raw, body := Judge(sha, start, key).raw, Judge(sha, start, key).body;
    StageZero(sha, start, key, raw, body);
    var n := RunsReachStage(sha, start, key, raw, body, 0, cuts);
    var m := FullReachesEnd(sha, start, key, raw, body, n);
    StageContents(sha, start, key, raw, body, m);
    DocumentRaw(sha, start, key, raw, body);
  }

  lemma {:induction false} FullReachesEnd(sha: Body -> string, start: Objects, key: string, raw: Body, body: Body,
                                          n: nat)
    returns (m: nat)
    requires Document(sha, start, key, raw, body) && IsHash(sha) && n <= |Plan(sha, start, key, raw, body)|
    ensures 2 <= m <= |Plan(sha, start, key, raw, body)|
    ensures var s := Stage(sha, start, key, raw, body, m);
            && Full(sha, Stage(sha, start, key, raw, body, n), key) == s
            && Writes(sha, s, key) == [] && SumAgrees(sha, s, key)
  {
    hide Writes, Document, SumAgrees, BackupKey, SumKey, SumBackupKey, Replaced;
    var plan, s := Plan(sha, start, key, raw, body), Stage(sha, start, key, raw, body, n);
    ResumeWrites(sha, start, key, raw, body, n);
    if Writes(sha, s, key) == plan[n..] {
      m := |plan|;
      assert plan[..n] + plan[n..] == plan[..m];
      ApplyConcat(start, plan[..n], plan[n..]);
      ResumeWrites(sha, start, key, raw, body, m);
      assert plan[m..] == [];
    } else {
      m := n;
    }
  }
}
