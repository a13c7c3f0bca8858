/** Planning the changes of a zone (`plan_changes`, `prune_scope` in register_private_dns.py)
    and what they do to the index of its A records. */
module DnsPlan {
  import opened Wrappers
  import opened Order
  import opened DnsNames

  datatype RecordSet = RecordSet(name: string, kind: string, ttl: int, data: seq<string>, description: string)

  /** A records by absolute name. */
  type Index = map<string, RecordSet>

  /** What the run wants: name to address. */
  type Desired = map<string, string>

  datatype Change =
    | Delete(fqdn: string, previous: RecordSet)
    | Add(fqdn: string, ttl: int, address: string)
    | Update(fqdn: string, ttl: int, address: string, previous: RecordSet)

  /** The fixed arguments of a run.  `prune` is None to delete any stale managed record, or
      the labels whose stale records may be deleted. */
  datatype Settings = Settings(zone: string, prefixes: seq<string>, ttl: int, prune: Option<set<string>>)

  function PruneScope(serverNames: set<string>, filtered: bool, prune: bool): Option<set<string>> {
    if !prune then Some({}) else if filtered then Some(serverNames) else None
  }

  predicate IsManaged(s: Settings, name: string) {
    Managed(name, s.zone, s.prefixes)
  }

  predicate MayPrune(s: Settings, name: string) {
    s.prune.None? || (IsManaged(s, name) && ManagedLabel(name, s.zone, s.prefixes).value in s.prune.value)
  }

  // ---------- the plan ----------

  predicate UpToDate(record: RecordSet, ttl: int, address: string) {
    record.ttl == ttl && record.data == [address]
  }

  /** The body of the planning loop for one name. */
  function ChangesFor(s: Settings, desired: Desired, existing: Index, name: string): seq<Change> {
    var have := name in existing && IsManaged(s, name);
    if name in desired then
      if have then
        if UpToDate(existing[name], s.ttl, desired[name]) then []
        else [Update(name, s.ttl, desired[name], existing[name])]
      else [Add(name, s.ttl, desired[name])]
    else if have && MayPrune(s, name) then [Delete(name, existing[name])]
    else []
  }

  function PlanOver(s: Settings, desired: Desired, existing: Index, names: seq<string>): seq<Change> {
    if names == [] then []
    else ChangesFor(s, desired, existing, names[0]) + PlanOver(s, desired, existing, names[1..])
  }

  predicate Concerned(s: Settings, desired: Desired, existing: Index, name: string) {
    name in desired || (name in existing && IsManaged(s, name))
  }

  /** The names the plan goes over: the desired and the managed ones, in order. */
  ghost predicate PlanNames(s: Settings, desired: Desired, existing: Index, names: seq<string>) {
    Ascending(names) && forall n :: n in names <==> Concerned(s, desired, existing, n)
  }

  /** A list of changes that the planner produces for this zone. */
  ghost predicate IsPlan(s: Settings, desired: Desired, existing: Index, changes: seq<Change>) {
    exists names :: PlanNames(s, desired, existing, names) && changes == PlanOver(s, desired, existing, names)
  }

  method KeysOf<V>(m: map<string, V>) returns (keys: seq<string>)
    ensures forall k :: k in keys <==> k in m
  {
    keys := [];
    var rest := m.Keys;
    while rest != {}
      invariant rest <= m.Keys
      invariant forall k :: k in keys <==> k in m.Keys - rest
      decreases |rest|
    {
      var k :| k in rest;
      keys, rest := keys + [k], rest - {k};
    }
  }

  method PlanChanges(s: Settings, desired: Desired, existing: Index) returns (changes: seq<Change>)
    ensures IsPlan(s, desired, existing, changes)
  {
    hide IsManaged, MayPrune, SortNames, Ascending;
    var wanted := KeysOf(desired);
    var present := KeysOf(existing);
    var managed: seq<string> := [];
    for i := 0 to |present|
      invariant forall n :: n in managed <==> n in present[..i] && IsManaged(s, n)
    {
      assert present[..i + 1] == present[..i] + [present[i]];
      if IsManaged(s, present[i]) {
        managed := managed + [present[i]];
      }
    }
    assert present[..|present|] == present;
    var names := SortNames(wanted + managed);
    SortNamesSorts(wanted + managed);
    assert forall n :: n in names <==> Concerned(s, desired, existing, n);
    changes := [];
    assert names[0..] == names;
    for i := 0 to |names|
      invariant changes + PlanOver(s, desired, existing, names[i..]) == PlanOver(s, desired, existing, names)
    {
      assert names[i..][1..] == names[i + 1..];
      var more := ChangesFor(s, desired, existing, names[i]);
      Regroup(changes, more, PlanOver(s, desired, existing, names[i + 1..]));
      changes := changes + more;
    }
    assert changes + [] == changes;
    assert PlanNames(s, desired, existing, names);
  }

  lemma Regroup<T>(a: seq<T>, b: seq<T>, c: seq<T>)
    ensures a + (b + c) == a + b + c
  {
  }

  // ---------- applying changes to the index ----------

  function NewRecord(name: string, ttl: int, address: string): RecordSet {
    RecordSet(name, "A", ttl, [address], "")
  }

  function ApplyOne(existing: Index, c: Change): Index {
    match c
    case Delete(name, _) => existing - {name}
    case Add(name, ttl, address) => existing[name := NewRecord(name, ttl, address)]
    case Update(name, ttl, address, _) => existing[name := NewRecord(name, ttl, address)]
  }

  function ApplyAll(existing: Index, changes: seq<Change>): Index
    decreases |changes|
  {
    if changes == [] then existing else ApplyAll(ApplyOne(existing, changes[0]), changes[1..])
  }

  /** The record at one name after its own changes. */
  function Outcome(s: Settings, desired: Desired, existing: Index, name: string): Option<RecordSet> {
    var have := name in existing && IsManaged(s, name);
    if name in desired then
      if have && UpToDate(existing[name], s.ttl, desired[name]) then Some(existing[name])
      else Some(NewRecord(name, s.ttl, desired[name]))
    else if have && MayPrune(s, name) then None
    else if name in existing then Some(existing[name])
    else None
  }

  function Get(existing: Index, name: string): Option<RecordSet> {
    if name in existing then Some(existing[name]) else None
  }

  lemma ChangesForEffect(s: Settings, desired: Desired, existing: Index, current: Index, name: string)
    requires Get(current, name) == Get(existing, name)
    ensures var after := ApplyAll(current, ChangesFor(s, desired, existing, name));
            && Get(after, name) == Outcome(s, desired, existing, name)
            && forall n :: n != name ==> Get(after, n) == Get(current, n)
  {
    hide IsManaged, MayPrune;
    var cs := ChangesFor(s, desired, existing, name);
    if cs != [] {
      assert cs[1..] == [];
      assert ApplyAll(current, cs) == ApplyAll(ApplyOne(current, cs[0]), []);
    }
  }

  lemma {:induction false} ApplyConcat(existing: Index, a: seq<Change>, b: seq<Change>)
    ensures ApplyAll(existing, a + b) == ApplyAll(ApplyAll(existing, a), b)
    decreases |a|
  {
    hide ApplyOne;
    if a == [] {
      assert [] + b == b;
    } else {
      assert (a + b)[1..] == a[1..] + b;
      ApplyConcat(ApplyOne(existing, a[0]), a[1..], b);
    }
  }

  lemma AscendingNotIn(names: seq<string>)
    requires Ascending(names) && names != []
    ensures Ascending(names[1..]) && names[0] !in names[1..]
    ensures forall n :: n in names <==> n == names[0] || n in names[1..]
  {
    hide Less;
    AscendingTail(names);
  }

  /** The whole plan brings every name it goes over to its outcome and touches no other. */
  lemma {:induction false} PlanEffect(s: Settings, desired: Desired, existing: Index, names: seq<string>,
                                      current: Index)
    requires Ascending(names)
    requires forall n :: n in names ==> Get(current, n) == Get(existing, n)
    ensures forall n :: Get(ApplyAll(current, PlanOver(s, desired, existing, names)), n) ==
                        if n in names then Outcome(s, desired, existing, n) else Get(current, n)
  {
    hide ChangesFor, Outcome, ApplyAll, Ascending, Get;
    if names == [] {
      NoChanges(current);
    } else {
      AscendingNotIn(names);
      var cs := ChangesFor(s, desired, existing, names[0]);
      var after := ApplyAll(current, cs);
      ChangesForEffect(s, desired, existing, current, names[0]);
      PlanEffect(s, desired, existing, names[1..], after);
      ApplyConcat(current, cs, PlanOver(s, desired, existing, names[1..]));
    }
  }

  lemma NoChanges(current: Index)
    ensures ApplyAll(current, []) == current
  {
  }

  /** After the plan every name of the zone is at its outcome. */
  lemma PlanReachesOutcome(s: Settings, desired: Desired, existing: Index, changes: seq<Change>, n: string)
    requires IsPlan(s, desired, existing, changes)
    ensures Get(ApplyAll(existing, changes), n) == Outcome(s, desired, existing, n)
  {
    hide MayPrune, Ascending, ApplyAll, PlanOver, Outcome, Get, Concerned;
    var names :| PlanNames(s, desired, existing, names) && changes == PlanOver(s, desired, existing, names);
    PlanEffect(s, desired, existing, names, existing);
    if n !in names {
      Unconcerned(s, desired, existing, n);
    }
  }

  lemma Unconcerned(s: Settings, desired: Desired, existing: Index, n: string)
    requires !Concerned(s, desired, existing, n)
    ensures Outcome(s, desired, existing, n) == Get(existing, n)
    ensures ChangesFor(s, desired, existing, n) == []
  {
    hide IsManaged, MayPrune;
  }

  lemma OutcomeSettles(s: Settings, desired: Desired, existing: Index, after: Index, n: string)
    requires Get(after, n) == Outcome(s, desired, existing, n)
    requires n in desired ==> IsManaged(s, n)
    ensures ChangesFor(s, desired, after, n) == []
  {
    hide IsManaged, MayPrune;
  }

  ghost predicate DesiredManaged(s: Settings, desired: Desired) {
    forall n :: n in desired ==> IsManaged(s, n)
  }

  /** Applying the plan: every desired name has exactly one address and the given TTL; a
      managed name that is not desired is gone if it may be pruned; everything else,
      managed or not, is exactly as it was. */
  lemma PlanConverges(s: Settings, desired: Desired, existing: Index, changes: seq<Change>, n: string)
    requires IsPlan(s, desired, existing, changes) && DesiredManaged(s, desired)
    ensures var after := ApplyAll(existing, changes);
            && (n in desired ==> n in after && UpToDate(after[n], s.ttl, desired[n]))
            && (n !in desired && IsManaged(s, n) && MayPrune(s, n) ==> n !in after)
            && (n !in desired && !(IsManaged(s, n) && MayPrune(s, n)) ==> Get(after, n) == Get(existing, n))
            && (n in desired && n in existing && UpToDate(existing[n], s.ttl, desired[n]) ==> after[n] == existing[n])
  {
    hide IsManaged, MayPrune, ApplyAll, IsPlan;
    PlanReachesOutcome(s, desired, existing, changes, n);
  }

  /** What the options for deleting mean: with --no-prune nothing is deleted; with a server
      filter only names of the selected servers are; otherwise every stale managed name is. */
  lemma PruneScopeDecides(s: Settings, serverNames: set<string>, filtered: bool, prune: bool,
                          desired: Desired, existing: Index, changes: seq<Change>, n: string)
    requires s.prune == PruneScope(serverNames, filtered, prune)
    requires IsPlan(s, desired, existing, changes) && DesiredManaged(s, desired)
    requires n in existing && n !in desired
    ensures var after := ApplyAll(existing, changes);
            var deleted := prune && IsManaged(s, n)
                           && (!filtered || ManagedLabel(n, s.zone, s.prefixes).value in serverNames);
            if deleted then n !in after else n in after && after[n] == existing[n]
  {
    hide ApplyAll, IsPlan, ManagedLabel;
    PlanConverges(s, desired, existing, changes, n);
  }

  /** Planning again after the plan was applied gives no changes. */
  lemma PlanSettles(s: Settings, desired: Desired, existing: Index, changes: seq<Change>, again: seq<Change>)
    requires IsPlan(s, desired, existing, changes) && DesiredManaged(s, desired)
    requires IsPlan(s, desired, ApplyAll(existing, changes), again)
    ensures again == []
  {
    hide IsManaged, MayPrune, ApplyAll, Outcome, ChangesFor, Get, PlanNames, PlanOver;
    var after := ApplyAll(existing, changes);
    var names :| PlanNames(s, desired, after, names) && again == PlanOver(s, desired, after, names);
    forall n
      ensures ChangesFor(s, desired, after, n) == []
    {
      PlanReachesOutcome(s, desired, existing, changes, n);
      OutcomeSettles(s, desired, existing, after, n);
    }
    NothingLeft(s, desired, after, names);
  }

  lemma {:induction false} NothingLeft(s: Settings, desired: Desired, existing: Index, names: seq<string>)
    requires forall n :: n in names ==> ChangesFor(s, desired, existing, n) == []
    ensures PlanOver(s, desired, existing, names) == []
  {
    hide ChangesFor;
    if names != [] {
      assert names[0] in names;
      NothingLeft(s, desired, existing, names[1..]);
    }
  }

  // ---------- stopping after some changes and planning again ----------

  lemma AtMostOne(s: Settings, desired: Desired, existing: Index, n: string)
    ensures |ChangesFor(s, desired, existing, n)| <= 1
  {
    hide IsManaged, MayPrune;
  }

  /** Where in the list of names the first `k` changes of the plan end. */
  lemma {:induction false} SplitPoint(s: Settings, desired: Desired, existing: Index, names: seq<string>, k: nat)
    returns (j: nat)
    requires k <= |PlanOver(s, desired, existing, names)|
    ensures j <= |names|
    ensures PlanOver(s, desired, existing, names[..j]) == PlanOver(s, desired, existing, names)[..k]
    ensures PlanOver(s, desired, existing, names[j..]) == PlanOver(s, desired, existing, names)[k..]
  {
    hide ChangesFor;
    if k == 0 {
      j := 0;
      assert names[0..] == names;
    } else {
      var first, rest := ChangesFor(s, desired, existing, names[0]), PlanOver(s, desired, existing, names[1..]);
      AtMostOne(s, desired, existing, names[0]);
      var i := SplitPoint(s, desired, existing, names[1..], k - |first|);
      j := i + 1;
      TakeJoin(names, i);
      Cuts(first, rest, k);
    }
  }

  lemma TakeJoin(names: seq<string>, i: nat)
    requires i < |names|
    ensures names[..i + 1][0] == names[0] && names[..i + 1][1..] == names[1..][..i]
    ensures names[1..][i..] == names[i + 1..]
  {
  }

  lemma Cuts<T>(a: seq<T>, b: seq<T>, k: nat)
    requires |a| <= k <= |a| + |b|
    ensures (a + b)[..k] == a + b[..k - |a|] && (a + b)[k..] == b[k - |a|..]
  {
  }

  /** Names without changes may be left out of the list or put into it. */
  lemma {:induction false} DropQuiet(s: Settings, desired: Desired, existing: Index, names: seq<string>,
                                     fewer: seq<string>)
    requires Ascending(names) && Ascending(fewer)
    requires forall n :: n in fewer ==> n in names
    requires forall n :: n in names && n !in fewer ==> ChangesFor(s, desired, existing, n) == []
    ensures PlanOver(s, desired, existing, names) == PlanOver(s, desired, existing, fewer)
  {
    hide ChangesFor, Ascending;
    if names == [] {
      HeadMember(fewer);
    } else {
      AscendingNotIn(names);
      if names[0] in fewer {
        HeadMember(fewer);
        AscendingFirst(names, fewer);
        AscendingNotIn(fewer);
        DropQuiet(s, desired, existing, names[1..], fewer[1..]);
      } else {
        DropQuiet(s, desired, existing, names[1..], fewer);
      }
    }
  }

  lemma {:induction false} PlanJoin(s: Settings, desired: Desired, existing: Index, a: seq<string>, b: seq<string>)
    ensures PlanOver(s, desired, existing, a + b) ==
            PlanOver(s, desired, existing, a) + PlanOver(s, desired, existing, b)
  {
    hide ChangesFor;
    if a == [] {
      assert [] + b == b;
    } else {
      assert (a + b)[1..] == a[1..] + b;
      PlanJoin(s, desired, existing, a[1..], b);
    }
  }

  lemma {:induction false} SameChanges(s: Settings, desired: Desired, existing: Index, existing': Index,
                                       names: seq<string>)
    requires forall n :: n in names ==> ChangesFor(s, desired, existing, n) == ChangesFor(s, desired, existing', n)
    ensures PlanOver(s, desired, existing, names) == PlanOver(s, desired, existing', names)
  {
    hide ChangesFor;
    if names != [] {
      assert names[0] in names;
      SameChanges(s, desired, existing, existing', names[1..]);
    }
  }

  /** The state after the first `j` names of a plan. */
  ghost predicate Partway(s: Settings, desired: Desired, existing: Index, names: seq<string>, j: nat, current: Index)
    requires j <= |names|
  {
    forall n :: Get(current, n) == if n in names[..j] then Outcome(s, desired, existing, n) else Get(existing, n)
  }

  lemma PartwayDone(s: Settings, desired: Desired, existing: Index, names: seq<string>, j: nat, current: Index)
    requires j <= |names| && Partway(s, desired, existing, names, j, current) && DesiredManaged(s, desired)
    ensures forall n :: n in names[..j] ==> ChangesFor(s, desired, current, n) == []
  {
    hide ChangesFor, Outcome, IsManaged, Get;
    forall n | n in names[..j]
      ensures ChangesFor(s, desired, current, n) == []
    {
      OutcomeSettles(s, desired, existing, current, n);
    }
  }

  lemma AscendingParts(names: seq<string>, j: nat)
    requires Ascending(names) && j <= |names|
    ensures Ascending(names[..j])
    ensures forall n :: n in names[j..] ==> n !in names[..j]
  {
    hide Less;
    forall n | n in names[j..]
      ensures n !in names[..j]
    {
      var k :| 0 <= k < |names[j..]| && names[j..][k] == n;
      forall i | 0 <= i < j
        ensures names[i] != n
      {
        assert Less(names[i], names[j + k]);
        LessIrreflexive(n);
      }
    }
  }

  lemma SameRecordSameChanges(s: Settings, desired: Desired, existing: Index, current: Index, n: string)
    requires Get(existing, n) == Get(current, n)
    ensures ChangesFor(s, desired, existing, n) == ChangesFor(s, desired, current, n)
  {
    hide IsManaged, MayPrune;
  }

  lemma PartwayToDo(s: Settings, desired: Desired, existing: Index, names: seq<string>, j: nat, current: Index)
    requires Ascending(names) && j <= |names| && Partway(s, desired, existing, names, j, current)
    ensures PlanOver(s, desired, current, names[j..]) == PlanOver(s, desired, existing, names[j..])
  {
    hide ChangesFor, Outcome, Get, PlanOver, Ascending;
    AscendingParts(names, j);
    forall n | n in names[j..]
      ensures ChangesFor(s, desired, current, n) == ChangesFor(s, desired, existing, n)
    {
      SameRecordSameChanges(s, desired, existing, current, n);
    }
    SameChanges(s, desired, current, existing, names[j..]);
  }

  lemma PartwayConcerned(s: Settings, desired: Desired, existing: Index, names: seq<string>, j: nat, current: Index,
                         n: string)
    requires j <= |names| && Partway(s, desired, existing, names, j, current)
    requires Concerned(s, desired, current, n)
    ensures Concerned(s, desired, existing, n)
  {
    hide IsManaged, MayPrune;
    assert Get(current, n) == if n in names[..j] then Outcome(s, desired, existing, n) else Get(existing, n);
  }

  /** The planner, run again in the middle of its own plan, goes on where it stopped. */
  lemma PartwayPlan(s: Settings, desired: Desired, existing: Index, names: seq<string>, j: nat, current: Index,
                    again: seq<Change>)
    requires PlanNames(s, desired, existing, names) && j <= |names|
    requires Partway(s, desired, existing, names, j, current) && DesiredManaged(s, desired)
    requires IsPlan(s, desired, current, again)
    ensures again == PlanOver(s, desired, existing, names[j..])
  {
    hide ChangesFor, Ascending, Concerned, PlanOver, Partway, DesiredManaged;
    var names' :| PlanNames(s, desired, current, names') && again == PlanOver(s, desired, current, names');
    forall n | n in names'
      ensures n in names
    {
      PartwayConcerned(s, desired, existing, names, j, current, n);
    }
    forall n | n in names && n !in names'
      ensures ChangesFor(s, desired, current, n) == []
    {
      Unconcerned(s, desired, current, n);
    }
    DropQuiet(s, desired, current, names, names');
    assert names == names[..j] + names[j..];
    PlanJoin(s, desired, current, names[..j], names[j..]);
    PartwayDone(s, desired, existing, names, j, current);
    NothingLeft(s, desired, current, names[..j]);
    PartwayToDo(s, desired, existing, names, j, current);
    assert [] + PlanOver(s, desired, existing, names[j..]) == PlanOver(s, desired, existing, names[j..]);
  }

  lemma PrefixIsPartway(s: Settings, desired: Desired, existing: Index, names: seq<string>, j: nat)
    requires Ascending(names) && j <= |names|
    ensures Partway(s, desired, existing, names, j, ApplyAll(existing, PlanOver(s, desired, existing, names[..j])))
  {
    hide Outcome, Get, PlanOver, Ascending, ApplyAll;
    AscendingParts(names, j);
    PlanEffect(s, desired, existing, names[..j], existing);
  }

  /** Stopped after any number of changes, whatever may be pruned: the next plan is exactly
      the changes that are left, so the resumed run ends with the same records. */
  lemma PlanResumes(s: Settings, desired: Desired, existing: Index, changes: seq<Change>, k: nat, again: seq<Change>)
    requires IsPlan(s, desired, existing, changes) && DesiredManaged(s, desired)
    requires k <= |changes| && IsPlan(s, desired, ApplyAll(existing, changes[..k]), again)
    ensures again == changes[k..]
    ensures ApplyAll(ApplyAll(existing, changes[..k]), again) == ApplyAll(existing, changes)
  {
    hide DesiredManaged, Ascending, Concerned, PlanOver, ApplyAll, Partway;
    var names :| PlanNames(s, desired, existing, names) && changes == PlanOver(s, desired, existing, names);
    var j := SplitPoint(s, desired, existing, names, k);
    PrefixIsPartway(s, desired, existing, names, j);
    PartwayPlan(s, desired, existing, names, j, ApplyAll(existing, changes[..k]), again);
    assert changes == changes[..k] + changes[k..];
    ApplyConcat(existing, changes[..k], changes[k..]);
  }
}
