/** Runs of register_private_dns.py against a zone: batches are the same as single changes,
    the service never objects, nothing but the planned names moves, and runs that stopped
    anywhere are completed by the next one. */
module DnsResume {
  import opened Order
  import opened DnsNames
  import opened DnsPlan
  import opened DnsZone

  // ---------- a batch is its changes one by one ----------

  lemma {:induction false} DeletionsHave(changes: seq<Change>, d: RecordSet)
    ensures d in Deletions(changes) <==> exists c :: c in changes && !c.Add? && c.previous == d
  {
    if changes != [] {
      assert forall c :: c in changes <==> c == changes[0] || c in changes[1..];
      DeletionsHave(changes[1..], d);
    }
  }

  lemma {:induction false} AdditionsHave(changes: seq<Change>, a: RecordSet)
    ensures a in Additions(changes) <==>
            exists c :: c in changes && !c.Delete? && a == NewRecord(c.fqdn, c.ttl, c.address)
  {
    hide NewRecord;
    if changes != [] {
      assert forall c :: c in changes <==> c == changes[0] || c in changes[1..];
      AdditionsHave(changes[1..], a);
    }
  }

  /** What one change adds is nothing that the changes of other names delete. */
  lemma OthersDoNotDelete(zone: string, records: set<RecordSet>, ix: Index, name: string, ttl: int, address: string,
                          rest: seq<Change>)
    requires Indexes(zone, records, ix) && AbsoluteName(name, zone) == name
    requires forall c :: c in rest ==> FitsOne(zone, ix, c) && c.fqdn != name
    ensures NewRecord(name, ttl, address) !in Deletions(rest)
  {
    hide AbsoluteName;
    DeletionsHave(rest, NewRecord(name, ttl, address));
  }

  lemma Reorder<T>(records: set<T>, d: set<T>, a: set<T>, d': set<T>, a': set<T>)
    requires a !! d'
    ensures (((records - d) + a) - d') + a' == (records - (d + d')) + (a + a')
  {
  }

  lemma SetOfJoin<T>(a: seq<T>, b: seq<T>)
    ensures SetOf(a + b) == SetOf(a) + SetOf(b)
  {
  }

  lemma StepIsExchange(records: set<RecordSet>, c: Change)
    ensures ZoneStep(records, c) == Exchange(records, Removed(c), Added(c))
  {
  }

  lemma SubmittedStep(records: set<RecordSet>, changes: seq<Change>)
    requires changes != []
    requires SetOf(Added(changes[0])) !! SetOf(Deletions(changes[1..]))
    ensures Submitted(records, changes) == Submitted(ZoneStep(records, changes[0]), changes[1..])
  {
    hide NewRecord, Added, Removed, ZoneStep;
    var c, rest := changes[0], changes[1..];
    SetOfJoin(Removed(c), Deletions(rest));
    SetOfJoin(Added(c), Additions(rest));
    Reorder(records, SetOf(Removed(c)), SetOf(Added(c)), SetOf(Deletions(rest)), SetOf(Additions(rest)));
    StepIsExchange(records, c);
  }

  lemma {:induction false} BatchIsSteps(zone: string, records: set<RecordSet>, ix: Index, changes: seq<Change>)
    requires Indexes(zone, records, ix) && Fits(zone, ix, changes)
    ensures Submitted(records, changes) == ZoneAfter(records, changes)
    decreases |changes|
  {
    hide Indexes, Fits, ApplyOne, ZoneStep, NewRecord, AbsoluteName;
    if changes != [] {
      FitsTail(zone, ix, changes);
      var c := changes[0];
      StepKeepsIndex(zone, records, ix, c);
      BatchIsSteps(zone, ZoneStep(records, c), ApplyOne(ix, c), changes[1..]);
      if !c.Delete? {
        OthersDoNotDelete(zone, records, ix, c.fqdn, c.ttl, c.address, changes[1..]);
      }
      SubmittedStep(records, changes);
    } else {
      assert (records - SetOf([])) + SetOf([]) == records;
    }
  }

  // ---------- the service never objects ----------

  lemma {:induction false} AddedNamesDiffer(zone: string, ix: Index, changes: seq<Change>)
    requires Fits(zone, ix, changes)
    ensures forall i, j :: 0 <= i < j < |Additions(changes)| ==>
            Additions(changes)[i].name != Additions(changes)[j].name
    decreases |changes|
  {
    hide AbsoluteName;
    if changes != [] {
      FitsTail(zone, ix, changes);
      AddedNamesDiffer(zone, ApplyOne(ix, changes[0]), changes[1..]);
      forall a | a in Additions(changes[1..])
        ensures a.name != changes[0].fqdn
      {
        AdditionsHave(changes[1..], a);
      }
    }
  }

  lemma AddedName(zone: string, ix: Index, changes: seq<Change>, a: RecordSet) returns (c: Change)
    requires Fits(zone, ix, changes) && a in Additions(changes)
    ensures c in changes && !c.Delete? && a == NewRecord(c.fqdn, c.ttl, c.address)
    ensures a.name == c.fqdn && AbsoluteName(a.name, zone) == a.name && FitsOne(zone, ix, c)
  {
    hide AbsoluteName;
    AdditionsHave(changes, a);
    c :| c in changes && !c.Delete? && a == NewRecord(c.fqdn, c.ttl, c.address);
  }

  /** Everything a batch deletes is there as it is written, and everything it adds has a
      name that is free by then: the service takes the request. */
  lemma BatchIsAccepted(zone: string, records: set<RecordSet>, ix: Index, changes: seq<Change>)
    requires Indexes(zone, records, ix) && Fits(zone, ix, changes)
    ensures Accepts(zone, records, Deletions(changes), Additions(changes))
  {
    hide AbsoluteName, NewRecord;
    forall d | d in Deletions(changes)
      ensures d in records
    {
      DeletionsHave(changes, d);
    }
    forall a, r | a in Additions(changes) && r in records && Twins(zone, a, r)
      ensures r in Deletions(changes)
    {
      var c := AddedName(zone, ix, changes, a);
      assert ix[c.fqdn] == r;
      DeletionsHave(changes, r);
    }
    AddedNamesDiffer(zone, ix, changes);
    forall i, j | 0 <= i < j < |Additions(changes)|
      ensures !Twins(zone, Additions(changes)[i], Additions(changes)[j])
    {
      var c := AddedName(zone, ix, changes, Additions(changes)[i]);
      var c' := AddedName(zone, ix, changes, Additions(changes)[j]);
    }
  }

  // ---------- sending ----------

  lemma {:induction false} FitsRest(zone: string, ix: Index, changes: seq<Change>, k: nat)
    requires Fits(zone, ix, changes) && k <= |changes|
    ensures Fits(zone, ix, changes[..k]) && Fits(zone, ApplyAll(ix, changes[..k]), changes[k..])
    decreases k
  {
    hide FitsOne, ApplyOne;
    if k == 0 {
      assert changes[0..] == changes;
    } else {
      FitsTail(zone, ix, changes);
      FitsRest(zone, ApplyOne(ix, changes[0]), changes[1..], k - 1);
      assert changes[..k][1..] == changes[1..][..k - 1] && changes[1..][k - 1..] == changes[k..];
    }
  }

  lemma {:induction false} ZoneAfterJoin(records: set<RecordSet>, a: seq<Change>, b: seq<Change>)
    ensures ZoneAfter(records, a + b) == ZoneAfter(ZoneAfter(records, a), b)
    decreases |a|
  {
    hide ZoneStep;
    if a == [] {
      assert [] + b == b;
    } else {
      assert (a + b)[1..] == a[1..] + b;
      ZoneAfterJoin(ZoneStep(records, a[0]), a[1..], b);
    }
  }

  predicate AllWork(replies: seq<Reply>) {
    forall r :: r in replies ==> r.Works?
  }

  lemma SendFirst(zone: string, records: set<RecordSet>, changes: seq<Change>, size: nat, n: nat,
                  after: set<RecordSet>, replies: seq<Reply>)
    requires size > 0 && changes != [] && n == if |changes| <= size then |changes| else size
    requires after == Submitted(records, changes[..n])
    requires Accepts(zone, records, Deletions(changes[..n]), Additions(changes[..n]))
    ensures Send(zone, records, Batches(changes, size), replies) ==
            match NextReply(replies)
            case Works => Send(zone, after, Batches(changes[n..], size), LaterReplies(replies))
            case Refuses => (records, false)
            case LosesReply => (after, false)
  {
    hide Batches, Accepts, Exchange;
    BatchesFirst(changes, size);
  }

  lemma SendNothing(zone: string, records: set<RecordSet>, size: nat, replies: seq<Reply>)
    requires size > 0
    ensures ZoneAfter(records, []) == records && Send(zone, records, Batches([], size), replies) == (records, true)
  {
  }

  /** How many changes the first `batches` batches hold. */
  function Reach(batches: nat, size: nat, total: nat): (k: nat)
    ensures k <= total
  {
    if batches * size <= total then batches * size else total
  }

  lemma ReachMore(batches: nat, size: nat, total: nat)
    requires size > 0
    ensures var n := if total <= size then total else size;
            n <= total && Reach(batches + 1, size, total) == n + Reach(batches, size, total - n)
    ensures Reach(1, size, total) == if total <= size then total else size
    ensures Reach(0, size, total) == 0
  {
    assert (batches + 1) * size == batches * size + size;
    assert batches * size >= 0;
  }

  /** However the requests fare, the zone ends up with some number of whole batches of the
      plan applied, one change after another; all of them if `apply_changes` returned, and
      it returns if no request fails. */
  lemma {:induction false} SendAppliesPrefix(zone: string, records: set<RecordSet>, ix: Index, changes: seq<Change>,
                                             size: nat, replies: seq<Reply>)
      returns (m: nat)
    requires Indexes(zone, records, ix) && Fits(zone, ix, changes) && size > 0
    ensures Send(zone, records, Batches(changes, size), replies).0 ==
            ZoneAfter(records, changes[..Reach(m, size, |changes|)])
    ensures Send(zone, records, Batches(changes, size), replies).1 ==> Reach(m, size, |changes|) == |changes|
    ensures AllWork(replies) ==> Send(zone, records, Batches(changes, size), replies).1
    decreases |changes|
  {
    hide Indexes, Fits, Accepts, ApplyAll, ZoneAfter, Submitted, Send, Batches, Reach;
    if changes == [] {
      m := 0;
      ReachMore(0, size, 0);
      SendNothing(zone, records, size, replies);
    } else {
      var n := if |changes| <= size then |changes| else size;
      FitsRest(zone, ix, changes, n);
      BatchIsSteps(zone, records, ix, changes[..n]);
      ChangesKeepIndex(zone, records, ix, changes[..n]);
      BatchIsAccepted(zone, records, ix, changes[..n]);
      var after := ZoneAfter(records, changes[..n]);
      SendFirst(zone, records, changes, size, n, after, replies);
      match NextReply(replies)
      case Works =>
        var later := SendAppliesPrefix(zone, after, ApplyAll(ix, changes[..n]), changes[n..], size,
              LaterReplies(replies));
        m := later + 1;
        var k := Reach(later, size, |changes| - n);
        ReachMore(later, size, |changes|);
        TakeTake(changes, n, k);
        ZoneAfterJoin(records, changes[..n], changes[n..][..k]);
      case Refuses =>
        m := 0;
        ReachMore(0, size, |changes|);
        SendNothing(zone, records, size, []);
        assert changes[..0] == [];
      case LosesReply =>
        m := 1;
        ReachMore(0, size, |changes|);
    }
  }

  lemma TakeTake<T>(s: seq<T>, n: nat, m: nat)
    requires n + m <= |s|
    ensures s[..n] + s[n..][..m] == s[..n + m]
  {
  }

  lemma BatchesFirst(changes: seq<Change>, size: nat)
    requires size > 0 && changes != []
    ensures var n := if |changes| <= size then |changes| else size;
            Batches(changes, size) == [changes[..n]] + Batches(changes[n..], size)
  {
    if |changes| <= size {
      assert changes[..|changes|] == changes;
    }
  }

  // ---------- plans fit the zone they were made for ----------

  /** What holds of the desired names of any run: the script's own, written absolutely. */
  ghost predicate Ready(s: Settings, desired: Desired) {
    && IsZone(s.zone) && DesiredManaged(s, desired)
    && forall n :: n in desired ==> AbsoluteName(n, s.zone) == n
  }

  lemma IndexNamesAbsolute(s: Settings, records: set<RecordSet>, ix: Index)
    requires IsZone(s.zone) && Indexes(s.zone, records, ix)
    ensures forall n :: n in ix ==> AbsoluteName(n, s.zone) == n
  {
    hide AbsoluteName;
    forall n | n in ix
      ensures AbsoluteName(n, s.zone) == n
    {
      AbsoluteIsStable(ix[n].name, s.zone);
    }
  }

  lemma ChangeFits(s: Settings, desired: Desired, records: set<RecordSet>, ix: Index, n: string, c: Change)
    requires Ready(s, desired) && Indexes(s.zone, records, ix) && c in ChangesFor(s, desired, ix, n)
    ensures c.fqdn == n && FitsOne(s.zone, ix, c) && IsManaged(s, n)
  {
    hide IsManaged, MayPrune, AbsoluteName, Indexes;
    IndexNamesAbsolute(s, records, ix);
  }

  lemma {:induction false} PlanFits(s: Settings, desired: Desired, records: set<RecordSet>, ix: Index,
                                    names: seq<string>)
    requires Ready(s, desired) && Indexes(s.zone, records, ix) && Ascending(names)
    ensures Fits(s.zone, ix, PlanOver(s, desired, ix, names))
    ensures forall c :: c in PlanOver(s, desired, ix, names) ==> c.fqdn in names && IsManaged(s, c.fqdn)
  {
    hide IsManaged, Ascending, ChangesFor, Indexes, Ready, FitsOne;
    if names != [] {
      AscendingNotIn(names);
      PlanFits(s, desired, records, ix, names[1..]);
      var cs := ChangesFor(s, desired, ix, names[0]);
      AtMostOne(s, desired, ix, names[0]);
      forall c | c in cs
        ensures c.fqdn == names[0] && FitsOne(s.zone, ix, c) && IsManaged(s, c.fqdn)
      {
        ChangeFits(s, desired, records, ix, names[0], c);
      }
    }
  }

  lemma APlanFits(s: Settings, desired: Desired, records: set<RecordSet>, ix: Index, changes: seq<Change>)
    requires Ready(s, desired) && Indexes(s.zone, records, ix) && IsPlan(s, desired, ix, changes)
    ensures Fits(s.zone, ix, changes)
    ensures forall c :: c in changes ==> IsManaged(s, c.fqdn)
  {
    hide IsManaged, Ascending, Indexes, Ready, Fits, PlanOver, Concerned;
    var names :| PlanNames(s, desired, ix, names) && changes == PlanOver(s, desired, ix, names);
    PlanFits(s, desired, records, ix, names);
  }

  // ---------- what a run leaves alone ----------

  predicate Foreign(s: Settings, r: RecordSet) {
    r.kind != "A" || !IsManaged(s, AbsoluteName(r.name, s.zone))
  }

  lemma {:induction false} ForeignStays(s: Settings, records: set<RecordSet>, ix: Index, changes: seq<Change>,
                                        r: RecordSet)
    requires Indexes(s.zone, records, ix) && Fits(s.zone, ix, changes) && Foreign(s, r)
    requires forall c :: c in changes ==> IsManaged(s, c.fqdn)
    ensures r in ZoneAfter(records, changes) <==> r in records
    decreases |changes|
  {
    hide Fits, IsManaged, AbsoluteName, ApplyOne;
    if changes != [] {
      var c := changes[0];
      FitsTail(s.zone, ix, changes);
      StepKeepsIndex(s.zone, records, ix, c);
      assert r in ZoneStep(records, c) <==> r in records;
      ForeignStays(s, ZoneStep(records, c), ApplyOne(ix, c), changes[1..], r);
    }
  }

  // ---------- whole runs ----------

  /** One run of the script: read the zone, plan, send. */
  ghost predicate Ran(s: Settings, desired: Desired, records: set<RecordSet>, replies: seq<Reply>,
                      after: set<RecordSet>, ok: bool) {
    exists ix, changes ::
      && Indexes(s.zone, records, ix) && IsPlan(s, desired, ix, changes)
      && (after, ok) == Send(s.zone, records, Batches(changes, UPDATE_BATCH), replies)
  }

  /** The zone as a complete run should leave it. */
  ghost predicate Converged(s: Settings, desired: Desired, records: set<RecordSet>) {
    && (forall n :: n in desired ==> exists r :: r in records && r.kind == "A" && AbsoluteName(r.name, s.zone) == n)
    && (forall r :: r in records && !Foreign(s, r) && AbsoluteName(r.name, s.zone) in desired ==>
          UpToDate(r, s.ttl, desired[AbsoluteName(r.name, s.zone)]))
    && (forall r :: r in records && !Foreign(s, r) && AbsoluteName(r.name, s.zone) !in desired ==>
          !MayPrune(s, AbsoluteName(r.name, s.zone)))
  }

  /** A run in which no request fails returns normally.  Every desired name then has exactly
      the one address and the TTL, and the managed A records that are not desired are those
      that may not be pruned: none, when there is no pruning limit. */
  lemma RunConverges(s: Settings, desired: Desired, records: set<RecordSet>, replies: seq<Reply>,
                     after: set<RecordSet>, ok: bool)
    requires Ready(s, desired) && AllWork(replies) && Ran(s, desired, records, replies, after, ok)
    ensures ok && Converged(s, desired, after)
  {
    hide Ready, AllWork, Send, Batches, ZoneAfter, ApplyAll, Fits, Converged, Indexes, IsPlan, Reach;
    var ix, changes :|
      && Indexes(s.zone, records, ix) && IsPlan(s, desired, ix, changes)
      && (after, ok) == Send(s.zone, records, Batches(changes, UPDATE_BATCH), replies);
    APlanFits(s, desired, records, ix, changes);
    var m := SendAppliesPrefix(s.zone, records, ix, changes, UPDATE_BATCH, replies);
    assert changes[..|changes|] == changes;
    ChangesKeepIndex(s.zone, records, ix, changes);
    IndexConverged(s, desired, ix, changes, after);
  }

  lemma IndexConverged(s: Settings, desired: Desired, ix: Index, changes: seq<Change>, after: set<RecordSet>)
    requires Ready(s, desired) && IsPlan(s, desired, ix, changes)
    requires Indexes(s.zone, after, ApplyAll(ix, changes))
    ensures Converged(s, desired, after)
  {
    hide IsPlan, AbsoluteName, IsManaged, ApplyAll, UpToDate;
    var ix' := ApplyAll(ix, changes);
    forall n | n in desired
      ensures exists r :: r in after && r.kind == "A" && AbsoluteName(r.name, s.zone) == n
    {
      PlanConverges(s, desired, ix, changes, n);
      assert ix'[n] in after;
    }
    forall r | r in after && !Foreign(s, r)
      ensures AbsoluteName(r.name, s.zone) in desired ==> UpToDate(r, s.ttl, desired[AbsoluteName(r.name, s.zone)])
      ensures AbsoluteName(r.name, s.zone) !in desired ==> !MayPrune(s, AbsoluteName(r.name, s.zone))
    {
      PlanConverges(s, desired, ix, changes, AbsoluteName(r.name, s.zone));
    }
  }

  /** Every record of another type, and every A record whose name the script does not manage,
      is there after a run exactly if it was there before, however the run ended. */
  lemma RunLeavesForeign(s: Settings, desired: Desired, records: set<RecordSet>, replies: seq<Reply>,
                         after: set<RecordSet>, ok: bool, r: RecordSet)
    requires Ready(s, desired) && Ran(s, desired, records, replies, after, ok) && Foreign(s, r)
    ensures r in after <==> r in records
  {
    hide Ready, Send, Batches, ZoneAfter, Fits, Indexes, IsPlan, Foreign, Reach, IsManaged;
    var ix, changes :|
      && Indexes(s.zone, records, ix) && IsPlan(s, desired, ix, changes)
      && (after, ok) == Send(s.zone, records, Batches(changes, UPDATE_BATCH), replies);
    APlanFits(s, desired, records, ix, changes);
    var m := SendAppliesPrefix(s.zone, records, ix, changes, UPDATE_BATCH, replies);
    FitsRest(s.zone, ix, changes, Reach(m, UPDATE_BATCH, |changes|));
    ForeignStays(s, records, ix, changes[..Reach(m, UPDATE_BATCH, |changes|)], r);
  }

  /** A stale record of the script that may not be pruned is left alone like a foreign one. */
  predicate Kept(s: Settings, desired: Desired, r: RecordSet) {
    r.kind == "A" && AbsoluteName(r.name, s.zone) !in desired && !MayPrune(s, AbsoluteName(r.name, s.zone))
  }

  lemma {:induction false} KeptStays(s: Settings, desired: Desired, records: set<RecordSet>, ix: Index,
                                     changes: seq<Change>, r: RecordSet)
    requires Indexes(s.zone, records, ix) && Fits(s.zone, ix, changes) && Kept(s, desired, r)
    requires forall c :: c in changes ==> c.fqdn in desired || MayPrune(s, c.fqdn)
    ensures r in ZoneAfter(records, changes) <==> r in records
    decreases |changes|
  {
    hide Fits, MayPrune, AbsoluteName, ApplyOne;
    if changes != [] {
      var c := changes[0];
      FitsTail(s.zone, ix, changes);
      StepKeepsIndex(s.zone, records, ix, c);
      assert r in ZoneStep(records, c) <==> r in records;
      KeptStays(s, desired, ZoneStep(records, c), ApplyOne(ix, c), changes[1..], r);
    }
  }

  lemma {:induction false} PlanPrunesOnly(s: Settings, desired: Desired, ix: Index, names: seq<string>)
    ensures forall c :: c in PlanOver(s, desired, ix, names) ==> c.fqdn in desired || MayPrune(s, c.fqdn)
  {
    hide IsManaged, MayPrune;
    if names != [] {
      PlanPrunesOnly(s, desired, ix, names[1..]);
    }
  }

  /** Stale records outside the pruning scope, such as those of servers that a filter leaves
      out, are there after a run exactly if they were there before, however the run ended. */
  lemma RunKeepsUnprunable(s: Settings, desired: Desired, records: set<RecordSet>, replies: seq<Reply>,
                           after: set<RecordSet>, ok: bool, r: RecordSet)
    requires Ready(s, desired) && Ran(s, desired, records, replies, after, ok) && Kept(s, desired, r)
    ensures r in after <==> r in records
  {
    hide Ready, Send, Batches, ZoneAfter, Fits, Indexes, PlanNames, PlanOver, Kept, Reach, MayPrune;
    var ix, changes :|
      && Indexes(s.zone, records, ix) && IsPlan(s, desired, ix, changes)
      && (after, ok) == Send(s.zone, records, Batches(changes, UPDATE_BATCH), replies);
    APlanFits(s, desired, records, ix, changes);
    var names :| PlanNames(s, desired, ix, names) && changes == PlanOver(s, desired, ix, names);
    PlanPrunesOnly(s, desired, ix, names);
    var m := SendAppliesPrefix(s.zone, records, ix, changes, UPDATE_BATCH, replies);
    var k := Reach(m, UPDATE_BATCH, |changes|);
    FitsRest(s.zone, ix, changes, k);
    assert forall c :: c in changes[..k] ==> c in changes;
    KeptStays(s, desired, records, ix, changes[..k], r);
  }

  /** The options for deleting, at the zone: after a run without failures a stale A record is
      gone exactly when deleting is on, its name is managed, and its server is selected if
      servers are filtered. */
  lemma RunPrunesByOptions(s: Settings, serverNames: set<string>, filtered: bool, prune: bool, desired: Desired,
                           records: set<RecordSet>, replies: seq<Reply>, after: set<RecordSet>, ok: bool, r: RecordSet)
    requires s.prune == PruneScope(serverNames, filtered, prune)
    requires Ready(s, desired) && AllWork(replies) && Ran(s, desired, records, replies, after, ok)
    requires r in records && r.kind == "A" && AbsoluteName(r.name, s.zone) !in desired
    ensures var n := AbsoluteName(r.name, s.zone);
            r !in after <==> prune && IsManaged(s, n)
                             && (!filtered || ManagedLabel(n, s.zone, s.prefixes).value in serverNames)
  {
    hide Ready, AllWork, Ran, ManagedLabel, AbsoluteName;
    var n := AbsoluteName(r.name, s.zone);
    RunConverges(s, desired, records, replies, after, ok);
    if !IsManaged(s, n) {
      RunLeavesForeign(s, desired, records, replies, after, ok, r);
    } else if !MayPrune(s, n) {
      RunKeepsUnprunable(s, desired, records, replies, after, ok, r);
    }
  }

  /** `after` is the zone with the first `k` changes of the plan made. */
  ghost predicate OnPlan(records: set<RecordSet>, changes: seq<Change>, k: nat, after: set<RecordSet>) {
    k <= |changes| && after == ZoneAfter(records, changes[..k])
  }

  /** A run that starts partway through a plan goes on along that plan. */
  lemma RunStaysOnPlan(s: Settings, desired: Desired, records: set<RecordSet>, ix: Index, changes: seq<Change>, k: nat,
                       current: set<RecordSet>, replies: seq<Reply>, after: set<RecordSet>, ok: bool) returns (k': nat)
    requires Ready(s, desired) && Indexes(s.zone, records, ix) && IsPlan(s, desired, ix, changes)
    requires OnPlan(records, changes, k, current) && Ran(s, desired, current, replies, after, ok)
    ensures k <= k' && OnPlan(records, changes, k', after)
    ensures ok ==> k' == |changes|
    ensures AllWork(replies) ==> ok
  {
    hide Ready, AllWork, Send, Batches, ZoneAfter, ApplyAll, Fits, Indexes, IsPlan, Reach;
    APlanFits(s, desired, records, ix, changes);
    FitsRest(s.zone, ix, changes, k);
    ChangesKeepIndex(s.zone, records, ix, changes[..k]);
    var ix1, again :|
      && Indexes(s.zone, current, ix1) && IsPlan(s, desired, ix1, again)
      && (after, ok) == Send(s.zone, current, Batches(again, UPDATE_BATCH), replies);
    IndexIsUnique(s.zone, current, ix1, ApplyAll(ix, changes[..k]));
    Resumed(s, desired, ix, changes, k, again);
    var m := SendAppliesPrefix(s.zone, current, ix1, again, UPDATE_BATCH, replies);
    var n := Reach(m, UPDATE_BATCH, |again|);
    k' := k + n;
    TakeTake(changes, k, n);
    ZoneAfterJoin(records, changes[..k], again[..n]);
  }

  lemma Resumed(s: Settings, desired: Desired, ix: Index, changes: seq<Change>, k: nat, again: seq<Change>)
    requires Ready(s, desired) && IsPlan(s, desired, ix, changes)
    requires k <= |changes| && IsPlan(s, desired, ApplyAll(ix, changes[..k]), again)
    ensures again == changes[k..]
  {
    hide IsPlan, ApplyAll, DesiredManaged;
    PlanResumes(s, desired, ix, changes, k, again);
  }

  /** Several runs one after another, each with its own luck. */
  ghost predicate RanAll(s: Settings, desired: Desired, records: set<RecordSet>, attempts: seq<seq<Reply>>,
                         after: set<RecordSet>)
    decreases |attempts|
  {
    if attempts == [] then after == records
    else exists mid, ok ::
      Ran(s, desired, records, attempts[0], mid, ok) && RanAll(s, desired, mid, attempts[1..], after)
  }

  lemma {:induction false} RunsStayOnPlan(s: Settings, desired: Desired, records: set<RecordSet>, ix: Index,
                                          changes: seq<Change>, k: nat,
                                          current: set<RecordSet>, attempts: seq<seq<Reply>>,
                                            after: set<RecordSet>) returns (k': nat)
    requires Ready(s, desired) && Indexes(s.zone, records, ix) && IsPlan(s, desired, ix, changes)
    requires OnPlan(records, changes, k, current) && RanAll(s, desired, current, attempts, after)
    ensures k <= k' && OnPlan(records, changes, k', after)
    decreases |attempts|
  {
    hide Ready, Ran, Indexes, IsPlan, OnPlan;
    k' := k;
    if attempts != [] {
      var mid, ok :| Ran(s, desired, current, attempts[0], mid, ok) && RanAll(s, desired, mid, attempts[1..], after);
      k' := RunStaysOnPlan(s, desired, records, ix, changes, k, current, attempts[0], mid, ok);
      k' := RunsStayOnPlan(s, desired, records, ix, changes, k', mid, attempts[1..], after);
    }
  }

  /** Any number of runs, each stopped anywhere, and then one run without failures: the zone
      is the very one that an undisturbed first run would have left. */
  lemma InterruptedRunsAgree(s: Settings, desired: Desired, records: set<RecordSet>, attempts: seq<seq<Reply>>,
                             mid: set<RecordSet>,
                             replies: seq<Reply>, after: set<RecordSet>, ok: bool, straight: set<RecordSet>, ok': bool)
    requires Ready(s, desired) && RanAll(s, desired, records, attempts, mid)
    requires AllWork(replies) && Ran(s, desired, mid, replies, after, ok)
    requires Ran(s, desired, records, [], straight, ok')
    ensures ok && after == straight
  {
    hide Ready, AllWork, Send, Batches, Indexes, IsPlan, RanAll, ZoneAfter;
    var ix, changes :|
      && Indexes(s.zone, records, ix) && IsPlan(s, desired, ix, changes)
      && (straight, ok') == Send(s.zone, records, Batches(changes, UPDATE_BATCH), []);
    Nowhere(records, changes);
    var k := RunsStayOnPlan(s, desired, records, ix, changes, 0, records, attempts, mid);
    var k1 := RunStaysOnPlan(s, desired, records, ix, changes, k, mid, replies, after, ok);
    assert AllWork([]) by { NoReplies(); }
    var k2 := RunStaysOnPlan(s, desired, records, ix, changes, 0, records, [], straight, ok');
  }

  lemma Nowhere(records: set<RecordSet>, changes: seq<Change>)
    ensures OnPlan(records, changes, 0, records)
  {
  }

  lemma NoReplies()
    ensures AllWork([])
  {
  }
}
