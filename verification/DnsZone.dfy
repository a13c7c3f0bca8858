/** The zone itself: reading its A records, sending the planned changes in batches, and what
    is left when the sending stops (`index_a_records`, `record_sets_for_batch`, `chunks`,
    `apply_changes` in register_private_dns.py). */
module DnsZone {
  import opened Wrappers
  import opened DnsNames
  import opened DnsPlan

  const UPDATE_BATCH: nat := 500

  function SetOf<T>(s: seq<T>): set<T> {
    set x | x in s
  }

  // ---------- reading ----------

  /** `ix` holds exactly the A records of the zone, each under its absolute name. */
  ghost predicate Indexes(zone: string, records: set<RecordSet>, ix: Index) {
    && (forall n :: n in ix ==> ix[n] in records && ix[n].kind == "A" && AbsoluteName(ix[n].name, zone) == n)
    && (forall r :: r in records && r.kind == "A" ==>
          AbsoluteName(r.name, zone) in ix && ix[AbsoluteName(r.name, zone)] == r)
  }

  lemma IndexIsUnique(zone: string, records: set<RecordSet>, a: Index, b: Index)
    requires Indexes(zone, records, a) && Indexes(zone, records, b)
    ensures a == b
  {
    hide AbsoluteName;
    assert forall n :: n in a ==> n in b && b[n] == a[n];
    assert forall n :: n in b ==> n in a && a[n] == b[n];
  }

  predicate Twins(zone: string, a: RecordSet, b: RecordSet) {
    a.kind == "A" && b.kind == "A" && AbsoluteName(a.name, zone) == AbsoluteName(b.name, zone)
  }

  ghost predicate NoTwins(zone: string, records: seq<RecordSet>) {
    forall i, j :: 0 <= i < j < |records| ==> !Twins(zone, records[i], records[j])
  }

  /** The index with one more record, when its name is still free. */
  lemma OneMore(zone: string, records: seq<RecordSet>, r: RecordSet, ix: Index)
    requires Indexes(zone, SetOf(records), ix) && NoTwins(zone, records)
    requires r.kind == "A" ==> AbsoluteName(r.name, zone) !in ix
    ensures Indexes(zone, SetOf(records + [r]), if r.kind == "A" then ix[AbsoluteName(r.name, zone) := r] else ix)
    ensures NoTwins(zone, records + [r])
  {
    hide AbsoluteName;
    assert SetOf(records + [r]) == SetOf(records) + {r};
    forall i | 0 <= i < |records|
      ensures !Twins(zone, records[i], r)
    {
      assert records[i] in SetOf(records);
    }
  }

  method IndexARecords(records: seq<RecordSet>, zone: string) returns (r: Result<Index, string>)
    ensures r.Ok? ==> Indexes(zone, SetOf(records), r.value)
    ensures r.Ok? <==> NoTwins(zone, records)
  {
    hide AbsoluteName, Twins, NoTwins, Indexes;
    var ix: Index := map[];
    NothingYet(zone);
    assert records[..0] == [];
    for k := 0 to |records|
      invariant Indexes(zone, SetOf(records[..k]), ix) && NoTwins(zone, records[..k])
    {
      assert records[..k + 1] == records[..k] + [records[k]];
      if records[k].kind == "A" {
        var fqdn := AbsoluteName(records[k].name, zone);
        if fqdn in ix {
          Taken(zone, records, k, ix);
          return Err(fqdn);
        }
        OneMore(zone, records[..k], records[k], ix);
        ix := ix[fqdn := records[k]];
      } else {
        OneMore(zone, records[..k], records[k], ix);
      }
    }
    assert records[..|records|] == records;
    return Ok(ix);
  }

  lemma NothingYet(zone: string)
    ensures Indexes(zone, SetOf([]), map[]) && NoTwins(zone, [])
  {
  }

  lemma Taken(zone: string, records: seq<RecordSet>, k: nat, ix: Index)
    requires k < |records| && Indexes(zone, SetOf(records[..k]), ix)
    requires records[k].kind == "A" && AbsoluteName(records[k].name, zone) in ix
    ensures !NoTwins(zone, records)
  {
    hide AbsoluteName;
    var other := ix[AbsoluteName(records[k].name, zone)];
    assert other in records[..k];
    var i :| 0 <= i < k && records[..k][i] == other;
    assert Twins(zone, records[i], records[k]);
  }

  // ---------- writing ----------

  function Removed(c: Change): seq<RecordSet> {
    if c.Add? then [] else [c.previous]
  }

  function Added(c: Change): seq<RecordSet> {
    if c.Delete? then [] else [NewRecord(c.fqdn, c.ttl, c.address)]
  }

  function Deletions(changes: seq<Change>): seq<RecordSet> {
    if changes == [] then [] else Removed(changes[0]) + Deletions(changes[1..])
  }

  function Additions(changes: seq<Change>): seq<RecordSet> {
    if changes == [] then [] else Added(changes[0]) + Additions(changes[1..])
  }

  method RecordSetsForBatch(changes: seq<Change>) returns (deletions: seq<RecordSet>, additions: seq<RecordSet>)
    ensures deletions == Deletions(changes) && additions == Additions(changes)
  {
    hide Deletions, Additions, NewRecord;
    deletions, additions := [], [];
    assert changes[0..] == changes;
    for i := 0 to |changes|
      invariant deletions + Deletions(changes[i..]) == Deletions(changes)
      invariant additions + Additions(changes[i..]) == Additions(changes)
    {
      BatchStep(changes, i);
      Regroup(deletions, Removed(changes[i]), Deletions(changes[i + 1..]));
      Regroup(additions, Added(changes[i]), Additions(changes[i + 1..]));
      if !changes[i].Add? {
        deletions := deletions + [changes[i].previous];
      } else {
        assert deletions + [] == deletions;
      }
      if !changes[i].Delete? {
        additions := additions + [NewRecord(changes[i].fqdn, changes[i].ttl, changes[i].address)];
      } else {
        assert additions + [] == additions;
      }
    }
    BatchEnd(changes, deletions, additions);
  }

  lemma BatchStep(changes: seq<Change>, i: nat)
    requires i < |changes|
    ensures Deletions(changes[i..]) == Removed(changes[i]) + Deletions(changes[i + 1..])
    ensures Additions(changes[i..]) == Added(changes[i]) + Additions(changes[i + 1..])
  {
    hide Removed, Added;
    assert changes[i..][1..] == changes[i + 1..] && changes[i..][0] == changes[i];
  }

  lemma BatchEnd(changes: seq<Change>, deletions: seq<RecordSet>, additions: seq<RecordSet>)
    ensures deletions + Deletions(changes[|changes|..]) == deletions
    ensures additions + Additions(changes[|changes|..]) == additions
  {
  }

  function Batches(changes: seq<Change>, size: nat): seq<seq<Change>>
    requires size > 0
    decreases |changes|
  {
    if changes == [] then []
    else if |changes| <= size then [changes]
    else [changes[..size]] + Batches(changes[size..], size)
  }

  lemma BatchesStep(changes: seq<Change>, start: nat, size: nat)
    requires size > 0 && start < |changes|
    ensures var stop := if start + size < |changes| then start + size else |changes|;
            Batches(changes[start..], size) == [changes[start..stop]] + Batches(changes[stop..], size)
  {
    if start + size < |changes| {
      assert changes[start..][size..] == changes[start + size..];
      assert changes[start..][..size] == changes[start..start + size];
    } else {
      assert changes[start..] == changes[start..|changes|];
    }
  }

  /** `chunks`: an error for a size below one. */
  method Chunks(changes: seq<Change>, size: int) returns (r: Result<seq<seq<Change>>, string>)
    ensures r.Err? <==> size < 1
    ensures r.Ok? ==> r.value == Batches(changes, size)
  {
    if size < 1 {
      return Err("size");
    }
    var parts: seq<seq<Change>> := [];
    var start := 0;
    assert changes[0..] == changes;
    while start < |changes|
      invariant 0 <= start
      invariant start <= |changes| ==> parts + Batches(changes[start..], size) == Batches(changes, size)
      invariant start > |changes| ==> parts == Batches(changes, size)
    {
      var stop := if start + size < |changes| then start + size else |changes|;
      BatchesStep(changes, start, size);
      Regroup(parts, [changes[start..stop]], Batches(changes[stop..], size));
      parts := parts + [changes[start..stop]];
      assert parts + [] == parts;
      start := start + size;
    }
    return Ok(parts);
  }

  /** What becomes of one request: done; refused; done, but the caller is told it failed. */
  datatype Reply = Works | Refuses | LosesReply

  /** The service's own conditions: what is deleted is there, and what is added is new. */
  predicate Accepts(zone: string, records: set<RecordSet>, deletions: seq<RecordSet>, additions: seq<RecordSet>) {
    && (forall d :: d in deletions ==> d in records)
    && (forall a, r :: a in additions && r in records && Twins(zone, a, r) ==> r in deletions)
    && (forall i, j :: 0 <= i < j < |additions| ==> !Twins(zone, additions[i], additions[j]))
  }

  function Exchange(records: set<RecordSet>, deletions: seq<RecordSet>, additions: seq<RecordSet>): set<RecordSet> {
    (records - SetOf(deletions)) + SetOf(additions)
  }

  function Submitted(records: set<RecordSet>, batch: seq<Change>): set<RecordSet> {
    Exchange(records, Deletions(batch), Additions(batch))
  }

  function NextReply(replies: seq<Reply>): Reply {
    if replies == [] then Works else replies[0]
  }

  function LaterReplies(replies: seq<Reply>): seq<Reply> {
    if replies == [] then [] else replies[1..]
  }

  /** One request: the records afterwards, and whether the caller is told it went well. */
  function Request(zone: string, records: set<RecordSet>, deletions: seq<RecordSet>, additions: seq<RecordSet>,
                   reply: Reply)
    : (set<RecordSet>, bool)
  {
    if reply.Refuses? || !Accepts(zone, records, deletions, additions) then (records, false)
    else (Exchange(records, deletions, additions), reply.Works?)
  }

  function SendBatch(zone: string, records: set<RecordSet>, batch: seq<Change>, reply: Reply): (set<RecordSet>, bool) {
    Request(zone, records, Deletions(batch), Additions(batch), reply)
  }

  /** The whole of `apply_changes`: the records afterwards, and whether it returned normally. */
  function Send(zone: string, records: set<RecordSet>, batches: seq<seq<Change>>,
                replies: seq<Reply>): (set<RecordSet>, bool)
    decreases |batches|
  {
    if batches == [] then (records, true)
    else
      var (after, ok) := SendBatch(zone, records, batches[0], NextReply(replies));
      if ok then Send(zone, after, batches[1..], LaterReplies(replies)) else (after, false)
  }

  class Service {
    const zone: string
    var records: set<RecordSet>
    var replies: seq<Reply>

    constructor (zone: string, records: set<RecordSet>, replies: seq<Reply>)
      ensures this.zone == zone && this.records == records && this.replies == replies
    {
      this.zone, this.records, this.replies := zone, records, replies;
    }

    method UpdateRecordSets(deletions: seq<RecordSet>, additions: seq<RecordSet>) returns (ok: bool)
      modifies this
      ensures replies == LaterReplies(old(replies))
      ensures (records, ok) == Request(zone, old(records), deletions, additions, NextReply(old(replies)))
    {
      var reply := NextReply(replies);
      replies := LaterReplies(replies);
      if reply.Refuses? || !Accepts(zone, records, deletions, additions) {
        return false;
      }
      records := (records - SetOf(deletions)) + SetOf(additions);
      ok := reply.Works?;
    }

    method ApplyChanges(changes: seq<Change>) returns (ok: bool)
      modifies this
      ensures (records, ok) == Send(zone, old(records), Batches(changes, UPDATE_BATCH), old(replies))
    {
      var r := Chunks(changes, UPDATE_BATCH);
      var batches := r.value;
      assert batches[0..] == batches;
      for i := 0 to |batches|
        invariant Send(zone, records, batches[i..], replies) == Send(zone, old(records), batches, old(replies))
      {
        assert batches[i..][1..] == batches[i + 1..] && batches[i..][0] == batches[i];
        var deletions, additions := RecordSetsForBatch(batches[i]);
        ok := UpdateRecordSets(deletions, additions);
        if !ok {
          return;
        }
      }
      ok := true;
    }
  }

  // ---------- one change at a time ----------

  function ZoneStep(records: set<RecordSet>, c: Change): set<RecordSet> {
    match c
    case Delete(_, previous) => records - {previous}
    case Update(name, ttl, address, previous) => records - {previous} + {NewRecord(name, ttl, address)}
    case Add(name, ttl, address) => records + {NewRecord(name, ttl, address)}
  }

  function ZoneAfter(records: set<RecordSet>, changes: seq<Change>): set<RecordSet>
    decreases |changes|
  {
    if changes == [] then records else ZoneAfter(ZoneStep(records, changes[0]), changes[1..])
  }

  /** The change starts from what the index says about its name. */
  predicate FitsOne(zone: string, ix: Index, c: Change) {
    && AbsoluteName(c.fqdn, zone) == c.fqdn
    && if c.Add? then c.fqdn !in ix else c.fqdn in ix && ix[c.fqdn] == c.previous
  }

  ghost predicate Fits(zone: string, ix: Index, changes: seq<Change>) {
    && (forall c :: c in changes ==> FitsOne(zone, ix, c))
    && (forall i, j :: 0 <= i < j < |changes| ==> changes[i].fqdn != changes[j].fqdn)
  }

  lemma FitsTail(zone: string, ix: Index, changes: seq<Change>)
    requires Fits(zone, ix, changes) && changes != []
    ensures FitsOne(zone, ix, changes[0])
    ensures Fits(zone, ApplyOne(ix, changes[0]), changes[1..])
    ensures forall c :: c in changes[1..] ==> FitsOne(zone, ix, c) && c.fqdn != changes[0].fqdn
  {
    hide AbsoluteName;
    assert changes[0] in changes;
    forall c | c in changes[1..]
      ensures FitsOne(zone, ix, c) && FitsOne(zone, ApplyOne(ix, changes[0]), c) && c.fqdn != changes[0].fqdn
    {
      var i :| 0 <= i < |changes[1..]| && changes[1..][i] == c;
      assert changes[i + 1] == c && c in changes;
    }
  }

  lemma StepKeepsIndex(zone: string, records: set<RecordSet>, ix: Index, c: Change)
    requires Indexes(zone, records, ix) && FitsOne(zone, ix, c)
    ensures Indexes(zone, ZoneStep(records, c), ApplyOne(ix, c))
  {
    hide AbsoluteName;
  }

  lemma {:induction false} ChangesKeepIndex(zone: string, records: set<RecordSet>, ix: Index, changes: seq<Change>)
    requires Indexes(zone, records, ix) && Fits(zone, ix, changes)
    ensures Indexes(zone, ZoneAfter(records, changes), ApplyAll(ix, changes))
    decreases |changes|
  {
    hide Indexes, Fits, FitsOne, ApplyOne, ZoneStep;
    if changes != [] {
      FitsTail(zone, ix, changes);
      StepKeepsIndex(zone, records, ix, changes[0]);
      ChangesKeepIndex(zone, ZoneStep(records, changes[0]), ApplyOne(ix, changes[0]), changes[1..]);
    }
  }
}
