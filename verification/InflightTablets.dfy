/** Which tablets of in-flight operations belong to which path (`fetch_inflight_tablets` and
    `_add_shard_tablets` in manage_tablets.py), from the pages as they are parsed. */
module InflightTablets {

  datatype PathId = PathId(owner: int, local: int)

  /** A row of a page: a shard and its tablet. */
  datatype Entry = Entry(shard: string, tablet: int)

  /** A TxInfo page.  `refs` has each path id once: `parse_tx_info` drops repetitions. */
  datatype TxPage =
    | Listed(refs: seq<PathId>, inProgress: seq<Entry>)
    | Gone
    | Unparsed

  /** A PathInfo page; the path is empty when the page has none. */
  datatype PathPage = PathPage(path: string, shards: seq<Entry>)

  datatype Slot = Slot(backups: seq<seq<Entry>>, txCount: nat)

  type Found = map<string, set<int>>

  ghost predicate NoRepeats(refs: seq<PathId>) {
    forall i, j :: 0 <= i < j < |refs| ==> refs[i] != refs[j]
  }

  ghost predicate WellFormed(pages: seq<TxPage>) {
    forall p :: p in pages && p.Listed? ==> NoRepeats(p.refs)
  }

  predicate Names(page: TxPage, id: PathId) {
    page.Listed? && id in page.refs
  }

  // ---------- what the slots count ----------

  function TxCount(pages: seq<TxPage>, id: PathId): nat {
    if pages == [] then 0
    else TxCount(pages[..|pages| - 1], id) + if Names(pages[|pages| - 1], id) then 1 else 0
  }

  predicate IsBackup(page: TxPage, id: PathId) {
    page.Listed? && page.refs == [id] && page.inProgress != []
  }

  function Backups(pages: seq<TxPage>, id: PathId): seq<seq<Entry>> {
    if pages == [] then []
    else Backups(pages[..|pages| - 1], id) +
         if IsBackup(pages[|pages| - 1], id) then [pages[|pages| - 1].inProgress] else []
  }

  /** The slots after these pages. */
  ghost predicate Collected(pages: seq<TxPage>, pending: map<PathId, Slot>) {
    && (forall id :: id in pending <==> TxCount(pages, id) > 0)
    && (forall id :: id in pending ==> pending[id] == Slot(Backups(pages, id), TxCount(pages, id)))
  }

  // ---------- what a path gets, in terms of the pages ----------

  /** Transaction `j` is the only one that names the path id, names nothing else, and still
      has tablets in progress. */
  ghost predicate OnlyFrom(pages: seq<TxPage>, id: PathId, j: nat) {
    && j < |pages| && IsBackup(pages[j], id)
    && forall k :: 0 <= k < |pages| && k != j ==> !Names(pages[k], id)
  }

  ghost predicate Lists(entries: seq<Entry>, tablet: int) {
    tablet != 0 && exists e :: e in entries && e.tablet == tablet
  }

  /** The tablet belongs to the path id: its page lists it; or the page lists no shards and
      the one transaction that names the id, and only it, still has the tablet in progress. */
  ghost predicate Belongs(pages: seq<TxPage>, id: PathId, page: PathPage, tablet: int) {
    if page.shards != [] then Lists(page.shards, tablet)
    else exists j: nat :: OnlyFrom(pages, id, j) && Lists(pages[j].inProgress, tablet)
  }

  ghost predicate Named(pages: seq<TxPage>, id: PathId) {
    exists page :: page in pages && Names(page, id)
  }

  /** The map is exactly this attribution. */
  ghost predicate Attributed(pages: seq<TxPage>, paths: PathId -> PathPage, found: Found) {
    && (forall p :: p in found <==> exists id :: Named(pages, id) && paths(id).path == p && p != "")
    && (forall p, t :: p in found ==>
          (t in found[p] <==> exists id :: Named(pages, id) && paths(id).path == p && Belongs(pages, id, paths(id), t)))
  }

  // ---------- counting and naming ----------

  lemma {:induction false} CountIsNamed(pages: seq<TxPage>, id: PathId)
    ensures TxCount(pages, id) > 0 <==> Named(pages, id)
    ensures TxCount(pages, id) == 0 ==> Backups(pages, id) == []
  {
    if pages != [] {
      var last := pages[|pages| - 1];
      CountIsNamed(pages[..|pages| - 1], id);
      assert forall p :: p in pages <==> p == last || p in pages[..|pages| - 1];
    }
  }

  lemma NotNamed(pages: seq<TxPage>, id: PathId)
    ensures !Named(pages, id) <==> forall k :: 0 <= k < |pages| ==> !Names(pages[k], id)
  {
  }

  lemma {:induction false} OnlyFromCounts(pages: seq<TxPage>, id: PathId, j: nat)
    requires OnlyFrom(pages, id, j)
    ensures TxCount(pages, id) == 1 && Backups(pages, id) == [pages[j].inProgress]
  {
    var init, last := pages[..|pages| - 1], pages[|pages| - 1];
    if j == |pages| - 1 {
      NotNamed(init, id);
      CountIsNamed(init, id);
    } else {
      assert OnlyFrom(init, id, j);
      OnlyFromCounts(init, id, j);
      assert !Names(last, id);
    }
  }

  lemma {:induction false} CountsOnlyFrom(pages: seq<TxPage>, id: PathId) returns (j: nat)
    requires TxCount(pages, id) == 1 && |Backups(pages, id)| == 1
    ensures OnlyFrom(pages, id, j)
  {
    var init, last := pages[..|pages| - 1], pages[|pages| - 1];
    if IsBackup(last, id) {
      j := |pages| - 1;
      CountIsNamed(init, id);
      NotNamed(init, id);
      assert forall k :: 0 <= k < |init| ==> init[k] == pages[k];
    } else if Names(last, id) {
      j := 0;
      CountIsNamed(init, id);
    } else {
      j := CountsOnlyFrom(init, id);
      assert forall k :: 0 <= k < |init| ==> init[k] == pages[k];
    }
  }

  // ---------- the two loops ----------

  method CollectPending(pages: seq<TxPage>) returns (pending: map<PathId, Slot>)
    requires WellFormed(pages)
    ensures Collected(pages, pending)
  {
    hide TxCount, Backups;
    pending := map[];
    NothingCollected();
    assert pages[..0] == [];
    for i := 0 to |pages|
      invariant Collected(pages[..i], pending)
    {
      assert pages[..i + 1] == pages[..i] + [pages[i]];
      if pages[i].Listed? {
        pending := AddPage(pages[..i], pages[i], pending);
      } else {
        PageCounts(pages[..i], pages[i]);
      }
    }
    assert pages[..|pages|] == pages;
  }

  lemma NothingCollected()
    ensures Collected([], map[])
  {
  }

  lemma PageCounts(pages: seq<TxPage>, page: TxPage)
    ensures forall id :: TxCount(pages + [page], id) == TxCount(pages, id) + if Names(page, id) then 1 else 0
    ensures forall id ::
              Backups(pages + [page], id) == Backups(pages, id) + if IsBackup(page, id) then [page.inProgress] else []
  {
    assert (pages + [page])[..|pages|] == pages;
  }

  lemma UnnamedHasNoBackups(pages: seq<TxPage>)
    ensures forall id :: TxCount(pages, id) == 0 ==> Backups(pages, id) == []
  {
    forall id
      ensures TxCount(pages, id) == 0 ==> Backups(pages, id) == []
    {
      CountIsNamed(pages, id);
    }
  }

  function AddBackup(backups: seq<seq<Entry>>, backup: seq<Entry>): seq<seq<Entry>> {
    if backup != [] then backups + [backup] else backups
  }

  /** The slots after the path ids `done` of the next page. */
  ghost predicate Partly(before: seq<TxPage>, backup: seq<Entry>, done: seq<PathId>, pending: map<PathId, Slot>) {
    && (forall id :: id in pending <==> TxCount(before, id) > 0 || id in done)
    && (forall id :: id in pending ==>
          pending[id] == if id in done then Slot(AddBackup(Backups(before, id), backup), TxCount(before, id) + 1)
                         else Slot(Backups(before, id), TxCount(before, id)))
  }

  lemma PartlyStep(before: seq<TxPage>, backup: seq<Entry>, done: seq<PathId>, id: PathId, pending: map<PathId, Slot>)
    requires Partly(before, backup, done, pending) && id !in done
    ensures var slot := if id in pending then pending[id] else Slot([], 0);
            Partly(before, backup, done + [id], pending[id := Slot(AddBackup(slot.backups, backup), slot.txCount + 1)])
  {
    hide TxCount, Backups, AddBackup;
    UnnamedHasNoBackups(before);
  }

  lemma PartlyDone(before: seq<TxPage>, page: TxPage, pending: map<PathId, Slot>)
    requires page.Listed? && Partly(before, if |page.refs| == 1 then page.inProgress else [], page.refs, pending)
    ensures Collected(before + [page], pending)
  {
    hide TxCount, Backups;
    PageCounts(before, page);
    var backup := if |page.refs| == 1 then page.inProgress else [];
    forall id
      ensures IsBackup(page, id) <==> id in page.refs && backup != []
    {
      if id in page.refs && backup != [] {
        assert page.refs == [id];
      }
    }
    assert forall id :: Backups(before, id) + [] == Backups(before, id);
  }

  /** One more transaction in a slot. */
  method Counted(start: Slot, backup: seq<Entry>) returns (slot: Slot)
    ensures slot == Slot(AddBackup(start.backups, backup), start.txCount + 1)
  {
    slot := start.(txCount := start.txCount + 1);
    if backup != [] {
      slot := slot.(backups := slot.backups + [backup]);
    }
  }

  /** The loop over the path ids of one transaction page. */
  method AddPage(ghost before: seq<TxPage>, page: TxPage, start: map<PathId, Slot>) returns (pending: map<PathId, Slot>)
    requires page.Listed? && NoRepeats(page.refs) && Collected(before, start)
    ensures Collected(before + [page], pending)
  {
    hide TxCount, Backups, AddBackup;
    pending := start;
    var backup := if |page.refs| == 1 then page.inProgress else [];
    assert page.refs[..0] == [];
    assert Partly(before, backup, [], pending);
    hide Partly, Collected;
    for r := 0 to |page.refs|
      invariant Partly(before, backup, page.refs[..r], pending)
    {
      var id := page.refs[r];
      assert id !in page.refs[..r];
      assert page.refs[..r + 1] == page.refs[..r] + [id];
      PartlyStep(before, backup, page.refs[..r], id, pending);
      var slot := Counted(if id in pending then pending[id] else Slot([], 0), backup);
      pending := pending[id := slot];
    }
    assert page.refs[..|page.refs|] == page.refs;
    PartlyDone(before, page, pending);
  }

  method AddShardTablets(tablets: set<int>, shards: seq<Entry>) returns (r: set<int>)
    ensures forall t :: t in r <==> t in tablets || Lists(shards, t)
  {
    r := tablets;
    for i := 0 to |shards|
      invariant forall t :: t in r <==> t in tablets || Lists(shards[..i], t)
    {
      assert shards[..i + 1] == shards[..i] + [shards[i]];
      if shards[i].tablet != 0 {
        r := r + {shards[i].tablet};
      }
    }
    assert shards[..|shards|] == shards;
  }

  /** What the slot and the page of one path id contribute. */
  lemma SlotBelongs(pages: seq<TxPage>, id: PathId, page: PathPage, t: int)
    ensures Belongs(pages, id, page, t) <==>
            if page.shards != [] then Lists(page.shards, t)
            else TxCount(pages, id) == 1 && |Backups(pages, id)| == 1 && Lists(Backups(pages, id)[0], t)
  {
    hide Lists, TxCount, Backups;
    if page.shards == [] {
      if TxCount(pages, id) == 1 && |Backups(pages, id)| == 1 {
        var j := CountsOnlyFrom(pages, id);
        OnlyFromCounts(pages, id, j);
      }
      forall j: nat | OnlyFrom(pages, id, j)
        ensures TxCount(pages, id) == 1 && Backups(pages, id) == [pages[j].inProgress]
      {
        OnlyFromCounts(pages, id, j);
      }
    }
  }

  ghost predicate AttributedTo(pages: seq<TxPage>, paths: PathId -> PathPage, ids: set<PathId>, found: Found) {
    && (forall p :: p in found <==> exists id :: id in ids && paths(id).path == p && p != "")
    && (forall p, t :: p in found ==>
          (t in found[p] <==> exists id :: id in ids && paths(id).path == p && Belongs(pages, id, paths(id), t)))
  }

  /** One path id more. */
  lemma OneIdMore(pages: seq<TxPage>, paths: PathId -> PathPage, ids: set<PathId>, found: Found, id: PathId,
                  tablets: set<int>)
    requires AttributedTo(pages, paths, ids, found)
    requires var p := paths(id).path;
             p != "" ==> forall t :: t in tablets <==> (p in found && t in found[p]) || Belongs(pages, id, paths(id), t)
    ensures AttributedTo(pages, paths, ids + {id}, if paths(id).path == "" then found
            else found[paths(id).path := tablets])
  {
    hide Belongs;
    var path := paths(id).path;
    var next := if path == "" then found else found[path := tablets];
    forall p
      ensures p in next <==> exists x :: x in ids + {id} && paths(x).path == p && p != ""
    {
      assert p == path ==> id in ids + {id};
    }
    forall p, t | p in next
      ensures t in next[p] <==> exists x :: x in ids + {id} && paths(x).path == p && Belongs(pages, x, paths(x), t)
    {
      if p == path && p !in found {
        assert forall x :: x in ids ==> paths(x).path != p;
      }
      assert id in ids + {id};
    }
  }

  method FetchInflightTablets(pages: seq<TxPage>, paths: PathId -> PathPage) returns (found: Found)
    requires WellFormed(pages)
    ensures Attributed(pages, paths, found)
  {
    hide TxCount, Backups, Belongs, Lists, AttributedTo;
    var pending := CollectPending(pages);
    found := map[];
    NothingFound(pages, paths);
    var rest := pending.Keys;
    assert pending.Keys - rest == {};
    while rest != {}
      invariant rest <= pending.Keys && AttributedTo(pages, paths, pending.Keys - rest, found)
      decreases |rest|
    {
      var id :| id in rest;
      var page := paths(id);
      ghost var done := pending.Keys - rest;
      var tablets: set<int> := {};
      if page.path != "" {
        var start := if page.path in found then found[page.path] else {};
        tablets := TabletsOf(pages, id, pending[id], page, start);
      }
      OneIdMore(pages, paths, done, found, id, tablets);
      if page.path != "" {
        found := found[page.path := tablets];
      }
      rest := rest - {id};
      assert pending.Keys - rest == done + {id};
    }
    assert pending.Keys - {} == pending.Keys;
    AllNamed(pages, paths, pending, found);
  }

  /** The body of the second loop for one path id whose page has a path. */
  method TabletsOf(ghost pages: seq<TxPage>, ghost id: PathId, slot: Slot, page: PathPage, start: set<int>)
    returns (tablets: set<int>)
    requires slot == Slot(Backups(pages, id), TxCount(pages, id))
    ensures forall t :: t in tablets <==> t in start || Belongs(pages, id, page, t)
  {
    hide TxCount, Backups, Belongs, Lists;
    forall t
      ensures Belongs(pages, id, page, t) <==>
              if page.shards != [] then Lists(page.shards, t)
              else slot.txCount == 1 && |slot.backups| == 1 && Lists(slot.backups[0], t)
    {
      SlotBelongs(pages, id, page, t);
    }
    if page.shards != [] {
      tablets := AddShardTablets(start, page.shards);
    } else if slot.txCount == 1 && |slot.backups| == 1 {
      tablets := AddShardTablets(start, slot.backups[0]);
    } else {
      tablets := start;
    }
  }

  lemma NothingFound(pages: seq<TxPage>, paths: PathId -> PathPage)
    ensures AttributedTo(pages, paths, {}, map[])
  {
  }

  lemma AllNamed(pages: seq<TxPage>, paths: PathId -> PathPage, pending: map<PathId, Slot>, found: Found)
    requires Collected(pages, pending) && AttributedTo(pages, paths, pending.Keys, found)
    ensures Attributed(pages, paths, found)
  {
    hide Belongs, TxCount, Backups, Named;
    forall id
      ensures id in pending.Keys <==> Named(pages, id)
    {
      CountIsNamed(pages, id);
    }
  }

  /** Soundness: no tablet is put on a path unless a page of a path id with that path lists
      it, or a transaction that names that path id and nothing else has it in progress. */
  lemma AttributionIsSound(pages: seq<TxPage>, paths: PathId -> PathPage, found: Found, p: string, t: int)
    returns (id: PathId)
    requires Attributed(pages, paths, found) && p in found && t in found[p]
    ensures paths(id).path == p && Named(pages, id) && t != 0
    ensures Lists(paths(id).shards, t) ||
            (paths(id).shards == [] &&
             exists page :: page in pages && page.Listed? && page.refs == [id] && Lists(page.inProgress, t))
  {
    id :| Named(pages, id) && paths(id).path == p && Belongs(pages, id, paths(id), t);
    if paths(id).shards == [] {
      var j: nat :| OnlyFrom(pages, id, j) && Lists(pages[j].inProgress, t);
      assert pages[j] in pages;
    }
  }

  /** A transaction over several paths never lends its tablets to any of them. */
  lemma SharedTransactionsAreNotSplit(pages: seq<TxPage>, paths: PathId -> PathPage, found: Found, id: PathId,
                                      page: TxPage)
    requires Attributed(pages, paths, found) && page in pages && Names(page, id) && page.refs != [id]
    requires paths(id).shards == [] && paths(id).path != ""
    requires forall other :: Named(pages, other) && other != id ==> paths(other).path != paths(id).path
    ensures paths(id).path in found && found[paths(id).path] == {}
  {
    var p := paths(id).path;
    assert Named(pages, id);
    var k :| 0 <= k < |pages| && pages[k] == page;
    assert forall j: nat :: !OnlyFrom(pages, id, j);
    assert forall t :: t !in found[p];
  }
}
