/** The distributed lock of YdbLockRecord.java: any number of clients run a
    read-then-upsert transaction on one row.  A run is an interleaving of single queries;
    a transaction commits only if the row has not been written since it was read. */
module LockRecord {
  import opened Wrappers

  /** Clients are numbered. */
  type Client = nat

  datatype Row = Row(locked: bool, owner: Option<Client>)

  /** Where a client is in `work`: lock, set the owner, work, clear the owner, unlock. */
  datatype Phase =
    | Idle                       // before lock() or after unlock()
    | Trying                     // in the loop of lock(), outside a transaction
    | HasRead(version: nat)      // found the row unlocked, its upsert not yet committed
    | Holding                    // lock() has returned
    | Working                    // owner set, between validate() calls
    | Leaving                    // owner cleared
    | Releasing                  // in unlock(), its update not yet applied
    | Resending                  // the update was applied but reported as failed

  datatype State = State(row: Option<Row>, version: nat, clients: seq<Phase>, owner: Option<Client>)

  /** A read that fails leaves lock() with an exception. */
  datatype Event =
    | StartLock(c: Client)
    | ReadRow(c: Client)
    | ReadFails(c: Client)
    | CommitLock(c: Client, reported: bool)
    | AbortLock(c: Client)
    | SetOwner(c: Client)
    | ClearOwner(c: Client)
    | StartUnlock(c: Client)
    | CommitUnlock(c: Client, reported: bool)
    | FailUnlock(c: Client)
    | ResendUnlock(c: Client, reported: bool)
    | GiveUpUnlock(c: Client)

  predicate RowLocked(row: Option<Row>) {
    row.Some? && row.value.locked
  }

  function Phased(s: State, c: Client, phase: Phase): State
    requires c < |s.clients|
  {
    s.(clients := s.clients[c := phase])
  }

  /** `UPDATE ... SET locked=false, owner=NULL WHERE id=$id`: no row, nothing to update. */
  function Unlocked(row: Option<Row>): Option<Row> {
    if row.Some? then Some(Row(false, None)) else None
  }

  /** One event.  An event that does not fit the client's phase does nothing. */
  function Step(s: State, e: Event): State {
    if e.c >= |s.clients| then s
    else
      match (e, s.clients[e.c])
      case (StartLock(c), Idle) => Phased(s, c, Trying)
      case (ReadRow(c), Trying) => if RowLocked(s.row) then s else Phased(s, c, HasRead(s.version))
      case (ReadFails(c), Trying) => Phased(s, c, Idle)
      case (CommitLock(c, reported), HasRead(v)) =>
        if v != s.version then Phased(s, c, Trying)
        else Phased(s.(row := Some(Row(true, Some(c))), version := s.version + 1), c,
                    if reported then Holding else Trying)
      case (AbortLock(c), HasRead(_)) => Phased(s, c, Trying)
      case (SetOwner(c), Holding) => Phased(s.(owner := Some(c)), c, Working)
      case (ClearOwner(c), Working) => Phased(s.(owner := None), c, Leaving)
      case (StartUnlock(c), Leaving) => Phased(s, c, Releasing)
      case (StartUnlock(c), Holding) => Phased(s, c, Releasing)
      case (CommitUnlock(c, reported), Releasing) =>
        Phased(s.(row := Unlocked(s.row), version := s.version + 1), c, if reported then Idle else Resending)
      case (FailUnlock(_), Releasing) => s
      case (ResendUnlock(c, reported), Resending) =>
        Phased(s.(row := Unlocked(s.row), version := s.version + 1), c, if reported then Idle else Resending)
      case (GiveUpUnlock(c), Resending) => Phased(s, c, Idle)
      case _ => s
  }

  function Run(s: State, events: seq<Event>): State
    decreases |events|
  {
    if events == [] then s else Run(Step(s, events[0]), events[1..])
  }

  /** The table as `init` leaves it, no client active. */
  function Start(clients: nat): State {
    State(None, 0, seq(clients, _ => Idle), None)
  }

  // ---------- mutual exclusion ----------

  /** Between lock() returning and unlock() taking effect. */
  predicate Inside(s: State, c: Client) {
    c < |s.clients| && (s.clients[c].Holding? || s.clients[c].Working? || s.clients[c].Leaving? ||
      s.clients[c].Releasing?)
  }

  ghost predicate SomeoneInside(s: State) {
    exists c :: Inside(s, c)
  }

  /** At most one client is inside, the row is locked in its name while it is, and the
      check `validate` makes while working succeeds. */
  ghost predicate Safe(s: State) {
    && (forall c, d :: Inside(s, c) && Inside(s, d) ==> c == d)
    && (forall c :: Inside(s, c) ==> s.row == Some(Row(true, Some(c))))
    && (forall c :: 0 <= c < |s.clients| && s.clients[c].Working? ==> s.owner == Some(c))
  }

  /** What makes Safe inductive: a transaction that could still commit has seen the row
      unlocked in its present version. */
  ghost predicate Inv(s: State) {
    && Safe(s)
    && forall c :: 0 <= c < |s.clients| && s.clients[c].HasRead? ==>
         s.clients[c].version <= s.version && (s.clients[c].version == s.version ==> !RowLocked(s.row))
  }

  /** An unlock that was already applied is applied again while another client is inside. */
  ghost predicate BadResend(s: State, e: Event) {
    e.ResendUnlock? && e.c < |s.clients| && s.clients[e.c].Resending? && SomeoneInside(s)
  }

  ghost predicate Harmless(s: State, events: seq<Event>)
    decreases |events|
  {
    events == [] || (!BadResend(s, events[0]) && Harmless(Step(s, events[0]), events[1..]))
  }

  ghost predicate AlwaysSafe(s: State, events: seq<Event>)
    decreases |events|
  {
    Safe(s) && (events == [] || AlwaysSafe(Step(s, events[0]), events[1..]))
  }

  /** Events that write neither the row nor the owner, and put nobody inside. */
  predicate IsQuiet(s: State, t: State, c: Client)
    requires c < |s.clients|
  {
    && t == s.(clients := t.clients) && |t.clients| == |s.clients|
    && (forall d :: 0 <= d < |s.clients| && d != c ==> t.clients[d] == s.clients[d])
    && (Inside(t, c) ==> Inside(s, c))
    && (t.clients[c].Working? ==> s.clients[c].Working?)
    && (t.clients[c].HasRead? && t.clients[c] != s.clients[c] ==>
          t.clients[c].version == s.version && !RowLocked(s.row))
  }

  lemma QuietKeepsInv(s: State, t: State, c: Client)
    requires Inv(s) && c < |s.clients| && IsQuiet(s, t, c)
    ensures Inv(t)
  {
    assert forall d :: Inside(t, d) ==> Inside(s, d);
  }

  /** A write of the row by c when no other client is inside. */
  lemma WriteKeepsInv(s: State, t: State, c: Client)
    requires Inv(s) && c < |s.clients| && !s.clients[c].Working?
    requires forall d :: Inside(s, d) ==> d == c
    requires t.version == s.version + 1 && t.owner == s.owner && |t.clients| == |s.clients|
    requires forall d :: 0 <= d < |s.clients| && d != c ==> t.clients[d] == s.clients[d]
    requires !t.clients[c].HasRead? && !t.clients[c].Working?
    requires Inside(t, c) ==> t.row == Some(Row(true, Some(c)))
    ensures Inv(t)
  {
    assert forall d :: Inside(t, d) ==> d == c || Inside(s, d);
    assert forall d :: 0 <= d < |s.clients| && s.clients[d].Working? ==> Inside(s, d);
  }

  /** Setting or clearing the owner, which only a client inside does. */
  lemma OwnerKeepsInv(s: State, t: State, c: Client)
    requires Inv(s) && Inside(s, c) && Inside(t, c) && !t.clients[c].HasRead?
    requires t == s.(clients := t.clients, owner := t.owner) && |t.clients| == |s.clients|
    requires forall d :: 0 <= d < |s.clients| && d != c ==> t.clients[d] == s.clients[d]
    requires t.clients[c].Working? ==> t.owner == Some(c)
    ensures Inv(t)
  {
    assert forall d :: Inside(t, d) ==> Inside(s, d);
    assert forall d :: 0 <= d < |s.clients| && s.clients[d].Working? ==> Inside(s, d);
  }

  lemma UnlockedIsFree(s: State, c: Client)
    requires Inv(s) && c < |s.clients|
    requires s.clients[c].HasRead? && s.clients[c].version == s.version
    ensures forall d :: !Inside(s, d)
  {
  }

  lemma StepKeepsInv(s: State, e: Event)
    requires Inv(s) && !BadResend(s, e)
    ensures Inv(Step(s, e))
  {
    hide Inv, Unlocked;
    var t, c := Step(s, e), e.c;
    if c >= |s.clients| || t == s {
    } else if t.version != s.version {
      if e.CommitLock? {
        UnlockedIsFree(s, c);
      } else if e.CommitUnlock? {
        InvIsSafe(s);
        assert Inside(s, c);
      }
      WriteKeepsInv(s, t, c);
    } else if e.SetOwner? || e.ClearOwner? {
      OwnerKeepsInv(s, t, c);
    } else {
      QuietKeepsInv(s, t, c);
    }
  }

  lemma BadResendBreaks(s: State, e: Event)
    requires Inv(s) && BadResend(s, e)
    ensures !Safe(Step(s, e))
  {
    var c :| Inside(s, c);
    assert Inside(Step(s, e), c);
  }

  /** In every interleaving of any number of clients: mutual exclusion holds in all states
      if and only if no unlock that had already taken effect is sent again while another
      client holds the lock.  Commits may be reported as failed although they succeeded. */
  lemma {:induction false} MutualExclusion(s: State, events: seq<Event>)
    requires Inv(s)
    ensures AlwaysSafe(s, events) <==> Harmless(s, events)
    decreases |events|
  {
    hide Step, Inv, BadResend;
    InvIsSafe(s);
    if events != [] {
      if BadResend(s, events[0]) {
        BadResendBreaks(s, events[0]);
        UnsafeFirst(Step(s, events[0]), events[1..]);
      } else {
        StepKeepsInv(s, events[0]);
        MutualExclusion(Step(s, events[0]), events[1..]);
      }
    }
  }

  lemma InvIsSafe(s: State)
    requires Inv(s)
    ensures Safe(s)
  {
  }

  lemma UnsafeFirst(s: State, events: seq<Event>)
    requires !Safe(s)
    ensures !AlwaysSafe(s, events)
  {
  }

  lemma MutualExclusionFromStart(clients: nat, events: seq<Event>)
    ensures AlwaysSafe(Start(clients), events) <==> Harmless(Start(clients), events)
  {
    StartIsSafe(clients);
    MutualExclusion(Start(clients), events);
  }

  lemma StartIsSafe(clients: nat)
    ensures Inv(Start(clients))
  {
    var s := Start(clients);
    assert forall c :: 0 <= c < |s.clients| ==> s.clients[c] == Idle;
  }

  ghost predicate SentOnce(events: seq<Event>) {
    forall e :: e in events ==> !e.ResendUnlock?
  }

  /** When each unlock takes effect once, mutual exclusion holds without exception. */
  lemma {:induction false} SentOnceIsHarmless(s: State, events: seq<Event>)
    requires SentOnce(events)
    ensures Harmless(s, events)
    decreases |events|
  {
    if events != [] {
      assert events[0] in events;
      SentOnceIsHarmless(Step(s, events[0]), events[1..]);
    }
  }

  lemma AlwaysExclusiveWhenSentOnce(clients: nat, events: seq<Event>)
    requires SentOnce(events)
    ensures AlwaysSafe(Start(clients), events)
  {
    SentOnceIsHarmless(Start(clients), events);
    MutualExclusionFromStart(clients, events);
  }

  /** Client c enters lock() and gets the lock at once. */
  function LockAtOnce(c: Client): seq<Event> {
    [StartLock(c), ReadRow(c), CommitLock(c, true)]
  }

  lemma RunThree(s: State, a: Event, b: Event, c: Event)
    ensures Run(s, [a, b, c]) == Step(Step(Step(s, a), b), c)
  {
    hide Step;
    assert [a, b, c][1..] == [b, c];
    assert Run(s, [a, b, c]) == Run(Step(s, a), [b, c]);
    assert [b, c][1..] == [c];
    assert Run(Step(s, a), [b, c]) == Run(Step(Step(s, a), b), [c]);
    assert [c][1..] == [];
    assert Run(Step(Step(s, a), b), [c]) == Run(Step(Step(Step(s, a), b), c), []);
  }

  lemma RunTwo(s: State, a: Event, b: Event)
    ensures Run(s, [a, b]) == Step(Step(s, a), b)
  {
    hide Step;
    assert [a, b][1..] == [b] && [b][1..] == [];
    assert Run(s, [a, b]) == Run(Step(s, a), [b]);
    assert Run(Step(s, a), [b]) == Run(Step(Step(s, a), b), []);
  }

  lemma RunOne(s: State, e: Event)
    ensures Run(s, [e]) == Step(s, e)
  {
    hide Step;
    assert [e][1..] == [];
    assert Run(Step(s, e), []) == Step(s, e);
  }

  lemma {:induction false} RunConcat(s: State, a: seq<Event>, b: seq<Event>)
    ensures Run(s, a + b) == Run(Run(s, a), b)
    decreases |a|
  {
    hide Step;
    if a == [] {
      assert [] + b == b;
    } else {
      assert (a + b)[1..] == a[1..] + b;
      RunConcat(Step(s, a[0]), a[1..], b);
    }
  }

  lemma LockSucceeds(s: State, c: Client)
    requires c < |s.clients| && s.clients[c] == Idle && !RowLocked(s.row)
    ensures Run(s, LockAtOnce(c)) == Phased(s.(row := Some(Row(true, Some(c))), version := s.version + 1), c, Holding)
  {
    RunThree(s, StartLock(c), ReadRow(c), CommitLock(c, true));
    var s1 := Step(s, StartLock(c));
    assert s1 == Phased(s, c, Trying);
    var s2 := Step(s1, ReadRow(c));
    assert s2 == Phased(s, c, HasRead(s.version));
  }

  /** Client 0 unlocks, the update is applied but reported as failed; client 1 locks;
      client 0 sends its unlock again, and locks. */
  function ResendRun(): seq<Event> {
    LockAtOnce(0) + ([StartUnlock(0), CommitUnlock(0, false)] +
                     (LockAtOnce(1) + ([ResendUnlock(0, true)] + LockAtOnce(0))))
  }

  /** The condition of MutualExclusion is needed: this run lets two clients in. */
  lemma ResendLetsTwoIn()
    ensures var s := Run(Start(2), ResendRun());
            Inside(s, 0) && Inside(s, 1)
  {
    hide Step, Run;
    var s0 := State(None, 0, [Idle, Idle], None);
    assert Start(2) == s0;
    LockSucceeds(s0, 0);
    var s1 := State(Some(Row(true, Some(0))), 1, [Holding, Idle], None);
    assert Run(s0, LockAtOnce(0)) == s1;
    UnlockApplied(s1);
    var s2 := State(Some(Row(false, None)), 2, [Resending, Idle], None);
    LockSucceeds(s2, 1);
    var s3 := State(Some(Row(true, Some(1))), 3, [Resending, Holding], None);
    assert Run(s2, LockAtOnce(1)) == s3;
    UnlockResent(s3);
    var s4 := State(Some(Row(false, None)), 4, [Idle, Holding], None);
    LockSucceeds(s4, 0);
    var e1, e3 := [StartUnlock(0), CommitUnlock(0, false)], [ResendUnlock(0, true)];
    RunConcat(s0, LockAtOnce(0), e1 + (LockAtOnce(1) + (e3 + LockAtOnce(0))));
    RunConcat(s1, e1, LockAtOnce(1) + (e3 + LockAtOnce(0)));
    RunConcat(s2, LockAtOnce(1), e3 + LockAtOnce(0));
    RunConcat(s3, e3, LockAtOnce(0));
  }

  lemma UnlockApplied(s: State)
    requires s == State(Some(Row(true, Some(0))), 1, [Holding, Idle], None)
    ensures Run(s, [StartUnlock(0), CommitUnlock(0, false)]) ==
            State(Some(Row(false, None)), 2, [Resending, Idle], None)
  {
    RunTwo(s, StartUnlock(0), CommitUnlock(0, false));
    assert Step(s, StartUnlock(0)) == State(Some(Row(true, Some(0))), 1, [Releasing, Idle], None);
  }

  lemma UnlockResent(s: State)
    requires s == State(Some(Row(true, Some(1))), 3, [Resending, Holding], None)
    ensures Run(s, [ResendUnlock(0, true)]) == State(Some(Row(false, None)), 4, [Idle, Holding], None)
  {
    RunOne(s, ResendUnlock(0, true));
  }

  // ---------- a lock nobody can take any more ----------

  /** The row is locked, nobody is inside, and no unlock is on its way. */
  ghost predicate Orphaned(s: State) {
    && RowLocked(s.row)
    && (forall c :: 0 <= c < |s.clients| ==>
          !Inside(s, c) && !s.clients[c].Resending? && (s.clients[c].HasRead? ==> s.clients[c].version != s.version))
  }

  /** Whatever the clients do, an orphaned lock stays orphaned. */
  lemma {:induction false} OrphanedForever(s: State, events: seq<Event>)
    requires Orphaned(s)
    ensures Orphaned(Run(s, events))
    decreases |events|
  {
    if events != [] {
      OrphanedStep(s, events[0]);
      OrphanedForever(Step(s, events[0]), events[1..]);
    }
  }

  lemma OrphanedStep(s: State, e: Event)
    requires Orphaned(s)
    ensures Orphaned(Step(s, e))
  {
    if e.c < |s.clients| {
      assert !Inside(s, e.c);
    }
  }

  ghost predicate NoneResending(s: State) {
    forall c :: 0 <= c < |s.clients| ==> !s.clients[c].Resending?
  }

  /** A lock commit that succeeds but is reported as failed orphans the lock exactly when no
      client is about to send an applied unlock again: such an unlock would free the row. */
  lemma LostCommitOrphans(s: State, c: Client)
    requires Inv(s) && c < |s.clients| && s.clients[c] == HasRead(s.version)
    ensures Orphaned(Step(s, CommitLock(c, false))) <==> NoneResending(s)
  {
    var t := Step(s, CommitLock(c, false));
    UnlockedIsFree(s, c);
    assert forall d :: d != c ==> Inside(t, d) == Inside(s, d);
    assert forall d :: 0 <= d < |s.clients| && d != c ==> t.clients[d] == s.clients[d];
  }

  /** Client c goes on from its phase to lock(), the row being unlocked. */
  function GetIn(s: State, c: Client): seq<Event>
    requires c < |s.clients|
  {
    match s.clients[c]
    case Idle => LockAtOnce(c)
    case Trying => [ReadRow(c), CommitLock(c, true)]
    case HasRead(_) => [AbortLock(c)] + [ReadRow(c), CommitLock(c, true)]
    case Resending => [GiveUpUnlock(c)] + LockAtOnce(c)
    case _ => []
  }

  lemma TryingGetsIn(s: State, c: Client)
    requires c < |s.clients| && s.clients[c] == Trying && !RowLocked(s.row)
    ensures Inside(Run(s, [ReadRow(c), CommitLock(c, true)]), c)
  {
    RunTwo(s, ReadRow(c), CommitLock(c, true));
    assert Step(s, ReadRow(c)) == Phased(s, c, HasRead(s.version));
  }

  lemma UnlockedLetsIn(s: State, c: Client)
    requires c < |s.clients| && !RowLocked(s.row)
    ensures Inside(Run(s, GetIn(s, c)), c)
  {
    hide Run;
    match s.clients[c]
    case Idle => LockSucceeds(s, c);
    case Trying => TryingGetsIn(s, c);
    case HasRead(_) =>
      RunConcat(s, [AbortLock(c)], [ReadRow(c), CommitLock(c, true)]);
      RunOne(s, AbortLock(c));
      TryingGetsIn(Step(s, AbortLock(c)), c);
    case Resending =>
      RunConcat(s, [GiveUpUnlock(c)], LockAtOnce(c));
      RunOne(s, GiveUpUnlock(c));
      LockSucceeds(Step(s, GiveUpUnlock(c)), c);
    case _ => NoEvents(s);
  }

  lemma NoEvents(s: State)
    ensures Run(s, []) == s
  {
  }

  ghost predicate CanEnter(s: State) {
    exists events, c :: Inside(Run(s, events), c)
  }

  /** Some client can still get the lock, or has it, exactly when the lock is not orphaned. */
  lemma EnteringNeedsNoOrphan(s: State)
    requires Inv(s) && |s.clients| >= 1
    ensures CanEnter(s) <==> !Orphaned(s)
  {
    hide Run, Step;
    if Orphaned(s) {
      forall events, c
        ensures !Inside(Run(s, events), c)
      {
        OrphanedForever(s, events);
      }
    } else if !RowLocked(s.row) {
      UnlockedLetsIn(s, 0);
    } else if c :| Inside(s, c) {
      NoEvents(s);
      assert Inside(Run(s, []), c);
    } else {
      var c :| 0 <= c < |s.clients| && s.clients[c].Resending?;
      ResentLetsIn(s, c);
    }
  }

  lemma ResentLetsIn(s: State, c: Client)
    requires c < |s.clients| && s.clients[c].Resending?
    ensures CanEnter(s)
  {
    hide Run;
    var t := Step(s, ResendUnlock(c, true));
    RunOne(s, ResendUnlock(c, true));
    UnlockedLetsIn(t, c);
    RunConcat(s, [ResendUnlock(c, true)], GetIn(t, c));
    assert Inside(Run(s, [ResendUnlock(c, true)] + GetIn(t, c)), c);
  }

  /** A commit reported as failed at the very start: nobody gets in after that. */
  lemma FirstCommitLost(clients: nat, events: seq<Event>, c: Client)
    requires clients >= 1
    ensures var s := Run(Start(clients), [StartLock(0), ReadRow(0), CommitLock(0, false)]);
            Orphaned(s) && !Inside(Run(s, events), c)
  {
    hide Run;
    var s := Start(clients);
    RunThree(s, StartLock(0), ReadRow(0), CommitLock(0, false));
    var s2 := Step(Step(s, StartLock(0)), ReadRow(0));
    assert s2 == State(None, 0, s.clients[0 := HasRead(0)], None);
    var s3 := Step(s2, CommitLock(0, false));
    assert s3 == State(Some(Row(true, Some(0))), 1, s.clients[0 := Trying], None);
    OrphanedForever(s3, events);
  }

  /** The other case: client 1 is sending its applied unlock again when client 0's commit is
      lost.  The row is freed, and client 1 gets in. */
  lemma ResendFreesLostCommit()
    ensures var s := State(Some(Row(false, None)), 2, [HasRead(2), Resending], None);
            var t := Step(s, CommitLock(0, false));
            Inv(s) && RowLocked(t.row) && !Orphaned(t) && CanEnter(t)
  {
    var s := State(Some(Row(false, None)), 2, [HasRead(2), Resending], None);
    ResentLetsIn(Step(s, CommitLock(0, false)), 1);
  }

  // ---------- the queries themselves ----------

  /** The database row with the transactions of the source, one method a query. */
  class LockTable {
    var row: Option<Row>
    var version: nat
    var clients: seq<Phase>
    var owner: Option<Client>

    constructor (clients: nat)
      ensures Value() == Start(clients)
    {
      row, version, owner := None, 0, None;
      this.clients := seq(clients, _ => Idle);
    }

    function Value(): State
      reads this
    {
      State(row, version, clients, owner)
    }

    /** `SELECT locked`: a missing row counts as not locked. */
    method Select(c: Client)
      requires c < |clients| && clients[c].Trying?
      modifies this`clients
      ensures Value() == Step(old(Value()), ReadRow(c))
    {
      var locked := if row.Some? then row.value.locked else false;
      if !locked {
        clients := clients[c := HasRead(version)];
      }
    }

    /** `UPSERT ... locked=true` and the commit of its transaction. */
    method Upsert(c: Client, reported: bool)
      requires c < |clients| && clients[c].HasRead?
      modifies this`row, this`version, this`clients
      ensures Value() == Step(old(Value()), CommitLock(c, reported))
    {
      if clients[c].version != version {
        clients := clients[c := Trying];
        return;
      }
      row, version := Some(Row(true, Some(c))), version + 1;
      clients := clients[c := if reported then Holding else Trying];
    }

    /** `UPDATE ... locked=false` in a transaction of its own. */
    method Update(c: Client, reported: bool)
      requires c < |clients| && (clients[c].Releasing? || clients[c].Resending?)
      modifies this`row, this`version, this`clients
      ensures Value() == Step(old(Value()), if old(clients[c]).Releasing? then CommitUnlock(c, reported)
              else ResendUnlock(c, reported))
    {
      if row.Some? {
        row := Some(Row(false, None));
      }
      version := version + 1;
      clients := clients[c := if reported then Idle else Resending];
    }

    /** One event of a schedule. */
    method Perform(e: Event)
      modifies this
      ensures Value() == Step(old(Value()), e)
    {
      if e.c >= |clients| {
        return;
      }
      match (e, clients[e.c])
      case (ReadRow(c), Trying) => Select(c);
      case (CommitLock(c, reported), HasRead(_)) => Upsert(c, reported);
      case (CommitUnlock(c, reported), Releasing) => Update(c, reported);
      case (ResendUnlock(c, reported), Resending) => Update(c, reported);
      case (StartLock(c), Idle) => clients := clients[c := Trying];
      case (ReadFails(c), Trying) => clients := clients[c := Idle];
      case (AbortLock(c), HasRead(_)) => clients := clients[c := Trying];
      case (SetOwner(c), Holding) => owner, clients := Some(c), clients[c := Working];
      case (ClearOwner(c), Working) => owner, clients := None, clients[c := Leaving];
      case (StartUnlock(c), Leaving) => clients := clients[c := Releasing];
      case (StartUnlock(c), Holding) => clients := clients[c := Releasing];
      case (GiveUpUnlock(c), Resending) => clients := clients[c := Idle];
      case _ =>
    }

    /** Any schedule of the clients; it stays safe throughout when it is harmless. */
    method Schedule(events: seq<Event>)
      modifies this
      ensures Value() == Run(old(Value()), events)
      ensures Inv(old(Value())) && Harmless(old(Value()), events) ==> Inv(Value())
    {
      hide Step, Inv, BadResend;
      assert events[0..] == events;
      for i := 0 to |events|
        invariant Run(Value(), events[i..]) == Run(old(Value()), events)
        invariant Inv(old(Value())) && Harmless(old(Value()), events) ==> Inv(Value()) && Harmless(Value(), events[i..])
      {
        assert events[i..][1..] == events[i + 1..];
        if Inv(Value()) && Harmless(Value(), events[i..]) {
          StepKeepsInv(Value(), events[i]);
        }
        Perform(events[i]);
      }
    }
  }
}
