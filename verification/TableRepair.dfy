/** The repair of one legacy table (repair.go) as a protocol over a scheme: copy, check,
    rename, rename, check, drop.  Every server call is decided by the environment: it may
    succeed, fail, or take effect and still report failure, and the process may be killed
    between any two calls. */
module TableRepair {
  import opened Wrappers
  import opened SchemePath

  type Rows = seq<string>

  // ---------- classification of a table (classify.go) ----------

  datatype StorageConfig = StorageConfig(sysLog: bool, log: bool, data: bool)

  datatype Family = Family(id: nat, storage: Option<StorageConfig>)

  datatype PartitionConfig = PartitionConfig(channelProfile: bool, families: seq<Family>)

  datatype Status = NeedsRepair | AlreadyRepaired | Unsafe

  /** The first family with id 0. */
  function FamilyZero(families: seq<Family>): Option<Family> {
    if families == [] then None
    else if families[0].id == 0 then Some(families[0])
    else FamilyZero(families[1..])
  }

  function Classify(config: Option<PartitionConfig>): Status {
    if config.None? then NeedsRepair
    else if config.value.channelProfile then Unsafe
    else
      match FamilyZero(config.value.families)
      case None => NeedsRepair
      case Some(f) =>
        if f.storage.Some? && (f.storage.value.sysLog || f.storage.value.log || f.storage.value.data)
        then AlreadyRepaired else NeedsRepair
  }

  // ---------- the scheme and the environment ----------

  datatype Node = Table(rows: Rows, config: Option<PartitionConfig>) | NotTable

  type Scheme = map<string, Node>

  /** How the environment answers one server call: whether a scheme change takes effect,
      whether the answer reaches the client, and the configuration a copy comes out with. */
  datatype Choice = Choice(applies: bool, reports: bool, config: Option<PartitionConfig>)

  predicate IsLegacy(nodes: Scheme, path: string) {
    path in nodes && nodes[path].Table? && Classify(nodes[path].config) == NeedsRepair
  }

  predicate IsRepaired(nodes: Scheme, path: string) {
    path in nodes && nodes[path].Table? && Classify(nodes[path].config) == AlreadyRepaired
  }

  /** Scheme operations that cannot be carried out change nothing. */
  function Copied(nodes: Scheme, source: string, target: string, config: Option<PartitionConfig>): Option<Scheme> {
    if source in nodes && nodes[source].Table? && target !in nodes
    then Some(nodes[target := Table(nodes[source].rows, config)]) else None
  }

  function Moved(nodes: Scheme, source: string, target: string): Option<Scheme> {
    if source in nodes && target !in nodes then Some((nodes - {source})[target := nodes[source]]) else None
  }

  function Removed(nodes: Scheme, path: string): Option<Scheme> {
    if path in nodes then Some(nodes - {path}) else None
  }

  // ---------- paths ----------

  /** Position after the last '/', or 0. */
  function NameStart(path: string): (r: nat)
    ensures r <= |path| && '/' !in path[r..]
    ensures r > 0 ==> path[r - 1] == '/'
  {
    if path == "" || path[|path| - 1] == '/' then |path| else NameStart(path[..|path| - 1])
  }

  /** "/a/b/c" is split into "/a/b" and "c"; a path without a parent is an error. */
  function SplitPath(path: string): Option<(string, string)> {
    var trimmed := TrimSlashes(path);
    var k := NameStart(trimmed);
    if k <= 1 then None else Some((trimmed[..k - 1], trimmed[k..]))
  }

  datatype Options = Options(tempPrefix: string, backupSuffix: string, dropBackup: bool, dryRun: bool)

  function TempPath(path: string, opt: Options): string {
    match SplitPath(path)
    case None => ""
    case Some(parts) => JoinPath(parts.0, opt.tempPrefix + parts.1)
  }

  function BackupPath(path: string, opt: Options): string {
    match SplitPath(path)
    case None => ""
    case Some(parts) => JoinPath(parts.0, parts.1 + opt.backupSuffix)
  }

  // ---------- the protocol, one server call at a time ----------

  datatype Outcome = Repaired(dropped: bool) | Skipped | Failed

  datatype Pc =
    | CheckNeeds | CheckTemp | CheckBackup | Copy | AssertTemp | MoveAway | MoveIn | AssertPath | Drop
    | Done(outcome: Outcome)

  datatype State = State(nodes: Scheme, pc: Pc, choices: seq<Choice>)

  /** A change that is possible, takes effect, and is reported leads on; any other leads to
      failure, in the changed scheme if it took effect. */
  function Change(st: State, changed: Option<Scheme>, next: Pc): State
    requires st.choices != []
  {
    var c, rest := st.choices[0], st.choices[1..];
    if changed.None? || !c.applies then State(st.nodes, Done(Failed), rest)
    else State(changed.value, if c.reports then next else Done(Failed), rest)
  }

  function Look(st: State, next: Pc): State
    requires st.choices != []
  {
    State(st.nodes, if st.choices[0].reports then next else Done(Failed), st.choices[1..])
  }

  function Step(path: string, opt: Options, st: State): State
    requires !st.pc.Done? && st.choices != []
  {
    var temp, backup := TempPath(path, opt), BackupPath(path, opt);
    match st.pc
    case CheckNeeds =>
      Look(st, if IsRepaired(st.nodes, path) then Done(Skipped)
               else if IsLegacy(st.nodes, path) && SplitPath(path).Some? then CheckTemp
               else Done(Failed))
    case CheckTemp => Look(st, if temp in st.nodes then Done(Failed) else CheckBackup)
    case CheckBackup =>
      Look(st, if backup in st.nodes then Done(Failed)
               else if opt.dryRun then Done(Repaired(opt.dropBackup))
               else Copy)
    case Copy => Change(st, Copied(st.nodes, path, temp, st.choices[0].config), AssertTemp)
    case AssertTemp => Look(st, if IsRepaired(st.nodes, temp) then MoveAway else Done(Failed))
    case MoveAway => Change(st, Moved(st.nodes, path, backup), MoveIn)
    case MoveIn => Change(st, Moved(st.nodes, temp, path), AssertPath)
    case AssertPath =>
      Look(st, if !IsRepaired(st.nodes, path) then Done(Failed)
               else if opt.dropBackup then Drop
               else Done(Repaired(false)))
    case Drop => Change(st, Removed(st.nodes, backup), Done(Repaired(true)))
  }

  /** The run until it finishes or is killed, which is when the choices are used up. */
  function Run(path: string, opt: Options, st: State): State
    decreases |st.choices|
  {
    if st.pc.Done? || st.choices == [] then st else Run(path, opt, Step(path, opt, st))
  }

  function Repair(nodes: Scheme, path: string, opt: Options, choices: seq<Choice>): State {
    Run(path, opt, State(nodes, CheckNeeds, choices))
  }

  // ---------- every state a repair can reach ----------

  /** The five forms the scheme can take, each with the configuration of the copy. */
  datatype Shape =
    | Untouched
    | HasCopy(config: Option<PartitionConfig>)
    | HasMovedAway(config: Option<PartitionConfig>)
    | HasSwapped(config: Option<PartitionConfig>)
    | HasDropped(config: Option<PartitionConfig>)

  function Original(start: Scheme, path: string): Node {
    if path in start then start[path] else NotTable
  }

  function NewTable(start: Scheme, path: string, config: Option<PartitionConfig>): Node {
    if Original(start, path).Table? then Table(Original(start, path).rows, config) else NotTable
  }

  function InShape(start: Scheme, path: string, opt: Options, shape: Shape): Scheme {
    var temp, backup := TempPath(path, opt), BackupPath(path, opt);
    match shape
    case Untouched => start
    case HasCopy(config) => start[temp := NewTable(start, path, config)]
    case HasMovedAway(config) =>
      (start - {path})[temp := NewTable(start, path, config)][backup := Original(start, path)]
    case HasSwapped(config) => start[path := NewTable(start, path, config)][backup := Original(start, path)]
    case HasDropped(config) => start[path := NewTable(start, path, config)]
  }

  /** Which shapes can come up at all: a table is only ever touched when it is legacy and
      both helper names are free, and only a repaired copy is moved. */
  predicate Possible(start: Scheme, path: string, opt: Options, shape: Shape) {
    var temp, backup := TempPath(path, opt), BackupPath(path, opt);
    !shape.Untouched? ==>
      && IsLegacy(start, path) && !opt.dryRun
      && temp !in start && backup !in start && temp != path && backup != path
      && (!shape.HasCopy? ==> temp != backup && Classify(shape.config) == AlreadyRepaired)
  }

  /** Which shape each point of the protocol is in. */
  predicate Fits(start: Scheme, path: string, opt: Options, pc: Pc, shape: Shape) {
    var temp, backup := TempPath(path, opt), BackupPath(path, opt);
    match pc
    case CheckNeeds => shape.Untouched?
    case CheckTemp => shape.Untouched? && IsLegacy(start, path)
    case CheckBackup => shape.Untouched? && IsLegacy(start, path) && temp !in start
    case Copy => shape.Untouched? && IsLegacy(start, path) && temp !in start && backup !in start && !opt.dryRun
    case AssertTemp => shape.HasCopy?
    case MoveAway => shape.HasCopy? && Classify(shape.config) == AlreadyRepaired
    case MoveIn => shape.HasMovedAway?
    case AssertPath => shape.HasSwapped?
    case Drop => shape.HasSwapped? && opt.dropBackup
    case Done(Skipped) => shape.Untouched? && IsRepaired(start, path)
    case Done(Failed) => true
    case Done(Repaired(dropped)) =>
      if opt.dryRun then shape.Untouched? && IsLegacy(start, path)
      else if dropped then shape.HasDropped? && opt.dropBackup
      else shape.HasSwapped? && !opt.dropBackup
  }

  ghost predicate Reached(start: Scheme, path: string, opt: Options, nodes: Scheme, pc: Pc, shape: Shape) {
    && Possible(start, path, opt, shape)
    && Fits(start, path, opt, pc, shape)
    && nodes == InShape(start, path, opt, shape)
  }

  lemma MoveAwayShape(start: Scheme, path: string, opt: Options, st: State, shape: Shape) returns (next: Shape)
    requires st.pc == MoveAway && st.choices != []
    requires Reached(start, path, opt, st.nodes, st.pc, shape)
    ensures Reached(start, path, opt, Step(path, opt, st).nodes, Step(path, opt, st).pc, next)
  {
    hide TempPath, BackupPath, Classify, SplitPath;
    next := shape;
    if st.choices[0].applies && Step(path, opt, st).nodes != st.nodes {
      next := HasMovedAway(shape.config);
    }
  }

  lemma MoveInShape(start: Scheme, path: string, opt: Options, st: State, shape: Shape) returns (next: Shape)
    requires st.pc == MoveIn && st.choices != []
    requires Reached(start, path, opt, st.nodes, st.pc, shape)
    ensures Reached(start, path, opt, Step(path, opt, st).nodes, Step(path, opt, st).pc, next)
  {
    hide TempPath, BackupPath, Classify, SplitPath;
    next := shape;
    if st.choices[0].applies && Step(path, opt, st).nodes != st.nodes {
      next := HasSwapped(shape.config);
    }
  }

  lemma CopyOrDropShape(start: Scheme, path: string, opt: Options, st: State, shape: Shape) returns (next: Shape)
    requires (st.pc == Copy || st.pc == Drop) && st.choices != []
    requires Reached(start, path, opt, st.nodes, st.pc, shape)
    ensures Reached(start, path, opt, Step(path, opt, st).nodes, Step(path, opt, st).pc, next)
  {
    hide TempPath, BackupPath, Classify, SplitPath;
    next := shape;
    if st.choices[0].applies && Step(path, opt, st).nodes != st.nodes {
      next := if st.pc == Copy then HasCopy(st.choices[0].config) else HasDropped(shape.config);
    }
  }

  lemma StepShape(start: Scheme, path: string, opt: Options, st: State, shape: Shape) returns (next: Shape)
    requires !st.pc.Done? && st.choices != []
    requires Reached(start, path, opt, st.nodes, st.pc, shape)
    ensures Reached(start, path, opt, Step(path, opt, st).nodes, Step(path, opt, st).pc, next)
  {
    hide TempPath, BackupPath, Classify, SplitPath;
    if st.pc == MoveAway {
      hide Reached, Step;
      next := MoveAwayShape(start, path, opt, st, shape);
    } else if st.pc == MoveIn {
      hide Reached, Step;
      next := MoveInShape(start, path, opt, st, shape);
    } else if st.pc == Copy || st.pc == Drop {
      hide Reached, Step;
      next := CopyOrDropShape(start, path, opt, st, shape);
    } else {
      next := shape;
    }
  }

  lemma {:induction false} RunShape(start: Scheme, path: string, opt: Options, st: State, shape: Shape)
    returns (last: Shape)
    requires Reached(start, path, opt, st.nodes, st.pc, shape)
    ensures Reached(start, path, opt, Run(path, opt, st).nodes, Run(path, opt, st).pc, last)
    decreases |st.choices|
  {
    hide Reached, Step;
    if st.pc.Done? || st.choices == [] {
      last := shape;
    } else {
      var next := StepShape(start, path, opt, st, shape);
      StepConsumes(path, opt, st);
      last := RunShape(start, path, opt, Step(path, opt, st), next);
    }
  }

  lemma StepConsumes(path: string, opt: Options, st: State)
    requires !st.pc.Done? && st.choices != []
    ensures Step(path, opt, st).choices == st.choices[1..]
  {
    hide TempPath, BackupPath, SplitPath, IsRepaired, IsLegacy;
  }

  lemma RepairShape(start: Scheme, path: string, opt: Options, choices: seq<Choice>) returns (shape: Shape)
    ensures var st := Repair(start, path, opt, choices);
            Reached(start, path, opt, st.nodes, st.pc, shape)
  {
    hide Run, TempPath, BackupPath;
    shape := RunShape(start, path, opt, State(start, CheckNeeds, choices), Untouched);
  }

  // ---------- safety ----------

  predicate HoldsRows(nodes: Scheme, path: string, rows: Rows) {
    path in nodes && nodes[path].Table? && nodes[path].rows == rows
  }

  /** Wherever a repair stops, and whatever the server did: the table's rows are at the
      original, the temp or the backup path; every other path is as before; a helper path
      is only ever one that was free; the backup is dropped only once the original path
      holds a repaired copy with all the rows. */
  lemma RowsAreNeverLost(start: Scheme, path: string, opt: Options, choices: seq<Choice>)
    ensures var st := Repair(start, path, opt, choices);
            var temp := TempPath(path, opt); var backup := BackupPath(path, opt);
            && (forall q :: q in start && q != path ==> q in st.nodes && st.nodes[q] == start[q])
            && (forall q :: q in st.nodes && q !in start ==> (q == temp || q == backup) && IsLegacy(start, path))
            && (forall rows :: HoldsRows(start, path, rows) ==>
                  HoldsRows(st.nodes, path, rows) || HoldsRows(st.nodes, temp, rows) ||
                    HoldsRows(st.nodes, backup, rows))
            && ((st.pc == Drop || st.pc == Done(Repaired(true))) && !opt.dryRun ==>
                  IsRepaired(st.nodes, path) && forall rows :: HoldsRows(start, path, rows) ==>
                    HoldsRows(st.nodes, path, rows))
  {
    hide Run, TempPath, BackupPath, Repair, Classify;
    var shape := RepairShape(start, path, opt, choices);
  }

  /** The full picture of a repair that reports success. */
  lemma SuccessMeansRepaired(start: Scheme, path: string, opt: Options, choices: seq<Choice>)
    ensures var st := Repair(start, path, opt, choices);
            var backup := BackupPath(path, opt);
            && (st.pc == Done(Skipped) ==> st.nodes == start && IsRepaired(start, path))
            && (st.pc.Done? && st.pc.outcome.Repaired? ==> IsLegacy(start, path))
            && (st.pc.Done? && st.pc.outcome.Repaired? && opt.dryRun ==> st.nodes == start)
            && (st.pc.Done? && st.pc.outcome.Repaired? && !opt.dryRun ==>
                  && st.pc.outcome.dropped == opt.dropBackup
                  && IsRepaired(st.nodes, path) && st.nodes[path].rows == start[path].rows
                  && st.nodes.Keys == start.Keys + (if opt.dropBackup then {} else {backup})
                  && (!opt.dropBackup ==> st.nodes[backup] == start[path]))
  {
    hide Run, TempPath, BackupPath, Repair, Classify;
    var shape := RepairShape(start, path, opt, choices);
  }

  // ---------- reruns ----------

  predicate Stops(nodes: Scheme, path: string, opt: Options) {
    || !IsLegacy(nodes, path)
    || SplitPath(path).None?
    || TempPath(path, opt) in nodes
    || BackupPath(path, opt) in nodes
  }

  /** A repair that finds the table not legacy, or a helper name taken, changes nothing. */
  lemma {:induction false} StoppedEarly(path: string, opt: Options, st: State)
    requires Stops(st.nodes, path, opt)
    requires st.pc == CheckNeeds || st.pc == CheckTemp || st.pc == CheckBackup
             || st.pc == Done(Failed) || st.pc == Done(Skipped)
    requires st.pc == CheckTemp || st.pc == CheckBackup ==> IsLegacy(st.nodes, path) && SplitPath(path).Some?
    requires st.pc == CheckBackup ==> TempPath(path, opt) !in st.nodes
    requires st.pc == Done(Skipped) ==> IsRepaired(st.nodes, path)
    ensures var last := Run(path, opt, st);
            && last.nodes == st.nodes
            && (last.pc.Done? ==> last.pc == Done(Failed) || (last.pc == Done(Skipped) && IsRepaired(st.nodes, path)))
    decreases |st.choices|
  {
    hide TempPath, BackupPath, SplitPath, Classify;
    if !st.pc.Done? && st.choices != [] {
      StoppedEarly(path, opt, Step(path, opt, st));
    }
  }

  /** A rerun on a table whose repair was interrupted anywhere: either the first run had
      changed nothing, so the rerun starts clean, or the rerun changes nothing: it skips
      the table as already repaired, or stops with an error. */
  lemma RerunIsSafe(start: Scheme, path: string, opt: Options, first: seq<Choice>, second: seq<Choice>)
    ensures var nodes := Repair(start, path, opt, first).nodes;
            var st := Repair(nodes, path, opt, second);
            || nodes == start
            || (st.nodes == nodes
                && (st.pc == Done(Skipped) ==> IsRepaired(nodes, path))
                && (st.pc.Done? ==> st.pc == Done(Skipped) || st.pc == Done(Failed)))
  {
    hide Run, TempPath, BackupPath, SplitPath, Classify;
    var shape := RepairShape(start, path, opt, first);
    var nodes := Repair(start, path, opt, first).nodes;
    if !shape.Untouched? {
      assert Stops(nodes, path, opt);
      StoppedEarly(path, opt, State(nodes, CheckNeeds, second));
    }
  }

  // ---------- completion ----------

  /** An environment in which every call succeeds and copies come out repaired. */
  predicate Honest(choices: seq<Choice>) {
    forall c :: c in choices ==> c.applies && c.reports && Classify(c.config) == AlreadyRepaired
  }

  function CallsLeft(pc: Pc): nat {
    match pc
    case CheckNeeds => 9
    case CheckTemp => 8
    case CheckBackup => 7
    case Copy => 6
    case AssertTemp => 5
    case MoveAway => 4
    case MoveIn => 3
    case AssertPath => 2
    case Drop => 1
    case Done(_) => 0
  }

  /** What an honest server has brought about so far, beyond the shape of the scheme. */
  predicate OnTrack(start: Scheme, path: string, opt: Options, st: State) {
    var temp, backup := TempPath(path, opt), BackupPath(path, opt);
    && IsLegacy(start, path) && SplitPath(path).Some? && temp !in start && backup !in start
    && (st.pc == AssertTemp ==> IsRepaired(st.nodes, temp))
    && st.pc != Done(Skipped)
    && (st.pc == Done(Failed) ==> temp == backup && !opt.dryRun)
    && (opt.dryRun ==> st.pc == CheckNeeds || st.pc == CheckTemp || st.pc == CheckBackup || st.pc.Done?)
  }

  lemma HonestStep(start: Scheme, path: string, opt: Options, st: State, shape: Shape)
    requires !st.pc.Done? && st.choices != [] && Honest(st.choices)
    requires Reached(start, path, opt, st.nodes, st.pc, shape) && OnTrack(start, path, opt, st)
    ensures OnTrack(start, path, opt, Step(path, opt, st))
    ensures CallsLeft(Step(path, opt, st).pc) < CallsLeft(st.pc)
  {
    hide TempPath, BackupPath, SplitPath, Classify;
    assert st.choices[0] in st.choices;
    if st.pc.MoveIn? {
      assert Moved(st.nodes, TempPath(path, opt), path).Some?;
    }
  }

  lemma {:induction false} HonestRun(start: Scheme, path: string, opt: Options, st: State, shape: Shape)
    returns (last: Shape)
    requires Honest(st.choices) && |st.choices| >= CallsLeft(st.pc)
    requires Reached(start, path, opt, st.nodes, st.pc, shape) && OnTrack(start, path, opt, st)
    ensures var end := Run(path, opt, st);
            end.pc.Done? && OnTrack(start, path, opt, end) && Reached(start, path, opt, end.nodes, end.pc, last)
    decreases |st.choices|
  {
    hide TempPath, BackupPath, SplitPath, Classify, Reached, OnTrack, Step;
    if st.pc.Done? {
      last := shape;
    } else {
      HonestStep(start, path, opt, st, shape);
      var next := StepShape(start, path, opt, st, shape);
      StepConsumes(path, opt, st);
      last := HonestRun(start, path, opt, Step(path, opt, st), next);
    }
  }

  /** With a server that works, a repair of a legacy table with free helper names completes
      exactly when the two helper names differ; they coincide when prefix + name equals
      name + suffix, and then the repair always stops with an error. */
  lemma CompletesWhenHelpersDiffer(start: Scheme, path: string, opt: Options, choices: seq<Choice>)
    requires IsLegacy(start, path) && SplitPath(path).Some?
    requires TempPath(path, opt) !in start && BackupPath(path, opt) !in start
    requires Honest(choices) && |choices| >= 9
    ensures var st := Repair(start, path, opt, choices);
            && st.pc.Done?
            && (st.pc.outcome.Repaired? <==> opt.dryRun || TempPath(path, opt) != BackupPath(path, opt))
            && (!st.pc.outcome.Repaired? ==> st.pc == Done(Failed))
  {
    hide TempPath, BackupPath, SplitPath, Classify, Run;
    var last := HonestRun(start, path, opt, State(start, CheckNeeds, choices), Untouched);
  }

  lemma RunUnfolds(path: string, opt: Options, st: State)
    ensures Run(path, opt, st) == if st.pc.Done? || st.choices == [] then st else Run(path, opt, Step(path, opt, st))
  {
    hide Step;
  }

  lemma HelpersCoincide(path: string, opt: Options)
    requires SplitPath(path).Some?
    ensures var name := SplitPath(path).value.1;
            TempPath(path, opt) == BackupPath(path, opt) <==> opt.tempPrefix + name == name + opt.backupSuffix
  {
    var (parent, name) := SplitPath(path).value;
    var base := TrimSlashes(parent) + "/";
    assert TempPath(path, opt) == base + (opt.tempPrefix + name);
    assert BackupPath(path, opt) == base + (name + opt.backupSuffix);
    assert (base + (opt.tempPrefix + name))[|base|..] == opt.tempPrefix + name;
    assert (base + (name + opt.backupSuffix))[|base|..] == name + opt.backupSuffix;
  }

  lemma SplitExample()
    ensures SplitPath("/d/aa") == Some(("/d", "aa"))
    ensures "/d" + "/" + ("a" + "aa") == "/d/aaa" == "/d" + "/" + ("aa" + "a")
  {
    assert NameStart("/d/aa"[..3]) == 3 && "/d/aa"[..4][..3] == "/d/" && "/d/aa"[..4] == "/d/a";
    assert NameStart("/d/a") == 3 && NameStart("/d/aa") == 3;
    assert "/d/aa"[..2] == "/d" && "/d/aa"[3..] == "aa";
  }

  /** Such options exist: with prefix "a" and suffix "a" a table named "aa" is never repaired
      by a server that works, and nothing is lost. */
  lemma HelpersMayCoincide(rows: Rows, choices: seq<Choice>)
    requires Honest(choices) && |choices| >= 9
    ensures var opt := Options("a", "a", false, false);
            var start := map["/d/aa" := Table(rows, None)];
            TempPath("/d/aa", opt) == BackupPath("/d/aa", opt) == "/d/aaa"
            && Repair(start, "/d/aa", opt, choices).pc == Done(Failed)
  {
    var opt := Options("a", "a", false, false);
    var start: Scheme := map["/d/aa" := Table(rows, None)];
    hide SplitPath, Repair;
    SplitExample();
    CompletesWhenHelpersDiffer(start, "/d/aa", opt, choices);
  }

  // ---------- the procedure itself ----------

  /** The answer of a server call as the client sees it; Killed when the process does not
      live to see it. */
  datatype Reply = Good | Bad | Killed

  /** The scheme server together with the choices its environment is still going to make. */
  class Server {
    var nodes: Scheme
    var choices: seq<Choice>

    constructor (nodes: Scheme, choices: seq<Choice>)
      ensures this.nodes == nodes && this.choices == choices
    {
      this.nodes := nodes;
      this.choices := choices;
    }

    /** A describe call: no effect, but it can fail. */
    method Describe() returns (reply: Reply)
      modifies this
      ensures nodes == old(nodes)
      ensures old(choices) == [] ==> reply == Killed && choices == []
      ensures old(choices) != [] ==>
                choices == old(choices)[1..] && reply == if old(choices)[0].reports then Good else Bad
    {
      if choices == [] {
        return Killed;
      }
      reply := if choices[0].reports then Good else Bad;
      choices := choices[1..];
    }

    /** A scheme change; None stands for one the server rejects. */
    method Modify(changed: Option<Scheme>) returns (reply: Reply)
      modifies this
      ensures old(choices) == [] ==> reply == Killed && choices == [] && nodes == old(nodes)
      ensures old(choices) != [] ==>
                && choices == old(choices)[1..]
                && nodes == (if changed.Some? && old(choices)[0].applies then changed.value else old(nodes))
                && reply == if changed.Some? && old(choices)[0].applies && old(choices)[0].reports then Good else Bad
    {
      if choices == [] {
        return Killed;
      }
      var c := choices[0];
      choices := choices[1..];
      if changed.None? || !c.applies {
        return Bad;
      }
      nodes := changed.value;
      reply := if c.reports then Good else Bad;
    }
  }

  /** The final state of `repairOne`: None when the process was killed first. */
  ghost predicate Ends(server: Server, st: State, result: Option<Outcome>)
    reads server
  {
    && server.nodes == st.nodes && server.choices == st.choices
    && (if result.Some? then st.pc == Done(result.value) else !st.pc.Done?)
  }

  method AssertNeedsRepair(server: Server, path: string) returns (result: Option<Outcome>, killed: bool)
    modifies server
    ensures server.nodes == old(server.nodes)
    ensures killed == (old(server.choices) == [])
    ensures killed ==> result == None && server.choices == []
    ensures !killed ==>
              && server.choices == old(server.choices)[1..]
              && result == if !old(server.choices)[0].reports then Some(Failed)
                           else if IsRepaired(server.nodes, path) then Some(Skipped)
                           else if IsLegacy(server.nodes, path) then None
                           else Some(Failed)
  {
    var reply := server.Describe();
    if reply == Killed {
      return None, true;
    }
    if reply == Bad || path !in server.nodes || server.nodes[path].NotTable? {
      return Some(Failed), false;
    }
    match Classify(server.nodes[path].config)
    case AlreadyRepaired => return Some(Skipped), false;
    case NeedsRepair => return None, false;
    case Unsafe => return Some(Failed), false;
  }

  method CopyWithStorage(server: Server, source: string, target: string) returns (reply: Reply)
    modifies server
    ensures old(server.choices) == [] ==> reply == Killed && server.choices == [] && server.nodes == old(server.nodes)
    ensures old(server.choices) != [] ==>
              var c := old(server.choices)[0];
              var changed := Copied(old(server.nodes), source, target, c.config);
              && server.choices == old(server.choices)[1..]
              && server.nodes == (if changed.Some? && c.applies then changed.value else old(server.nodes))
              && reply == if changed.Some? && c.applies && c.reports then Good else Bad
  {
    if server.choices == [] {
      return Killed;
    }
    reply := server.Modify(Copied(server.nodes, source, target, server.choices[0].config));
  }

  method RepairOne(server: Server, path: string, opt: Options) returns (result: Option<Outcome>)
    modifies server
    ensures Ends(server, Repair(old(server.nodes), path, opt, old(server.choices)), result)
  {
    hide TempPath, BackupPath, SplitPath, Classify, Run, Copied, Moved, Removed, IsRepaired, IsLegacy;
    ghost var st := State(server.nodes, CheckNeeds, server.choices);
    RunUnfolds(path, opt, st);
    var early, killed := AssertNeedsRepair(server, path);
    if killed {
      return None;
    }
    st := Step(path, opt, st);
    RunUnfolds(path, opt, st);
    if early.Some? {
      return early;
    }
    if SplitPath(path).None? {
      return Some(Failed);
    }
    var temp, backup := TempPath(path, opt), BackupPath(path, opt);

    var reply := server.Describe();
    if reply == Killed {
      return None;
    }
    st := Step(path, opt, st);
    RunUnfolds(path, opt, st);
    if reply == Bad || temp in server.nodes {
      return Some(Failed);
    }
    reply := server.Describe();
    if reply == Killed {
      return None;
    }
    st := Step(path, opt, st);
    RunUnfolds(path, opt, st);
    if reply == Bad || backup in server.nodes {
      return Some(Failed);
    }
    if opt.dryRun {
      return Some(Repaired(opt.dropBackup));
    }
    result := SwapTables(server, path, temp, backup, opt);
  }

  /** The part of `repairOne` that changes the scheme. */
  method SwapTables(server: Server, path: string, temp: string, backup: string, opt: Options)
    returns (result: Option<Outcome>)
    requires temp == TempPath(path, opt) && backup == BackupPath(path, opt)
    modifies server
    ensures Ends(server, Run(path, opt, State(old(server.nodes), Copy, old(server.choices))), result)
  {
    hide TempPath, BackupPath, SplitPath, Classify, Run, Copied, Moved, Removed, IsRepaired, IsLegacy;
    ghost var st := State(server.nodes, Copy, server.choices);
    RunUnfolds(path, opt, st);
    var reply := CopyWithStorage(server, path, temp);
    if reply == Killed {
      return None;
    }
    st := Step(path, opt, st);
    RunUnfolds(path, opt, st);
    if reply == Bad {
      return Some(Failed);
    }
    reply := server.Describe();
    if reply == Killed {
      return None;
    }
    st := Step(path, opt, st);
    RunUnfolds(path, opt, st);
    if reply == Bad || !IsRepaired(server.nodes, temp) {
      return Some(Failed);
    }
    reply := server.Modify(Moved(server.nodes, path, backup));
    if reply == Killed {
      return None;
    }
    st := Step(path, opt, st);
    RunUnfolds(path, opt, st);
    if reply == Bad {
      return Some(Failed);
    }
    result := FinishSwap(server, path, temp, backup, opt);
  }

  method FinishSwap(server: Server, path: string, temp: string, backup: string, opt: Options)
    returns (result: Option<Outcome>)
    requires temp == TempPath(path, opt) && backup == BackupPath(path, opt)
    modifies server
    ensures Ends(server, Run(path, opt, State(old(server.nodes), MoveIn, old(server.choices))), result)
  {
    hide TempPath, BackupPath, SplitPath, Classify, Run, Copied, Moved, Removed, IsRepaired, IsLegacy;
    ghost var st := State(server.nodes, MoveIn, server.choices);
    RunUnfolds(path, opt, st);
    var reply := server.Modify(Moved(server.nodes, temp, path));
    if reply == Killed {
      return None;
    }
    st := Step(path, opt, st);
    RunUnfolds(path, opt, st);
    if reply == Bad {
      return Some(Failed);
    }
    reply := server.Describe();
    if reply == Killed {
      return None;
    }
    st := Step(path, opt, st);
    RunUnfolds(path, opt, st);
    if reply == Bad || !IsRepaired(server.nodes, path) {
      return Some(Failed);
    }
    if !opt.dropBackup {
      return Some(Repaired(false));
    }
    reply := server.Modify(Removed(server.nodes, backup));
    if reply == Killed {
      return None;
    }
    st := Step(path, opt, st);
    RunUnfolds(path, opt, st);
    return if reply == Bad then Some(Failed) else Some(Repaired(true));
  }
}
