/** Reading the list of tables and repairing them one after another (`LoadTablePaths` and
    `Run` in repair.go). */
module RepairBatch {
  import opened Wrappers
  import opened Order
  import opened TableRepair

  // ---------- the list of tables ----------

  /** Go's `unicode.IsSpace`. */
  predicate IsGoSpace(c: char) {
    || '\U{0009}' <= c <= '\U{000D}' || c == ' ' || c == '\U{0085}' || c == '\U{00A0}' || c == '\U{1680}'
    || '\U{2000}' <= c <= '\U{200A}' || c == '\U{2028}' || c == '\U{2029}' || c == '\U{202F}' || c == '\U{205F}'
    || c == '\U{3000}'
  }

  function TrimLeft(s: string): string {
    if s != "" && IsGoSpace(s[0]) then TrimLeft(s[1..]) else s
  }

  function TrimRight(s: string): string {
    if s != "" && IsGoSpace(s[|s| - 1]) then TrimRight(s[..|s| - 1]) else s
  }

  function TrimSpace(s: string): string {
    TrimRight(TrimLeft(s))
  }

  function BeforeTab(s: string): string {
    if s == "" || s[0] == '\t' then "" else [s[0]] + BeforeTab(s[1..])
  }

  /** Blank lines and comments name no table; the others name the text before the first tab. */
  function Named(line: string): Option<string> {
    var t := TrimSpace(line);
    if t == "" || t[0] == '#' then None else Some(TrimSpace(BeforeTab(t)))
  }

  predicate Absolute(path: string) {
    path != "" && path[0] == '/'
  }

  /** The paths the remaining lines add to those seen; None for a path that is not absolute. */
  function Loaded(lines: seq<string>, seen: seq<string>): Option<seq<string>> {
    if lines == [] then Some(seen)
    else
      match Named(lines[0])
      case None => Loaded(lines[1..], seen)
      case Some(p) =>
        if !Absolute(p) then None
        else Loaded(lines[1..], if p in seen then seen else seen + [p])
  }

  method LoadTablePaths(lines: seq<string>) returns (r: Option<seq<string>>)
    ensures r == Loaded(lines, [])
  {
    var paths: seq<string> := [];
    assert lines[0..] == lines;
    for i := 0 to |lines|
      invariant Loaded(lines, []) == Loaded(lines[i..], paths)
    {
      assert lines[i..][1..] == lines[i + 1..];
      var line := TrimSpace(lines[i]);
      if line == "" || line[0] == '#' {
        continue;
      }
      var p := TrimSpace(BeforeTab(line));
      if !Absolute(p) {
        return None;
      }
      if p in paths {
        continue;
      }
      paths := paths + [p];
    }
    return Some(paths);
  }

  /** The loaded list has no duplicates and holds exactly the named paths. */
  lemma {:induction false} LoadedPaths(lines: seq<string>, seen: seq<string>)
    requires NoDup(seen) && Loaded(lines, seen).Some?
    ensures var paths := Loaded(lines, seen).value;
            && NoDup(paths)
            && forall p :: p in paths <==> p in seen || exists l :: l in lines && Named(l) == Some(p)
  {
    hide Named;
    if lines != [] {
      var first := Named(lines[0]);
      var next := if first.Some? && first.value !in seen then seen + [first.value] else seen;
      LoadedPaths(lines[1..], next);
      assert forall l :: l in lines <==> l == lines[0] || l in lines[1..];
      assert forall p :: p in next <==> p in seen || first == Some(p);
    }
  }

  // ---------- the batch ----------

  datatype Totals = Totals(total: nat, repaired: nat, skipped: nat, backupsDropped: nat)

  datatype End = Finished | Stopped | WasKilled

  /** The output: the paths written to it, and how many more lines it takes before it fails. */
  datatype Paper = Paper(lines: seq<string>, room: nat)

  datatype Batch = Batch(nodes: Scheme, choices: seq<Choice>, totals: Totals, paper: Paper, end: End)

  function WithDefaults(opt: Options): Options {
    Options(if opt.tempPrefix == "" then "temp_" else opt.tempPrefix,
            if opt.backupSuffix == "" then "_bak" else opt.backupSuffix, opt.dropBackup, opt.dryRun)
  }

  function WithRepaired(t: Totals, dropped: bool): Totals {
    t.(repaired := t.repaired + 1, backupsDropped := t.backupsDropped + if dropped then 1 else 0)
  }

  function RunBatch(nodes: Scheme, paths: seq<string>, opt: Options, choices: seq<Choice>, t: Totals,
                    paper: Paper): Batch
    decreases |paths|
  {
    if paths == [] then Batch(nodes, choices, t, paper, Finished)
    else
      var st := Repair(nodes, paths[0], opt, choices);
      match st.pc
      case Done(Skipped) => RunBatch(st.nodes, paths[1..], opt, st.choices, t.(skipped := t.skipped + 1), paper)
      case Done(Repaired(dropped)) =>
        if paper.room == 0 then Batch(st.nodes, st.choices, WithRepaired(t, dropped), paper, Stopped)
        else RunBatch(st.nodes, paths[1..], opt, st.choices, WithRepaired(t, dropped),
          Paper(paper.lines + [paths[0]], paper.room - 1))
      case Done(Failed) => Batch(st.nodes, st.choices, t, paper, Stopped)
      case _ => Batch(st.nodes, st.choices, t, paper, WasKilled)
  }

  class Output {
    var paper: Paper

    constructor (room: nat)
      ensures paper == Paper([], room)
    {
      paper := Paper([], room);
    }

    method Println(path: string) returns (ok: bool)
      modifies this
      ensures ok <==> old(paper).room > 0
      ensures paper == if ok then Paper(old(paper).lines + [path], old(paper).room - 1) else old(paper)
    {
      ok := paper.room > 0;
      if ok {
        paper := Paper(paper.lines + [path], paper.room - 1);
      }
    }
  }

  /** `Run`: None is the error for a missing pool kind or an unreadable list. */
  method RunRepairs(server: Server, out: Output, lines: seq<string>, poolKind: string, options: Options)
    returns (totals: Option<Totals>, end: End)
    modifies server, out
    ensures var paths := Loaded(lines, []);
            if poolKind == "" || paths.None? then
              totals == None && server.nodes == old(server.nodes) && out.paper == old(out.paper)
            else
              var b := RunBatch(old(server.nodes), paths.value, WithDefaults(options), old(server.choices),
                                Totals(|paths.value|, 0, 0, 0), old(out.paper));
              && totals == Some(b.totals) && end == b.end && server.nodes == b.nodes && server.choices == b.choices
              && out.paper == b.paper
  {
    hide Repair, Loaded;
    if poolKind == "" {
      return None, Stopped;
    }
    var opt := WithDefaults(options);
    var loaded := LoadTablePaths(lines);
    if loaded.None? {
      return None, Stopped;
    }
    var paths := loaded.value;
    var t := Totals(|paths|, 0, 0, 0);
    assert paths[0..] == paths;
    for i := 0 to |paths|
      invariant RunBatch(old(server.nodes), paths, opt, old(server.choices), Totals(|paths|, 0, 0, 0),
                old(out.paper)) ==
                RunBatch(server.nodes, paths[i..], opt, server.choices, t, out.paper)
    {
      assert paths[i..][0] == paths[i] && paths[i..][1..] == paths[i + 1..];
      var result := RepairOne(server, paths[i], opt);
      match result
      case None => return Some(t), WasKilled;
      case Some(Skipped) => t := t.(skipped := t.skipped + 1);
      case Some(Failed) => return Some(t), Stopped;
      case Some(Repaired(dropped)) =>
        t := t.(repaired := t.repaired + 1);
        if dropped {
          t := t.(backupsDropped := t.backupsDropped + 1);
        }
        var ok := out.Println(paths[i]);
        if !ok {
          return Some(t), Stopped;
        }
    }
    return Some(t), Finished;
  }

  // ---------- what a batch does ----------

  function NextTotals(st: State, t: Totals): Totals {
    if st.pc == Done(Skipped) then t.(skipped := t.skipped + 1) else WithRepaired(t, st.pc == Done(Repaired(true)))
  }

  function NextPaper(st: State, path: string, paper: Paper): Paper {
    if st.pc == Done(Skipped) || paper.room == 0 then paper else Paper(paper.lines + [path], paper.room - 1)
  }

  predicate Helper(q: string, paths: seq<string>, opt: Options) {
    exists p :: p in paths && (q == TempPath(p, opt) || q == BackupPath(p, opt))
  }

  /** However the batch ends: a table that is not listed is exactly as before, even when its
      name is a helper name of a listed table; every new path is a helper of a listed one. */
  lemma {:induction false} BatchKeepsOthers(nodes: Scheme, paths: seq<string>, opt: Options, choices: seq<Choice>,
                                            t: Totals, paper: Paper)
    ensures var b := RunBatch(nodes, paths, opt, choices, t, paper);
            && (forall q :: q in nodes && q !in paths ==> q in b.nodes && b.nodes[q] == nodes[q])
            && (forall q :: q in b.nodes && q !in nodes ==> Helper(q, paths, opt))
            && (opt.dryRun ==> b.nodes == nodes)
    decreases |paths|
  {
    hide Repair, TempPath, BackupPath;
    if paths != [] {
      var p, st := paths[0], Repair(nodes, paths[0], opt, choices);
      RowsAreNeverLost(nodes, p, opt, choices);
      SuccessMeansRepaired(nodes, p, opt, choices);
      DryRunChangesNothing(nodes, p, opt, choices);
      assert p in paths && forall q :: q in paths <==> q == p || q in paths[1..];
      var t', paper' := NextTotals(st, t), NextPaper(st, p, paper);
      BatchKeepsOthers(st.nodes, paths[1..], opt, st.choices, t', paper');
    }
  }

  lemma DryRunChangesNothing(nodes: Scheme, path: string, opt: Options, choices: seq<Choice>)
    ensures opt.dryRun ==> Repair(nodes, path, opt, choices).nodes == nodes
  {
    hide Repair, TempPath, BackupPath, Classify;
    var shape := RepairShape(nodes, path, opt, choices);
  }

  /** After a batch that ends without an error every listed table is repaired and has the
      rows it had at the start, and each was counted once. */
  lemma {:induction false} FinishedBatchRepairsAll(nodes: Scheme, paths: seq<string>, opt: Options,
                                                   choices: seq<Choice>, t: Totals, paper: Paper)
    requires NoDup(paths) && !opt.dryRun
    requires RunBatch(nodes, paths, opt, choices, t, paper).end == Finished
    ensures var b := RunBatch(nodes, paths, opt, choices, t, paper);
            && b.totals.repaired + b.totals.skipped == t.repaired + t.skipped + |paths| && b.totals.total == t.total
            && |b.paper.lines| - |paper.lines| == b.totals.repaired - t.repaired
            && forall p :: p in paths ==>
                 IsRepaired(b.nodes, p) && (p in nodes ==> nodes[p].Table? && b.nodes[p].rows == nodes[p].rows)
    decreases |paths|
  {
    hide Repair, TempPath, BackupPath, Classify, Helper;
    if paths != [] {
      var p, st := paths[0], Repair(nodes, paths[0], opt, choices);
      SuccessMeansRepaired(nodes, p, opt, choices);
      RowsAreNeverLost(nodes, p, opt, choices);
      var t', paper' := NextTotals(st, t), NextPaper(st, p, paper);
      FinishedBatchRepairsAll(st.nodes, paths[1..], opt, st.choices, t', paper');
      BatchKeepsOthers(st.nodes, paths[1..], opt, st.choices, t', paper');
      DistinctTail(paths);
    }
  }

  /** The path p is repaired and has the rows it had at the start. */
  predicate KeptRows(start: Scheme, nodes: Scheme, p: string) {
    IsRepaired(nodes, p) && (p in start ==> start[p].Table? && nodes[p].rows == start[p].rows)
  }

  /** What is said about the paths a batch has written. */
  ghost predicate Written(start: Scheme, paths: seq<string>, opt: Options, lines: seq<string>, nodes: Scheme) {
    && (forall p :: p in lines ==> p in paths)
    && (NoDup(paths) ==> NoDup(lines))
    && (NoDup(paths) && !opt.dryRun ==> forall p :: p in lines ==> KeptRows(start, nodes, p))
    && (opt.dryRun ==> forall p :: p in lines ==> IsLegacy(start, p))
  }

  /** However the batch ends, the paths it writes are listed ones, each written once, and
      every one of them is repaired and has the rows it had at the start.  A dry run writes
      the paths of tables it would have repaired: they are legacy, and nothing is changed. */
  lemma {:induction false} OutputListsPaths(nodes: Scheme, paths: seq<string>, opt: Options, choices: seq<Choice>,
                                            t: Totals, paper: Paper)
    ensures var b := RunBatch(nodes, paths, opt, choices, t, paper);
            paper.lines <= b.paper.lines && Written(nodes, paths, opt, b.paper.lines[|paper.lines|..], b.nodes)
    decreases |paths|
  {
    hide Repair, TempPath, BackupPath, Written;
    if paths == [] {
      NothingWritten(nodes, paths, opt, nodes);
    } else {
      var p, st := paths[0], Repair(nodes, paths[0], opt, choices);
      var t', paper' := NextTotals(st, t), NextPaper(st, p, paper);
      var b := RunBatch(st.nodes, paths[1..], opt, st.choices, t', paper');
      OutputListsPaths(st.nodes, paths[1..], opt, st.choices, t', paper');
      BatchKeepsOthers(st.nodes, paths[1..], opt, st.choices, t', paper');
      if st.pc == Done(Skipped) {
        assert RunBatch(nodes, paths, opt, choices, t, paper) == b;
        SkippedNotWritten(nodes, paths, opt, choices, b.paper.lines[|paper.lines|..], b.nodes);
      } else if st.pc.Done? && st.pc.outcome.Repaired? && paper.room > 0 {
        assert RunBatch(nodes, paths, opt, choices, t, paper) == b;
        var rest := b.paper.lines[|paper'.lines|..];
        assert b.paper.lines[|paper.lines|..] == [p] + rest;
        RepairedIsWritten(nodes, paths, opt, choices, rest, b.nodes);
      } else {
        NothingWritten(nodes, paths, opt, st.nodes);
        assert paper.lines[|paper.lines|..] == [];
      }
    }
  }

  lemma NothingWritten(start: Scheme, paths: seq<string>, opt: Options, nodes: Scheme)
    ensures Written(start, paths, opt, [], nodes)
  {
  }

  lemma SkippedNotWritten(start: Scheme, paths: seq<string>, opt: Options, choices: seq<Choice>, lines: seq<string>,
                          nodes: Scheme)
    requires paths != [] && Repair(start, paths[0], opt, choices).pc == Done(Skipped)
    requires Written(Repair(start, paths[0], opt, choices).nodes, paths[1..], opt, lines, nodes)
    ensures Written(start, paths, opt, lines, nodes)
  {
    hide Repair, KeptRows, IsLegacy;
    SuccessMeansRepaired(start, paths[0], opt, choices);
  }

  lemma RepairedIsWritten(start: Scheme, paths: seq<string>, opt: Options, choices: seq<Choice>, rest: seq<string>,
                          nodes: Scheme)
    requires paths != []
    requires var st := Repair(start, paths[0], opt, choices);
             && st.pc.Done? && st.pc.outcome.Repaired?
             && Written(st.nodes, paths[1..], opt, rest, nodes)
             && (forall q :: q in st.nodes && q !in paths[1..] ==> q in nodes && nodes[q] == st.nodes[q])
    ensures Written(start, paths, opt, [paths[0]] + rest, nodes)
  {
    hide Repair, TempPath, BackupPath, Classify;
    var p := paths[0];
    SuccessMeansRepaired(start, p, opt, choices);
    RowsAreNeverLost(start, p, opt, choices);
    if NoDup(paths) {
      DistinctTail(paths);
      assert NoDup([p] + rest);
    }
  }

  lemma DistinctTail(paths: seq<string>)
    requires NoDup(paths) && paths != []
    ensures NoDup(paths[1..]) && paths[0] !in paths[1..]
  {
  }

  /** When every listed table is repaired, a batch whose describes are answered skips them
      all and changes nothing. */
  lemma {:induction false} RepairedBatchIsSkipped(nodes: Scheme, paths: seq<string>, opt: Options,
                                                  choices: seq<Choice>, t: Totals, paper: Paper)
    requires forall p :: p in paths ==> IsRepaired(nodes, p)
    requires |choices| >= |paths| && forall c :: c in choices ==> c.reports
    ensures var b := RunBatch(nodes, paths, opt, choices, t, paper);
            b.end == Finished && b.nodes == nodes && b.totals == t.(skipped := t.skipped + |paths|) && b.paper == paper
    decreases |paths|
  {
    hide Classify, TempPath, BackupPath;
    if paths != [] {
      assert choices[0] in choices && paths[0] in paths;
      var st := State(nodes, CheckNeeds, choices);
      RunUnfolds(paths[0], opt, st);
      RunUnfolds(paths[0], opt, Step(paths[0], opt, st));
      RepairedBatchIsSkipped(nodes, paths[1..], opt, choices[1..], t.(skipped := t.skipped + 1), paper);
    }
  }

  /** Running the same batch again after one that ended without an error. */
  lemma SecondBatchSkipsAll(nodes: Scheme, paths: seq<string>, opt: Options, first: seq<Choice>, second: seq<Choice>,
                            t: Totals, paper: Paper, paper': Paper)
    requires NoDup(paths) && !opt.dryRun
    requires RunBatch(nodes, paths, opt, first, t, paper).end == Finished
    requires |second| >= |paths| && forall c :: c in second ==> c.reports
    ensures var done := RunBatch(nodes, paths, opt, first, t, paper).nodes;
            var b := RunBatch(done, paths, opt, second, Totals(|paths|, 0, 0, 0), paper');
            b.end == Finished && b.nodes == done && b.totals == Totals(|paths|, 0, |paths|, 0) && b.paper == paper'
  {
    hide RunBatch;
    FinishedBatchRepairsAll(nodes, paths, opt, first, t, paper);
    RepairedBatchIsSkipped(RunBatch(nodes, paths, opt, first, t, paper).nodes, paths, opt, second,
      Totals(|paths|, 0, 0, 0), paper');
  }
}
