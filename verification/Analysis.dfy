/** Changed lines against a profile. */
module Analysis {
  import opened Json
  import opened Text
  import opened Blocks
  import opened Coverage

  const MAX_SIGNALS: nat := 200

  /** The place of the snapshot in the sandbox. */
  const WORKSPACE := "/workspace/"

  // ----- the profile name of a file -----

  predicate Under(path: string, dir: string) {
    dir + "/" <= path
  }

  /** The modules a path can belong to; a root module is one of depth 0. */
  predicate Candidate(root: string, workspace: map<string, string>, path: string, dir: string) {
    dir in workspace && Under(path, dir) && (|dir| > 0 || root == "")
  }

  predicate Innermost(root: string, workspace: map<string, string>, path: string, dir: string) {
    && Candidate(root, workspace, path, dir)
    && forall d :: d in workspace && Candidate(root, workspace, path, d) ==> |d| <= |dir|
  }

  /** What profileKey may answer. */
  ghost predicate IsKey(root: string, workspace: map<string, string>, path: string, key: Option<string>) {
    if forall d :: d in workspace ==> !Candidate(root, workspace, path, d) then
      key == if root == "" then None else Some(root + "/" + path)
    else
      exists dir :: dir in workspace && Innermost(root, workspace, path, dir)
                    && key == Some(workspace[dir] + "/" + path[|dir| + 1..])
  }

  /** Nested modules are ordered by inclusion: the innermost one is unique, and with it the answer. */
  lemma KeyIsUnique(root: string, workspace: map<string, string>, path: string, k: Option<string>, l: Option<string>)
    requires IsKey(root, workspace, path, k) && IsKey(root, workspace, path, l)
    ensures k == l
  {
    forall d, e | Innermost(root, workspace, path, d) && Innermost(root, workspace, path, e)
      ensures d == e
    {
      assert d == path[..|d|] && e == path[..|e|];
    }
  }

  /** profileKey: a loop over a map, in whatever order the map is walked. */
  method ProfileKey(root: string, workspace: map<string, string>, path: string) returns (key: Option<string>)
    ensures IsKey(root, workspace, path, key)
  {
    var mod, rel, depth := root, path, if root == "" then -1 else 0;
    ghost var at: Option<string> := None;
    var left := workspace.Keys;
    while left != {}
      invariant left <= workspace.Keys
      invariant forall d :: d in workspace && d !in left && Candidate(root, workspace, path, d) ==> |d| <= depth
      invariant at.None? ==> mod == root && rel == path && depth == (if root == "" then -1 else 0)
      invariant at.Some? ==> Candidate(root, workspace, path, at.value) && |at.value| == depth
                             && mod == workspace[at.value] && rel == path[|at.value| + 1..]
      decreases left
    {
      var dir :| dir in left;
      left := left - {dir};
      if dir + "/" <= path && |dir| > depth {
        mod, rel, depth := workspace[dir], path[|dir| + 1..], |dir|;
        at := Some(dir);
      }
    }
    if depth < 0 {
      return None;
    }
    if at.Some? {
      assert Innermost(root, workspace, path, at.value);
    }
    key := Some(mod + "/" + rel);
  }

  // ----- the analysis -----

  /** A changed file: whether the format covers its language, and its added and removed lines. */
  datatype Changed = Changed(path: string, scoped: bool, added: seq<int>, removed: nat)

  datatype Report = Report(path: string, measured: bool, added: nat, executed: nat, notExecuted: nat, noBlock: nat, notMeasured: nat) {
    predicate Conserves() {
      added == executed + notExecuted + noBlock + notMeasured
    }
  }

  datatype Totals = Totals(added: nat, executed: nat, notExecuted: nat, noBlock: nat, notMeasured: nat, removed: nat)

  datatype Signal = Signal(path: string, run: LineRun)

  /** The blocks of a file: under both names of an LCOV report, or under the module's name of a Go profile. */
  function Lookup(lcov: bool, blocks: seq<Block>, key: Option<string>, path: string): seq<Block> {
    if lcov then Of(blocks, path) + Of(blocks, WORKSPACE + path)
    else match key case Some(k) => Of(blocks, k) case None => []
  }

  /** The lines that have a verdict, in order. */
  function With(lines: seq<int>, blocks: seq<Block>, s: State): (r: seq<int>)
    ensures |r| <= |lines|
  {
    if lines == [] then []
    else
      var last := lines[|lines| - 1];
      With(lines[..|lines| - 1], blocks, s) + if Verdict(blocks, last) == s then [last] else []
  }

  function ReportOf(f: Changed, blocks: seq<Block>): Report {
    if blocks == [] then Report(f.path, false, |f.added|, 0, 0, 0, |f.added|)
    else Report(f.path, true, |f.added|, |With(f.added, blocks, Executed)|, |With(f.added, blocks, NotRun)|,
                |With(f.added, blocks, NoBlock)|, 0)
  }

  function Unrun(f: Changed, blocks: seq<Block>): seq<int> {
    if blocks == [] then [] else With(f.added, blocks, NotRun)
  }

  function Signals(path: string, runs: seq<LineRun>): seq<Signal> {
    seq(|runs|, i requires 0 <= i < |runs| => Signal(path, runs[i]))
  }

  /** Every added line has exactly one state. */
  lemma {:induction false} WithPartitions(lines: seq<int>, blocks: seq<Block>)
    ensures |With(lines, blocks, Executed)| + |With(lines, blocks, NotRun)| + |With(lines, blocks, NoBlock)| == |lines|
    ensures forall s :: multiset(With(lines, blocks, s)) <= multiset(lines)
  {
    if lines != [] {
      WithPartitions(lines[..|lines| - 1], blocks);
      assert lines == lines[..|lines| - 1] + [lines[|lines| - 1]];
    }
  }

  lemma ReportConserves(f: Changed, blocks: seq<Block>)
    ensures ReportOf(f, blocks).Conserves()
  {
    WithPartitions(f.added, blocks);
  }

  /** The added lines of one file, resolved one by one. */
  method Resolve(f: Changed, blocks: seq<Block>) returns (r: Report, unrun: seq<int>)
    ensures r == ReportOf(f, blocks) && unrun == Unrun(f, blocks)
  {
    if blocks == [] {
      return Report(f.path, false, |f.added|, 0, 0, 0, |f.added|), [];
    }
    var executed, notExecuted, noBlock := 0, 0, 0;
    unrun := [];
    for i := 0 to |f.added|
      invariant executed == |With(f.added[..i], blocks, Executed)| && noBlock == |With(f.added[..i], blocks, NoBlock)|
      invariant notExecuted == |unrun| && unrun == With(f.added[..i], blocks, NotRun)
    {
      assert f.added[..i + 1][..i] == f.added[..i];
      var state := Classify(blocks, f.added[i]);
      match state {
        case Executed => executed := executed + 1;
        case NotRun =>
          notExecuted := notExecuted + 1;
          unrun := unrun + [f.added[i]];
        case NoBlock => noBlock := noBlock + 1;
      }
    }
    assert f.added[..|f.added|] == f.added;
    r := Report(f.path, true, |f.added|, executed, notExecuted, noBlock, 0);
  }

  function Plus(t: Totals, r: Report): Totals {
    Totals(t.added + r.added, t.executed + r.executed, t.notExecuted + r.notExecuted, t.noBlock + r.noBlock,
           t.notMeasured + r.notMeasured, t.removed)
  }

  /** The files reported on: those in scope that add lines. */
  predicate Reported(f: Changed) {
    f.scoped && f.added != []
  }

  /** Their reports, the totals and the signals, after some changed files. */
  datatype Result = Result(files: seq<Report>, totals: Totals, signals: seq<Signal>)

  function Next(r: Result, f: Changed, blocks: seq<Block>): Result {
    if !f.scoped then r
    else
      var totals := r.totals.(removed := r.totals.removed + f.removed);
      if f.added == [] then r.(totals := totals)
      else
        var all := r.signals + Signals(f.path, Folded(Ranges(Unrun(f, blocks))));
        Result(r.files + [ReportOf(f, blocks)], Plus(totals, ReportOf(f, blocks)), if |all| <= MAX_SIGNALS then all else all[..MAX_SIGNALS])
  }

  function Analyzed(lcov: bool, blocks: seq<Block>, keys: seq<Option<string>>, files: seq<Changed>): Result
    requires |keys| == |files|
  {
    if files == [] then Result([], Totals(0, 0, 0, 0, 0, 0), [])
    else
      var n := |files| - 1;
      Next(Analyzed(lcov, blocks, keys[..n], files[..n]), files[n], Lookup(lcov, blocks, keys[n], files[n].path))
  }

  function Sum(files: seq<Report>): Totals {
    if files == [] then Totals(0, 0, 0, 0, 0, 0) else Plus(Sum(files[..|files| - 1]), files[|files| - 1])
  }

  function AddedLines(files: seq<Changed>): nat {
    if files == [] then 0
    else AddedLines(files[..|files| - 1]) + if Reported(files[|files| - 1]) then |files[|files| - 1].added| else 0
  }

  lemma SumNext(files: seq<Report>, r: Report)
    ensures Sum(files + [r]) == Plus(Sum(files), r)
  {
    assert (files + [r])[..|files|] == files;
  }

  /** The counts of a result are those of its reports, and every report conserves its lines. */
  predicate Balanced(r: Result, added: nat) {
    && (forall k :: 0 <= k < |r.files| ==> r.files[k].Conserves())
    && r.totals.(removed := 0) == Sum(r.files)
    && r.totals.added == r.totals.executed + r.totals.notExecuted + r.totals.noBlock + r.totals.notMeasured == added
    && |r.signals| <= MAX_SIGNALS
  }

  lemma NextBalanced(before: Result, added: nat, f: Changed, blocks: seq<Block>)
    requires Balanced(before, added)
    ensures Balanced(Next(before, f, blocks), added + if Reported(f) then |f.added| else 0)
  {
    ReportConserves(f, blocks);
    AddedOf(f, blocks);
    SumNext(before.files, ReportOf(f, blocks));
    hide ReportOf, Unrun, Folded, Ranges, Sum;
  }

  lemma AddedOf(f: Changed, blocks: seq<Block>)
    ensures ReportOf(f, blocks).added == |f.added|
  {}

  /**
   Conservation: every file in scope that adds lines is reported once, each of its lines in exactly
   one of the four states; the totals are the sums over the reports, so they conserve as well; and
   at most 200 signals are raised.
   */
  lemma {:induction false} AnalysisConserves(lcov: bool, blocks: seq<Block>, keys: seq<Option<string>>, files: seq<Changed>)
    requires |keys| == |files|
    ensures Balanced(Analyzed(lcov, blocks, keys, files), AddedLines(files))
    decreases |files|
  {
    hide Balanced, Next, Lookup;
    if files == [] {
      NothingBalanced();
    } else {
      var n := |files| - 1;
      AnalysisConserves(lcov, blocks, keys[..n], files[..n]);
      NextBalanced(Analyzed(lcov, blocks, keys[..n], files[..n]), AddedLines(files[..n]), files[n],
                   Lookup(lcov, blocks, keys[n], files[n].path));
    }
  }

  lemma NothingBalanced()
    ensures Balanced(Result([], Totals(0, 0, 0, 0, 0, 0), []), 0)
  {}

  /** Analyze, up to the order and the cut of the report. */
  method Analyze(lcov: bool, blocks: seq<Block>, root: string, workspace: map<string, string>, files: seq<Changed>)
    returns (r: Result, keys: seq<Option<string>>)
    ensures |keys| == |files| && r == Analyzed(lcov, blocks, keys, files)
    ensures forall k :: 0 <= k < |files| ==> IsKey(root, workspace, files[k].path, keys[k])
  {
    hide Lookup, Folded, Ranges, Unrun, ReportOf, IsKey, Analyzed;
    NothingAnalyzed(lcov, blocks);
    r := Result([], Totals(0, 0, 0, 0, 0, 0), []);
    keys := [];
    for i := 0 to |files|
      invariant |keys| == i && r == Analyzed(lcov, blocks, keys, files[..i]) && |r.signals| <= MAX_SIGNALS
      invariant forall k :: 0 <= k < i ==> IsKey(root, workspace, files[k].path, keys[k])
    {
      var f := files[i];
      var key := ProfileKey(root, workspace, f.path);
      AnalyzedNext(lcov, blocks, keys, files, i, key);
      keys := keys + [key];
      var found := Lookup(lcov, blocks, key, f.path);
      r := Include(r, f, found);
    }
    assert files[..|files|] == files;
  }

  lemma NothingAnalyzed(lcov: bool, blocks: seq<Block>)
    ensures Analyzed(lcov, blocks, [], []) == Result([], Totals(0, 0, 0, 0, 0, 0), [])
  {}

  lemma AnalyzedNext(lcov: bool, blocks: seq<Block>, keys: seq<Option<string>>, files: seq<Changed>, i: nat, key: Option<string>)
    requires |keys| == i < |files|
    ensures Analyzed(lcov, blocks, keys + [key], files[..i + 1])
         == Next(Analyzed(lcov, blocks, keys, files[..i]), files[i], Lookup(lcov, blocks, key, files[i].path))
  {
    hide Lookup, Next;
    assert (keys + [key])[..i] == keys && files[..i + 1][..i] == files[..i];
  }

  /** One changed file of Analyze. */
  method Include(before: Result, f: Changed, blocks: seq<Block>) returns (r: Result)
    requires |before.signals| <= MAX_SIGNALS
    ensures r == Next(before, f, blocks) && |r.signals| <= MAX_SIGNALS
  {
    hide ReportOf, Unrun, Folded, Ranges;
    r := before;
    if !f.scoped {
      return;
    }
    r := r.(totals := r.totals.(removed := r.totals.removed + f.removed));
    if f.added == [] {
      return;
    }
    var report, unrun := Resolve(f, blocks);
    r := r.(files := r.files + [report], totals := Plus(r.totals, report));
    var runs := Runs(unrun);
    var signals := before.signals;
    ghost var all := before.signals + Signals(f.path, runs);
    var i := 0;
    while i < |runs|
      invariant 0 <= i <= |runs|
      invariant |before.signals| + i <= MAX_SIGNALS && signals == all[..|before.signals| + i]
    {
      if |signals| >= MAX_SIGNALS {
        break;
      }
      signals := signals + [Signal(f.path, runs[i])];
      i := i + 1;
    }
    r := r.(signals := signals);
  }
}
