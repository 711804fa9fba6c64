/** What an analysis says of each file. */
module Measured {
  import opened Json
  import opened Blocks
  import opened Coverage
  import opened Analysis

  // ----- the rows about a line -----

  /** A row is about a file: an LCOV report names it from the repository or from the sandbox, a Go profile by its key. */
  predicate About(lcov: bool, b: Block, key: Option<string>, path: string) {
    if lcov then b.file == path || b.file == "/workspace/" + path else key == Some(b.file)
  }

  /** Some row about the file holds the line; of them some ran, or none did. */
  predicate Held(lcov: bool, rows: seq<Block>, key: Option<string>, path: string, line: int) {
    exists b :: b in rows && About(lcov, b, key, path) && b.start <= line <= b.end
  }

  predicate RanOnce(lcov: bool, rows: seq<Block>, key: Option<string>, path: string, line: int) {
    exists b :: b in rows && About(lcov, b, key, path) && b.start <= line <= b.end && b.count > 0
  }

  /** The added lines of a file that ran, that did not, and that no row holds; by their places. */
  function Ran(lcov: bool, rows: seq<Block>, key: Option<string>, f: Changed): set<int> {
    set i | 0 <= i < |f.added| && RanOnce(lcov, rows, key, f.path, f.added[i])
  }

  function Missed(lcov: bool, rows: seq<Block>, key: Option<string>, f: Changed): set<int> {
    set i | 0 <= i < |f.added| && Held(lcov, rows, key, f.path, f.added[i]) && !RanOnce(lcov, rows, key, f.path, f.added[i])
  }

  function Outside(lcov: bool, rows: seq<Block>, key: Option<string>, f: Changed): set<int> {
    set i | 0 <= i < |f.added| && !Held(lcov, rows, key, f.path, f.added[i])
  }

  /** The report of a file counts its lines by these; without any row about the file nothing is measured. */
  predicate Tells(r: Report, lcov: bool, rows: seq<Block>, key: Option<string>, f: Changed) {
    && r.path == f.path && r.added == |f.added|
    && (r.measured <==> exists b :: b in rows && About(lcov, b, key, f.path))
    && (r.measured ==>
          && r.executed == |Ran(lcov, rows, key, f)| && r.notExecuted == |Missed(lcov, rows, key, f)|
          && r.noBlock == |Outside(lcov, rows, key, f)| && r.notMeasured == 0)
    && (!r.measured ==> r.executed == r.notExecuted == r.noBlock == 0 && r.notMeasured == |f.added|)
  }

  // ----- one file -----

  lemma FoundIs(lcov: bool, rows: seq<Block>, key: Option<string>, path: string)
    ensures forall b :: b in Lookup(lcov, rows, key, path) <==> b in rows && About(lcov, b, key, path)
  {}

  lemma StateIs(lcov: bool, rows: seq<Block>, key: Option<string>, path: string, line: int)
    ensures var s := Verdict(Lookup(lcov, rows, key, path), line);
            && (s == Executed <==> RanOnce(lcov, rows, key, path, line))
            && (s == NoBlock <==> !Held(lcov, rows, key, path, line))
  {
    hide Lookup;
    FoundIs(lcov, rows, key, path);
    var found := Lookup(lcov, rows, key, path);
    if RanOnce(lcov, rows, key, path, line) {
      var b :| b in rows && About(lcov, b, key, path) && b.start <= line <= b.end && b.count > 0;
      assert b in found && b.Covers(line);
    }
    if Held(lcov, rows, key, path, line) {
      var b :| b in rows && About(lcov, b, key, path) && b.start <= line <= b.end;
      assert b in found && b.Covers(line);
    }
  }

  /** The places of the lines of one state among the first lines. */
  function Places(lines: seq<int>, blocks: seq<Block>, s: State): set<int> {
    set i | 0 <= i < |lines| && Verdict(blocks, lines[i]) == s
  }

  lemma {:induction false} WithIsPlaces(lines: seq<int>, blocks: seq<Block>, s: State)
    ensures |With(lines, blocks, s)| == |Places(lines, blocks, s)|
  {
    hide Verdict;
    if lines != [] {
      var n := |lines| - 1;
      WithIsPlaces(lines[..n], blocks, s);
      assert Places(lines, blocks, s) == Places(lines[..n], blocks, s) + if Verdict(blocks, lines[n]) == s then {n} else {};
    }
  }

  lemma {:induction false} ReportTells(lcov: bool, rows: seq<Block>, key: Option<string>, f: Changed)
    ensures Tells(ReportOf(f, Lookup(lcov, rows, key, f.path)), lcov, rows, key, f)
  {
    hide Lookup, Verdict, With, Held, RanOnce, About;
    var found := Lookup(lcov, rows, key, f.path);
    FoundIs(lcov, rows, key, f.path);
    forall i | 0 <= i < |f.added|
      ensures var s := Verdict(found, f.added[i]);
              && (s == Executed <==> RanOnce(lcov, rows, key, f.path, f.added[i]))
              && (s == NoBlock <==> !Held(lcov, rows, key, f.path, f.added[i]))
    {
      StateIs(lcov, rows, key, f.path, f.added[i]);
    }
    WithIsPlaces(f.added, found, Executed);
    WithIsPlaces(f.added, found, NotRun);
    WithIsPlaces(f.added, found, NoBlock);
    assert Places(f.added, found, Executed) == Ran(lcov, rows, key, f);
    assert Places(f.added, found, NoBlock) == Outside(lcov, rows, key, f);
    MissedIs(lcov, rows, key, f);
    if found != [] {
      assert found[0] in found;
    }
  }

  lemma MissedIs(lcov: bool, rows: seq<Block>, key: Option<string>, f: Changed)
    ensures Places(f.added, Lookup(lcov, rows, key, f.path), NotRun) == Missed(lcov, rows, key, f)
  {
    hide Lookup, Verdict, Held, RanOnce;
    forall i | 0 <= i < |f.added|
      ensures var s := Verdict(Lookup(lcov, rows, key, f.path), f.added[i]);
              s == NotRun <==> Held(lcov, rows, key, f.path, f.added[i]) && !RanOnce(lcov, rows, key, f.path, f.added[i])
    {
      StateIs(lcov, rows, key, f.path, f.added[i]);
      RanIsHeld(lcov, rows, key, f.path, f.added[i]);
    }
  }

  lemma RanIsHeld(lcov: bool, rows: seq<Block>, key: Option<string>, path: string, line: int)
    ensures RanOnce(lcov, rows, key, path, line) ==> Held(lcov, rows, key, path, line)
  {}

  // ----- all files -----

  /** The places of the files that are reported on: those in scope that add lines, in order. */
  predicate AreReported(places: seq<nat>, files: seq<Changed>) {
    && (forall m :: 0 <= m < |places| ==> places[m] < |files|)
    && (forall m, n :: 0 <= m < n < |places| ==> places[m] < places[n])
    && (forall k :: 0 <= k < |files| ==> (k in places <==> files[k].scoped && files[k].added != []))
  }

  function RemovedLines(files: seq<Changed>): nat {
    if files == [] then 0 else RemovedLines(files[..|files| - 1]) + if files[|files| - 1].scoped then files[|files| - 1].removed else 0
  }

  /** All lines that did not run, as the ranges of each reported file in turn. */
  function AllSignals(lcov: bool, rows: seq<Block>, keys: seq<Option<string>>, files: seq<Changed>): seq<Signal>
    requires |keys| == |files|
  {
    if files == [] then []
    else
      var n := |files| - 1;
      var f := files[n];
      AllSignals(lcov, rows, keys[..n], files[..n])
      + if f.scoped && f.added != [] then Signals(f.path, Folded(Ranges(MissedLines(lcov, rows, keys[n], f.path, f.added)))) else []
  }

  /** The lines that rows hold and none ran, in order. */
  function MissedLines(lcov: bool, rows: seq<Block>, key: Option<string>, path: string, lines: seq<int>): seq<int> {
    if lines == [] then []
    else
      var line := lines[|lines| - 1];
      MissedLines(lcov, rows, key, path, lines[..|lines| - 1])
      + if Held(lcov, rows, key, path, line) && !RanOnce(lcov, rows, key, path, line) then [line] else []
  }

  lemma {:induction false} UnrunIsMissed(lcov: bool, rows: seq<Block>, key: Option<string>, path: string, lines: seq<int>)
    ensures With(lines, Lookup(lcov, rows, key, path), NotRun) == MissedLines(lcov, rows, key, path, lines)
  {
    hide Lookup, Verdict, Held, RanOnce;
    if lines != [] {
      UnrunIsMissed(lcov, rows, key, path, lines[..|lines| - 1]);
      StateIs(lcov, rows, key, path, lines[|lines| - 1]);
      RanIsHeld(lcov, rows, key, path, lines[|lines| - 1]);
    }
  }

  lemma {:induction false} UnrunOf(lcov: bool, rows: seq<Block>, key: Option<string>, f: Changed)
    ensures Unrun(f, Lookup(lcov, rows, key, f.path)) == MissedLines(lcov, rows, key, f.path, f.added)
  {
    UnrunIsMissed(lcov, rows, key, f.path, f.added);
    if Lookup(lcov, rows, key, f.path) == [] {
      NothingWith(f.added);
    }
  }

  lemma {:induction false} NothingWith(lines: seq<int>)
    ensures With(lines, [], NotRun) == []
  {
    if lines != [] {
      NothingWith(lines[..|lines| - 1]);
    }
  }

  ghost predicate Exact(r: Result, places: seq<nat>, lcov: bool, rows: seq<Block>, keys: seq<Option<string>>, files: seq<Changed>)
    requires |keys| == |files|
  {
    && AreReported(places, files) && AllTell(r.files, places, lcov, rows, keys, files)
    && r.totals.removed == RemovedLines(files)
    && var all := AllSignals(lcov, rows, keys, files); r.signals == all[..if |all| <= 200 then |all| else 200]
  }

  lemma NextReported(places: seq<nat>, files: seq<Changed>)
    requires files != [] && AreReported(places, files[..|files| - 1])
    ensures var n := |files| - 1; AreReported(if files[n].scoped && files[n].added != [] then places + [n] else places, files)
  {
    var n := |files| - 1;
    forall k | 0 <= k < n
      ensures files[k] == files[..n][k]
    {
    }
  }

  /**
   What an analysis says: exactly the files in scope that add lines are reported, in order, each
   counted line by line from the rows about it; the removed lines are those of the files in scope;
   and the signals are the first 200 ranges of lines that did not run.
   */
  lemma {:induction false} AnalysisExact(lcov: bool, rows: seq<Block>, keys: seq<Option<string>>, files: seq<Changed>) returns (places: seq<nat>)
    requires |keys| == |files|
    ensures Exact(Analyzed(lcov, rows, keys, files), places, lcov, rows, keys, files)
    decreases |files|
  {
    hide Tells, Ranges, Folded, ReportOf, Unrun, Lookup, MissedLines;
    if files == [] {
      places := [];
    } else {
      var n := |files| - 1;
      var f := files[n];
      var before := AnalysisExact(lcov, rows, keys[..n], files[..n]);
      NextReported(before, files);
      ReportTells(lcov, rows, keys[n], f);
      UnrunOf(lcov, rows, keys[n], f);
      places := if f.scoped && f.added != [] then before + [n] else before;
      NextExact(lcov, rows, keys, files, before, places);
    }
  }

  lemma {:induction false} NextExact(lcov: bool, rows: seq<Block>, keys: seq<Option<string>>, files: seq<Changed>, before: seq<nat>, places: seq<nat>)
    requires |keys| == |files| > 0
    requires var n := |files| - 1; var f := files[n];
             && Exact(Analyzed(lcov, rows, keys[..n], files[..n]), before, lcov, rows, keys[..n], files[..n])
             && places == (if f.scoped && f.added != [] then before + [n] else before) && AreReported(places, files)
             && Tells(ReportOf(f, Lookup(lcov, rows, keys[n], f.path)), lcov, rows, keys[n], f)
             && Unrun(f, Lookup(lcov, rows, keys[n], f.path)) == MissedLines(lcov, rows, keys[n], f.path, f.added)
    ensures Exact(Analyzed(lcov, rows, keys, files), places, lcov, rows, keys, files)
  {
    hide Tells, Ranges, Folded, ReportOf, Unrun, Lookup, MissedLines, AllSignals, AllTell;
    var n := |files| - 1;
    var f := files[n];
    var earlier := Analyzed(lcov, rows, keys[..n], files[..n]);
    var r := Analyzed(lcov, rows, keys, files);
    assert r == Next(earlier, f, Lookup(lcov, rows, keys[n], f.path));
    SignalsNext(lcov, rows, keys, files, earlier);
    assert r.totals.removed == RemovedLines(files);
    hide AreReported;
    TellsNext(lcov, rows, keys, files, before, earlier.files, r.files, places);
  }

  ghost predicate AllTell(reports: seq<Report>, places: seq<nat>, lcov: bool, rows: seq<Block>, keys: seq<Option<string>>, files: seq<Changed>)
    requires |keys| == |files|
  {
    |reports| == |places| && forall m :: 0 <= m < |places| ==> places[m] < |files| && Tells(reports[m], lcov, rows, keys[places[m]], files[places[m]])
  }

  lemma {:induction false} TellsNext(lcov: bool, rows: seq<Block>, keys: seq<Option<string>>, files: seq<Changed>, before: seq<nat>,
                                     earlier: seq<Report>, reports: seq<Report>, places: seq<nat>)
    requires |keys| == |files| > 0 && AllTell(earlier, before, lcov, rows, keys[..|files| - 1], files[..|files| - 1])
    requires var n := |files| - 1; var f := files[n]; var last := ReportOf(f, Lookup(lcov, rows, keys[n], f.path));
             && Tells(last, lcov, rows, keys[n], f)
             && places == (if f.scoped && f.added != [] then before + [n] else before)
             && reports == (if f.scoped && f.added != [] then earlier + [last] else earlier)
    ensures AllTell(reports, places, lcov, rows, keys, files)
  {
    hide Tells, ReportOf, Lookup;
  }

  /** The first 200 of the signals so far, followed by more, are the first 200 of all. */
  lemma {:induction false} SignalsNext(lcov: bool, rows: seq<Block>, keys: seq<Option<string>>, files: seq<Changed>, before: Result)
    requires |keys| == |files| > 0
    requires var n := |files| - 1; var f := files[n]; var all := AllSignals(lcov, rows, keys[..n], files[..n]);
             && before.signals == all[..if |all| <= 200 then |all| else 200]
             && Unrun(f, Lookup(lcov, rows, keys[n], f.path)) == MissedLines(lcov, rows, keys[n], f.path, f.added)
    ensures var n := |files| - 1; var all := AllSignals(lcov, rows, keys, files);
            Next(before, files[n], Lookup(lcov, rows, keys[n], files[n].path)).signals == all[..if |all| <= 200 then |all| else 200]
  {
    hide Ranges, Folded, ReportOf, Unrun, Lookup, MissedLines;
    var n := |files| - 1;
    var f := files[n];
    var all := AllSignals(lcov, rows, keys[..n], files[..n]);
    var more := Signals(f.path, Folded(Ranges(MissedLines(lcov, rows, keys[n], f.path, f.added))));
    FirstOfMore(all, more, before.signals);
  }

  lemma FirstOfMore(all: seq<Signal>, more: seq<Signal>, first: seq<Signal>)
    requires first == all[..if |all| <= 200 then |all| else 200]
    ensures (first + more)[..if |first + more| <= 200 then |first + more| else 200] == (all + more)[..if |all + more| <= 200 then |all + more| else 200]
  {}
}
