/** The budget of a run. */
module Plan {
  import opened Json
  import opened Text
  import opened Records
  import opened Ordering

  datatype Language = Go | Script | Python

  datatype Target = Target(dir: string, path: string, line: nat, name: string, symbol: string, language: Language,
                           exported: bool, priority: nat)

  datatype Limits = Limits(functions: nat, packages: nat, inputs: nat)

  datatype Reason = BudgetPackages | BudgetFunctions
  datatype Skip = Skip(target: Target, reason: Reason)

  /** What rendering needs of a directory besides its targets. */
  datatype Carried = GoPackage(name: string, idents: set<string>) | ScriptModule(about: string) | PythonModule(path: string)

  /** What selection knows of the directories: package names, identifiers on both revisions, script modules. */
  datatype Sources = Sources(names: string -> string, candidate: string -> set<string>, base: string -> set<string>,
                             modules: string -> Option<string>)
  {
    /** Whether a script module can be planned at all; selection only lets such modules through. */
    predicate Plannable(dir: string) {
      modules(dir).Some?
    }

    /** Go identifiers of either revision, so that no harness identifier is one of them. */
    function Carries(dir: string, language: Language): Carried
      requires language.Script? ==> Plannable(dir)
    {
      match language
      case Go => GoPackage(names(dir), candidate(dir) + base(dir))
      case Script => ScriptModule(modules(dir).value)
      case Python => PythonModule(dir)
    }
  }

  datatype Package = Package(dir: string, targets: seq<Target>, inputs: seq<nat>, carried: Carried)
  datatype Plan = Plan(packages: seq<Package>, skipped: seq<Skip>)

  // ----- the order of selection -----

  predicate Precedes(a: Target, b: Target) {
    if a.priority != b.priority then a.priority > b.priority
    else if a.exported != b.exported then a.exported
    else if a.path != b.path then Before(a.path, b.path)
    else if a.line != b.line then a.line < b.line
    else Before(a.name, b.name)
  }

  lemma BeforeNot(a: string, b: string, c: string)
    requires !Before(b, a) && !Before(c, b)
    ensures !Before(c, a) && (a == c ==> a == b)
  {
    BeforeIsTotal(a, b);
    BeforeIsTotal(b, c);
    BeforeIsTotal(a, c);
    if a != b && b != c {
      BeforeIsTransitive(a, b, c);
    }
  }

  lemma PrecedesNot(a: Target, b: Target, c: Target)
    requires !Precedes(b, a) && !Precedes(c, b)
    ensures !Precedes(c, a)
  {
    hide Before;
    BeforeIsTotal(a.path, b.path);
    BeforeIsTotal(b.path, c.path);
    if a.priority == b.priority == c.priority && a.exported == b.exported == c.exported {
      BeforeNot(a.path, b.path, c.path);
      if a.path == b.path == c.path && a.line == b.line == c.line {
        BeforeNot(a.name, b.name, c.name);
      }
    }
  }

  lemma PrecedesOneWay(a: Target, b: Target)
    requires Precedes(a, b)
    ensures !Precedes(b, a)
  {
    hide Before;
    BeforeIsTotal(a.path, b.path);
    BeforeIsTotal(a.name, b.name);
  }

  lemma PrecedesSorts()
    ensures Weak(Precedes)
  {
    hide Precedes;
    forall a, b | Precedes(a, b)
      ensures !Precedes(b, a)
    {
      PrecedesOneWay(a, b);
    }
    forall a, b, c | !Precedes(b, a) && !Precedes(c, b)
      ensures !Precedes(c, a)
    {
      PrecedesNot(a, b, c);
    }
  }

  /** By priority, exported first, then by place; targets that agree in all of these keep their order. */
  method SortTargets(ts: seq<Target>) returns (s: seq<Target>)
    ensures multiset(s) == multiset(ts) && Sorted(s, Precedes) && Stable(s, ts, Precedes)
  {
    hide Weak, Sorted, Stable;
    PrecedesSorts();
    s := StableSort(ts, Precedes);
  }

  // ----- the greedy choice -----

  /** The directories, in the order of their first target. */
  function Dirs(ts: seq<Target>): seq<string> {
    if ts == [] then []
    else
      var before := Dirs(ts[..|ts| - 1]);
      if ts[|ts| - 1].dir in before then before else before + [ts[|ts| - 1].dir]
  }

  function Chosen(ts: seq<Target>, l: Limits): seq<string> {
    var dirs := Dirs(ts);
    if |dirs| <= l.packages then dirs else dirs[..l.packages]
  }

  /** The targets taken: the first of the chosen directories, up to the limit. */
  function Taken(ts: seq<Target>, chosen: seq<string>, l: Limits): (r: seq<Target>)
    ensures |r| <= l.functions && |r| <= |ts|
  {
    if ts == [] then []
    else
      var before := Taken(ts[..|ts| - 1], chosen, l);
      if ts[|ts| - 1].dir in chosen && |before| < l.functions then before + [ts[|ts| - 1]] else before
  }

  function Skips(ts: seq<Target>, chosen: seq<string>, l: Limits): seq<Skip> {
    if ts == [] then []
    else
      var before, last := Skips(ts[..|ts| - 1], chosen, l), ts[|ts| - 1];
      if last.dir !in chosen then before + [Skip(last, BudgetPackages)]
      else if |Taken(ts[..|ts| - 1], chosen, l)| >= l.functions then before + [Skip(last, BudgetFunctions)]
      else before
  }

  function Skipped(skips: seq<Skip>): seq<Target> {
    seq(|skips|, i requires 0 <= i < |skips| => skips[i].target)
  }

  function OfDir(ts: seq<Target>, dir: string): (r: seq<Target>)
    ensures |r| <= |ts| && forall t :: t in r ==> t.dir == dir
  {
    if ts == [] then []
    else OfDir(ts[..|ts| - 1], dir) + if ts[|ts| - 1].dir == dir then [ts[|ts| - 1]] else []
  }

  function Share(targets: nat): nat
    requires targets > 0
  {
    if MAX_PACKAGE_INPUTS / targets > 1 then MAX_PACKAGE_INPUTS / targets else 1
  }

  function AtMost(a: nat, b: nat): nat {
    if a < b then a else b
  }

  /** The package of a directory: its targets, with what their corpora yield within the share. */
  function PackageOf(dir: string, ts: seq<Target>, l: Limits, corpus: (Target, nat) -> nat, sources: Sources): Package
    requires ts != [] && !Dropped(ts, dir, sources)
  {
    Package(dir, ts, seq<nat>(|ts|, i requires 0 <= i < |ts| => corpus(ts[i], AtMost(l.inputs, Share(|ts|)))),
            sources.Carries(dir, ts[0].language))
  }

  predicate Dropped(ts: seq<Target>, dir: string, sources: Sources)
    requires ts != []
  {
    ts[0].language.Script? && !sources.Plannable(dir)
  }

  function Packages(dirs: seq<string>, taken: seq<Target>, l: Limits, corpus: (Target, nat) -> nat, sources: Sources): (r: seq<Package>)
    ensures |r| <= |dirs|
  {
    if dirs == [] then []
    else
      var before, dir := Packages(dirs[..|dirs| - 1], taken, l, corpus, sources), dirs[|dirs| - 1];
      var ts := OfDir(taken, dir);
      if ts == [] || Dropped(ts, dir, sources) then before else before + [PackageOf(dir, ts, l, corpus, sources)]
  }

  function Planned(sorted: seq<Target>, l: Limits, corpus: (Target, nat) -> nat, sources: Sources): Plan {
    var chosen := Chosen(sorted, l);
    Plan(Packages(Dirs(sorted), Taken(sorted, chosen, l), l, corpus, sources), Skips(sorted, chosen, l))
  }

  function TargetsOf(ps: seq<Package>): seq<Target> {
    if ps == [] then [] else TargetsOf(ps[..|ps| - 1]) + ps[|ps| - 1].targets
  }

  // ----- conservation -----

  lemma {:induction false} TakenOrSkipped(ts: seq<Target>, chosen: seq<string>, l: Limits)
    ensures multiset(ts) == multiset(Taken(ts, chosen, l)) + multiset(Skipped(Skips(ts, chosen, l)))
    ensures forall t :: t in Taken(ts, chosen, l) ==> t.dir in chosen
  {
    if ts != [] {
      var front, last := ts[..|ts| - 1], ts[|ts| - 1];
      TakenOrSkipped(front, chosen, l);
      assert ts == front + [last];
      var skips := Skips(front, chosen, l);
      assert Skipped(skips + [Skip(last, BudgetPackages)]) == Skipped(skips) + [last];
      assert Skipped(skips + [Skip(last, BudgetFunctions)]) == Skipped(skips) + [last];
    }
  }

  predicate Unique(dirs: seq<string>) {
    forall i, j :: 0 <= i < j < |dirs| ==> dirs[i] != dirs[j]
  }

  lemma {:induction false} DirsExact(ts: seq<Target>)
    ensures Unique(Dirs(ts)) && forall t :: t in ts ==> t.dir in Dirs(ts)
  {
    if ts != [] {
      DirsExact(ts[..|ts| - 1]);
      assert ts == ts[..|ts| - 1] + [ts[|ts| - 1]];
    }
  }

  /** The targets whose directories are listed. */
  function Within(ts: seq<Target>, dirs: seq<string>): seq<Target> {
    if ts == [] then []
    else Within(ts[..|ts| - 1], dirs) + if ts[|ts| - 1].dir in dirs then [ts[|ts| - 1]] else []
  }

  lemma {:induction false} WithinNext(ts: seq<Target>, dirs: seq<string>, dir: string)
    requires dir !in dirs
    ensures multiset(Within(ts, dirs + [dir])) == multiset(Within(ts, dirs)) + multiset(OfDir(ts, dir))
  {
    if ts != [] {
      WithinNext(ts[..|ts| - 1], dirs, dir);
      assert ts[|ts| - 1].dir in dirs + [dir] <==> ts[|ts| - 1].dir in dirs || ts[|ts| - 1].dir == dir;
    }
  }

  lemma {:induction false} WithinAll(ts: seq<Target>, dirs: seq<string>)
    requires forall t :: t in ts ==> t.dir in dirs
    ensures Within(ts, dirs) == ts
  {
    if ts != [] {
      assert ts == ts[..|ts| - 1] + [ts[|ts| - 1]];
      WithinAll(ts[..|ts| - 1], dirs);
    }
  }

  lemma {:induction false} WithinNone(ts: seq<Target>)
    ensures Within(ts, []) == []
  {
    if ts != [] {
      WithinNone(ts[..|ts| - 1]);
    }
  }

  /** The targets of the packages that are dropped, in the order of their directories. */
  function Refused(dirs: seq<string>, taken: seq<Target>, sources: Sources): seq<Target> {
    if dirs == [] then []
    else
      var before, dir := Refused(dirs[..|dirs| - 1], taken, sources), dirs[|dirs| - 1];
      if IsRefused(dir, taken, sources) then before + OfDir(taken, dir) else before
  }

  lemma PackagesNext(front: seq<string>, dir: string, taken: seq<Target>, l: Limits, corpus: (Target, nat) -> nat, sources: Sources)
    ensures multiset(TargetsOf(Packages(front + [dir], taken, l, corpus, sources))) + multiset(Refused(front + [dir], taken, sources)) ==
            multiset(TargetsOf(Packages(front, taken, l, corpus, sources))) + multiset(Refused(front, taken, sources)) + multiset(OfDir(taken, dir))
  {
    hide TargetsOf, OfDir;
    assert (front + [dir])[..|front|] == front;
    var ts := OfDir(taken, dir);
    if ts != [] && !Dropped(ts, dir, sources) {
      TargetsNext(Packages(front, taken, l, corpus, sources), PackageOf(dir, ts, l, corpus, sources));
    }
  }

  lemma {:induction false} PackagesHold(dirs: seq<string>, taken: seq<Target>, l: Limits, corpus: (Target, nat) -> nat, sources: Sources)
    requires Unique(dirs)
    ensures multiset(TargetsOf(Packages(dirs, taken, l, corpus, sources))) + multiset(Refused(dirs, taken, sources)) == multiset(Within(taken, dirs))
  {
    hide TargetsOf, Packages, Refused, Within;
    if dirs == [] {
      NothingHeld(taken, l, corpus, sources);
    } else {
      var front, dir := dirs[..|dirs| - 1], dirs[|dirs| - 1];
      assert dirs == front + [dir];
      PackagesHold(front, taken, l, corpus, sources);
      PackagesNext(front, dir, taken, l, corpus, sources);
      WithinNext(taken, front, dir);
    }
  }

  lemma NothingHeld(taken: seq<Target>, l: Limits, corpus: (Target, nat) -> nat, sources: Sources)
    ensures TargetsOf(Packages([], taken, l, corpus, sources)) == [] && Refused([], taken, sources) == [] && Within(taken, []) == []
  {
    WithinNone(taken);
  }

  /** The targets of directory `dir` are dropped. */
  predicate IsRefused(dir: string, taken: seq<Target>, sources: Sources) {
    var ts := OfDir(taken, dir);
    ts != [] && Dropped(ts, dir, sources)
  }

  lemma {:induction false} RefusedExact(dirs: seq<string>, taken: seq<Target>, sources: Sources)
    ensures Refused(dirs, taken, sources) == [] <==> forall dir :: dir in dirs ==> !IsRefused(dir, taken, sources)
  {
    hide OfDir, Dropped;
    if dirs != [] {
      var front, dir := dirs[..|dirs| - 1], dirs[|dirs| - 1];
      RefusedExact(front, taken, sources);
      assert dirs == front + [dir] && dir in dirs;
      assert forall d :: d in dirs <==> d in front || d == dir;
    }
  }

  lemma RefusedIsScript(dir: string, taken: seq<Target>, sources: Sources)
    ensures IsRefused(dir, taken, sources) ==> exists t :: t in taken && t.dir == dir && t.language.Script? && !sources.Plannable(t.dir)
  {
    if IsRefused(dir, taken, sources) {
      OfDirIn(taken, dir);
      assert OfDir(taken, dir)[0] in OfDir(taken, dir);
    }
  }

  lemma {:induction false} OfDirIn(ts: seq<Target>, dir: string)
    ensures forall t :: t in OfDir(ts, dir) <==> t in ts && t.dir == dir
  {
    if ts != [] {
      OfDirIn(ts[..|ts| - 1], dir);
      assert ts == ts[..|ts| - 1] + [ts[|ts| - 1]];
    }
  }

  lemma TargetsNext(ps: seq<Package>, p: Package)
    ensures TargetsOf(ps + [p]) == TargetsOf(ps) + p.targets
  {
    assert (ps + [p])[..|ps|] == ps;
  }

  lemma {:induction false} TakenIn(ts: seq<Target>, chosen: seq<string>, l: Limits)
    ensures forall t :: t in Taken(ts, chosen, l) ==> t in ts
  {
    if ts != [] {
      TakenIn(ts[..|ts| - 1], chosen, l);
      assert ts == ts[..|ts| - 1] + [ts[|ts| - 1]];
    }
  }

  /** All the targets taken of one directory, each with its number of inputs. */
  predicate Whole(p: Package, taken: seq<Target>) {
    p.targets != [] && p.targets == OfDir(taken, p.dir) && |p.inputs| == |p.targets|
  }

  lemma PackageIsWhole(dir: string, taken: seq<Target>, l: Limits, corpus: (Target, nat) -> nat, sources: Sources)
    ensures OfDir(taken, dir) != [] && !Dropped(OfDir(taken, dir), dir, sources) ==> Whole(PackageOf(dir, OfDir(taken, dir), l, corpus, sources), taken)
  {}

  /** The packages planned are among the first directories, each with targets of that directory only. */
  lemma {:induction false} PackagesLimited(dirs: seq<string>, taken: seq<Target>, l: Limits, corpus: (Target, nat) -> nat,
                                           sources: Sources, chosen: seq<string>)
    requires chosen <= dirs && Unique(dirs) && forall t :: t in taken ==> t.dir in chosen
    ensures var ps := Packages(dirs, taken, l, corpus, sources);
            && |ps| <= |chosen|
            && (forall p :: p in ps ==> Whole(p, taken))
    decreases |dirs|
  {
    if dirs != [] {
      var front, dir := dirs[..|dirs| - 1], dirs[|dirs| - 1];
      OfDirIn(taken, dir);
      if |chosen| == |dirs| {
        assert chosen == dirs;
        PackagesFew(front, taken, l, corpus, sources);
      } else {
        PackagesLimited(front, taken, l, corpus, sources, chosen);
        assert dir !in chosen;
        if OfDir(taken, dir) != [] {
          assert OfDir(taken, dir)[0] in OfDir(taken, dir);
        }
      }
    }
  }

  lemma {:induction false} PackagesFew(dirs: seq<string>, taken: seq<Target>, l: Limits, corpus: (Target, nat) -> nat, sources: Sources)
    ensures var ps := Packages(dirs, taken, l, corpus, sources);
            forall p :: p in ps ==> Whole(p, taken)
  {
    hide Whole, PackageOf;
    if dirs != [] {
      var front, dir := dirs[..|dirs| - 1], dirs[|dirs| - 1];
      PackagesFew(front, taken, l, corpus, sources);
      PackageIsWhole(dir, taken, l, corpus, sources);
    }
  }

  /**
   Conservation: every eligible target ends in exactly one planned package, one budget skip or one
   dropped package, within both limits, and every package holds all the targets taken of its
   directory. None is dropped exactly when no directory taken begins with a target of a script
   module that cannot be planned; so none when selection let only modules through that can be.
   */
  lemma PlannedConserves(sorted: seq<Target>, l: Limits, corpus: (Target, nat) -> nat, sources: Sources)
    ensures var p, taken := Planned(sorted, l, corpus, sources), Taken(sorted, Chosen(sorted, l), l);
            var refused := Refused(Dirs(sorted), taken, sources);
            && multiset(sorted) == multiset(TargetsOf(p.packages)) + multiset(Skipped(p.skipped)) + multiset(refused)
            && |TargetsOf(p.packages)| + |refused| <= l.functions && |p.packages| <= l.packages
            && (forall q :: q in p.packages ==> Whole(q, taken))
            && (refused == [] <==> forall dir :: dir in Dirs(sorted) ==> !IsRefused(dir, taken, sources))
            && ((forall t :: t in sorted && t.language.Script? ==> sources.Plannable(t.dir)) ==> refused == [])
  {
    hide Whole, Chosen, Taken, Dirs, Packages, Refused, TargetsOf, Within, IsRefused, Skips, Skipped;
    var chosen := Chosen(sorted, l);
    var taken, dirs := Taken(sorted, chosen, l), Dirs(sorted);
    TakenOrSkipped(sorted, chosen, l);
    DirsExact(sorted);
    TakenIn(sorted, chosen, l);
    PackagesHold(dirs, taken, l, corpus, sources);
    WithinAll(taken, dirs);
    RefusedExact(dirs, taken, sources);
    SameSize(TargetsOf(Packages(dirs, taken, l, corpus, sources)), Refused(dirs, taken, sources), taken);
    ChosenFirst(sorted, l);
    PackagesLimited(dirs, taken, l, corpus, sources, chosen);
    if forall t :: t in sorted && t.language.Script? ==> sources.Plannable(t.dir) {
      forall dir | dir in dirs
        ensures !IsRefused(dir, taken, sources)
      {
        RefusedIsScript(dir, taken, sources);
      }
    }
  }

  lemma SameSize(a: seq<Target>, b: seq<Target>, c: seq<Target>)
    requires multiset(a) + multiset(b) == multiset(c)
    ensures |a| + |b| == |c|
  {
    assert |a| == |multiset(a)| && |b| == |multiset(b)| && |c| == |multiset(c)|;
  }

  lemma ChosenFirst(sorted: seq<Target>, l: Limits)
    ensures Chosen(sorted, l) <= Dirs(sorted) && |Chosen(sorted, l)| <= l.packages
  {}

  function Sum(s: seq<nat>): nat {
    if s == [] then 0 else Sum(s[..|s| - 1]) + s[|s| - 1]
  }

  lemma {:induction false} SumBounded(s: seq<nat>, each: nat)
    requires forall k :: 0 <= k < |s| ==> s[k] <= each
    ensures Sum(s) <= |s| * each
  {
    if s != [] {
      SumBounded(s[..|s| - 1], each);
      Distributes(|s| - 1, each);
    }
  }

  lemma Distributes(n: nat, each: nat)
    ensures (n + 1) * each == n * each + each
  {}

  lemma ShareFits(n: nat)
    requires 1 <= n <= MAX_PACKAGE_INPUTS
    ensures n * Share(n) <= MAX_PACKAGE_INPUTS
  {
    Quotient(MAX_PACKAGE_INPUTS, n);
  }

  lemma Quotient(a: nat, n: nat)
    requires n > 0
    ensures n * (a / n) <= a
  {}

  lemma PackageInputsFit(dir: string, ts: seq<Target>, l: Limits, corpus: (Target, nat) -> nat, sources: Sources)
    requires ts != [] && !Dropped(ts, dir, sources) && forall t, n: nat :: corpus(t, n) <= n
    ensures var p := PackageOf(dir, ts, l, corpus, sources); InputsFit(p, l)
  {
    hide Share, Sum;
    var p := PackageOf(dir, ts, l, corpus, sources);
    forall k | 0 <= k < |ts|
      ensures p.inputs[k] <= l.inputs && p.inputs[k] <= Share(|ts|)
    {
      assert p.inputs[k] == corpus(ts[k], AtMost(l.inputs, Share(|ts|)));
    }
    SumBounded(p.inputs, Share(|ts|));
    if |ts| <= MAX_PACKAGE_INPUTS {
      ShareFits(|ts|);
    } else {
      ShareOne(|ts|);
    }
  }

  lemma ShareOne(n: nat)
    requires n > MAX_PACKAGE_INPUTS
    ensures Share(n) == 1
  {}

  /** At most 1024 inputs in all, or one a target when there are more targets than that; each within its own limit. */
  predicate InputsFit(p: Package, l: Limits) {
    && Sum(p.inputs) <= (if |p.targets| <= MAX_PACKAGE_INPUTS then MAX_PACKAGE_INPUTS else |p.targets|)
    && forall k :: 0 <= k < |p.inputs| ==> p.inputs[k] <= l.inputs
  }

  /** Every package of a plan keeps within its inputs, whatever the corpora yield within their shares. */
  lemma PlannedInputsFit(sorted: seq<Target>, l: Limits, corpus: (Target, nat) -> nat, sources: Sources)
    requires forall t, n: nat :: corpus(t, n) <= n
    ensures forall p :: p in Planned(sorted, l, corpus, sources).packages ==> InputsFit(p, l)
  {
    PackagesFit(Dirs(sorted), Taken(sorted, Chosen(sorted, l), l), l, corpus, sources);
  }

  lemma {:induction false} PackagesFit(dirs: seq<string>, taken: seq<Target>, l: Limits, corpus: (Target, nat) -> nat, sources: Sources)
    requires forall t, n: nat :: corpus(t, n) <= n
    ensures forall p :: p in Packages(dirs, taken, l, corpus, sources) ==> InputsFit(p, l)
  {
    hide InputsFit, PackageOf;
    if dirs != [] {
      var front, dir := dirs[..|dirs| - 1], dirs[|dirs| - 1];
      PackagesFit(front, taken, l, corpus, sources);
      if OfDir(taken, dir) != [] && !Dropped(OfDir(taken, dir), dir, sources) {
        PackageInputsFit(dir, OfDir(taken, dir), l, corpus, sources);
      }
    }
  }

  // ----- the share, and why a target is skipped -----

  /** As many inputs as fit 1024 times over, or one when there are more targets than that. */
  predicate IsShare(targets: nat, s: nat) {
    if 1 <= targets <= MAX_PACKAGE_INPUTS then targets * s <= MAX_PACKAGE_INPUTS < targets * (s + 1) else s == 1
  }

  lemma ShareIs(n: nat)
    requires n > 0
    ensures IsShare(n, Share(n))
  {
    if n <= MAX_PACKAGE_INPUTS {
      ShareFits(n);
      QuotientNext(MAX_PACKAGE_INPUTS, n);
      ShareAtLeast(n);
    } else {
      ShareOne(n);
    }
  }

  lemma QuotientNext(a: nat, n: nat)
    requires n > 0
    ensures a < n * (a / n + 1)
  {}

  lemma ShareAtLeast(n: nat)
    requires 1 <= n <= MAX_PACKAGE_INPUTS
    ensures Share(n) == MAX_PACKAGE_INPUTS / n
  {
    QuotientNext(MAX_PACKAGE_INPUTS, n);
    NotZero(MAX_PACKAGE_INPUTS / n, n, MAX_PACKAGE_INPUTS);
  }

  lemma NotZero(q: nat, n: nat, a: nat)
    requires n <= a < n * (q + 1)
    ensures q >= 1
  {}

  /** Every target of the package is given what its corpus yields within the limit and the share. */
  ghost predicate Shared(p: Package, l: Limits, corpus: (Target, nat) -> nat) {
    && |p.inputs| == |p.targets|
    && exists s: nat :: IsShare(|p.targets|, s)
                        && forall k :: 0 <= k < |p.inputs| ==> p.inputs[k] == corpus(p.targets[k], if l.inputs < s then l.inputs else s)
  }

  lemma PackageShared(dir: string, ts: seq<Target>, l: Limits, corpus: (Target, nat) -> nat, sources: Sources)
    requires ts != [] && !Dropped(ts, dir, sources)
    ensures Shared(PackageOf(dir, ts, l, corpus, sources), l, corpus)
  {
    hide Share, IsShare;
    ShareIs(|ts|);
    var p, s := PackageOf(dir, ts, l, corpus, sources), Share(|ts|);
    forall k | 0 <= k < |p.inputs|
      ensures p.inputs[k] == corpus(p.targets[k], if l.inputs < s then l.inputs else s)
    {
      assert p.inputs[k] == corpus(ts[k], AtMost(l.inputs, s));
    }
  }

  /** The inputs of every package of a plan, from both sides. */
  lemma PlannedShares(sorted: seq<Target>, l: Limits, corpus: (Target, nat) -> nat, sources: Sources)
    ensures forall p :: p in Planned(sorted, l, corpus, sources).packages ==> Shared(p, l, corpus)
  {
    PackagesShared(Dirs(sorted), Taken(sorted, Chosen(sorted, l), l), l, corpus, sources);
  }

  lemma {:induction false} PackagesShared(dirs: seq<string>, taken: seq<Target>, l: Limits, corpus: (Target, nat) -> nat, sources: Sources)
    ensures forall p :: p in Packages(dirs, taken, l, corpus, sources) ==> Shared(p, l, corpus)
  {
    hide Shared, PackageOf, Dropped;
    if dirs != [] {
      var front, dir := dirs[..|dirs| - 1], dirs[|dirs| - 1];
      PackagesShared(front, taken, l, corpus, sources);
      var ts := OfDir(taken, dir);
      if ts != [] && !Dropped(ts, dir, sources) {
        PackageShared(dir, ts, l, corpus, sources);
      }
    }
  }

  /** What a package carries is that of its language, and a Go package the identifiers of both revisions. */
  ghost predicate CarriesAll(p: Package, sources: Sources) {
    && p.targets != []
    && match p.targets[0].language
       case Go => p.carried.GoPackage? && p.carried.name == sources.names(p.dir)
                  && forall x :: x in p.carried.idents <==> x in sources.candidate(p.dir) || x in sources.base(p.dir)
       case Script => p.carried.ScriptModule? && sources.modules(p.dir) == Some(p.carried.about)
       case Python => p.carried == PythonModule(p.dir)
  }

  lemma PlannedCarries(sorted: seq<Target>, l: Limits, corpus: (Target, nat) -> nat, sources: Sources)
    ensures forall p :: p in Planned(sorted, l, corpus, sources).packages ==> CarriesAll(p, sources)
  {
    PackagesCarry(Dirs(sorted), Taken(sorted, Chosen(sorted, l), l), l, corpus, sources);
  }

  lemma {:induction false} PackagesCarry(dirs: seq<string>, taken: seq<Target>, l: Limits, corpus: (Target, nat) -> nat, sources: Sources)
    ensures forall p :: p in Packages(dirs, taken, l, corpus, sources) ==> CarriesAll(p, sources)
  {
    if dirs != [] {
      PackagesCarry(dirs[..|dirs| - 1], taken, l, corpus, sources);
    }
  }

  function DirSet(ts: seq<Target>): set<string> {
    set t | t in ts :: t.dir
  }

  lemma DirSetNext(ts: seq<Target>, t: Target)
    ensures DirSet(ts + [t]) == DirSet(ts) + {t.dir}
  {
    var all := ts + [t];
    assert all[|ts|] == t && forall x :: x in ts ==> x in all;
  }

  lemma {:induction false} DirsCount(ts: seq<Target>)
    ensures |Dirs(ts)| == |DirSet(ts)| && forall d :: d in Dirs(ts) <==> d in DirSet(ts)
  {
    if ts == [] {
      assert DirSet(ts) == {};
    } else {
      var front, last := ts[..|ts| - 1], ts[|ts| - 1];
      DirsCount(front);
      assert ts == front + [last];
      DirSetNext(front, last);
      assert Dirs(ts) == if last.dir in Dirs(front) then Dirs(front) else Dirs(front) + [last.dir];
      assert last.dir in DirSet(front) ==> DirSet(front) + {last.dir} == DirSet(front);
    }
  }

  lemma {:induction false} DirsGrow(ts: seq<Target>, j: nat)
    requires j <= |ts|
    ensures Dirs(ts[..j]) <= Dirs(ts)
    decreases |ts| - j
  {
    if j == |ts| {
      assert ts[..j] == ts;
    } else {
      DirsGrow(ts, j + 1);
      assert ts[..j + 1][..j] == ts[..j];
    }
  }

  /** Target j is the first of its directory. */
  predicate FirstOfDir(ts: seq<Target>, j: nat)
    requires j < |ts|
  {
    forall i :: 0 <= i < j ==> ts[i].dir != ts[j].dir
  }

  /** Fewer directories than the limit were met before the directory of target i. */
  ghost predicate InTime(ts: seq<Target>, i: nat, l: Limits)
    requires i < |ts|
  {
    exists j: nat :: j <= i && ts[j].dir == ts[i].dir && FirstOfDir(ts, j) && |DirSet(ts[..j])| < l.packages
  }

  lemma {:induction false} FirstExists(ts: seq<Target>, i: nat) returns (j: nat)
    requires i < |ts|
    ensures j <= i && ts[j].dir == ts[i].dir && FirstOfDir(ts, j)
    decreases i
  {
    if FirstOfDir(ts, i) {
      j := i;
    } else {
      var k: nat :| k < i && ts[k].dir == ts[i].dir;
      j := FirstExists(ts, k);
    }
  }

  /** The place of a directory is the number of directories met before it. */
  lemma DirPlace(ts: seq<Target>, j: nat)
    requires j < |ts| && FirstOfDir(ts, j)
    ensures |DirSet(ts[..j])| < |Dirs(ts)| && Dirs(ts)[|DirSet(ts[..j])|] == ts[j].dir
  {
    DirsCount(ts[..j]);
    DirsGrow(ts, j + 1);
    assert ts[..j + 1][..j] == ts[..j];
    assert ts[j].dir !in DirSet(ts[..j]);
  }

  lemma ChosenExact(ts: seq<Target>, i: nat, l: Limits)
    requires i < |ts|
    ensures ts[i].dir in Chosen(ts, l) <==> InTime(ts, i, l)
  {
    hide Dirs, DirSet;
    DirsExact(ts);
    var j := FirstExists(ts, i);
    DirPlace(ts, j);
    var n := |DirSet(ts[..j])|;
    ChosenIsFirst(Dirs(ts), l.packages);
    if InTime(ts, i, l) {
      var m: nat :| m <= i && ts[m].dir == ts[i].dir && FirstOfDir(ts, m) && |DirSet(ts[..m])| < l.packages;
      assert m == j;
    }
    assert Dirs(ts)[n] in Dirs(ts);
  }

  function Count(keep: seq<bool>): nat {
    if keep == [] then 0 else Count(keep[..|keep| - 1]) + if keep[|keep| - 1] then 1 else 0
  }

  function Kept(ts: seq<Target>, keep: seq<bool>): seq<Target>
    requires |ts| == |keep|
  {
    if ts == [] then []
    else Kept(ts[..|ts| - 1], keep[..|ts| - 1]) + if keep[|ts| - 1] then [ts[|ts| - 1]] else []
  }

  ghost function Others(ts: seq<Target>, keep: seq<bool>, all: seq<Target>, l: Limits): seq<Skip>
    requires |ts| == |keep| && ts <= all
  {
    if ts == [] then []
    else
      var last := |ts| - 1;
      Others(ts[..last], keep[..last], all, l)
      + if keep[last] then [] else [Skip(ts[last], if InTime(all, last, l) then BudgetFunctions else BudgetPackages)]
  }

  /**
   Why a target is taken or skipped: it is taken exactly when fewer directories than the limit were met
   before its own and fewer targets than the limit were taken before it; a skip names the limit
   that was reached, the packages' first.
   */
  lemma GreedyExact(sorted: seq<Target>, l: Limits) returns (keep: seq<bool>)
    ensures |keep| == |sorted|
    ensures forall i: nat :: i < |keep| ==> (keep[i] <==> InTime(sorted, i, l) && Count(keep[..i]) < l.functions)
    ensures Taken(sorted, Chosen(sorted, l), l) == Kept(sorted, keep)
    ensures Skips(sorted, Chosen(sorted, l), l) == Others(sorted, keep, sorted, l)
  {
    keep := GreedyPrefix(sorted, sorted, l);
  }

  lemma {:induction false} GreedyPrefix(ts: seq<Target>, all: seq<Target>, l: Limits) returns (keep: seq<bool>)
    requires ts <= all
    ensures |keep| == |ts|
    ensures forall i: nat :: i < |keep| ==> (keep[i] <==> InTime(all, i, l) && Count(keep[..i]) < l.functions)
    ensures Taken(ts, Chosen(all, l), l) == Kept(ts, keep) && |Kept(ts, keep)| == Count(keep)
    ensures Skips(ts, Chosen(all, l), l) == Others(ts, keep, all, l)
    decreases |ts|
  {
    hide InTime, Chosen;
    if ts == [] {
      keep := [];
    } else {
      var last := |ts| - 1;
      var before := GreedyPrefix(ts[..last], all, l);
      ChosenExact(all, last, l);
      assert ts[last] == all[last];
      keep := before + [InTime(all, last, l) && Count(before) < l.functions];
      assert keep[..last] == before;
      assert forall i: nat :: i < last ==> keep[..i] == before[..i];
    }
  }

  // ----- budget -----

  method OrderDirs(ts: seq<Target>, l: Limits) returns (order: seq<string>, chosen: map<string, bool>)
    ensures order == Dirs(ts) && chosen.Keys == (set d | d in Dirs(ts))
    ensures forall d :: d in chosen ==> (chosen[d] <==> d in Chosen(ts, l))
  {
    order, chosen := [], map[];
    for i := 0 to |ts|
      invariant order == Dirs(ts[..i]) && chosen.Keys == (set d | d in order)
      invariant forall k :: 0 <= k < |order| ==> chosen[order[k]] == (k < l.packages)
      invariant Unique(order)
    {
      var dir := ts[i].dir;
      assert ts[..i + 1][..i] == ts[..i];
      if dir in chosen {
        continue;
      }
      chosen := chosen[dir := |order| < l.packages];
      order := order + [dir];
    }
    assert ts[..|ts|] == ts;
    ChosenIsFirst(order, l.packages);
    forall d | d in chosen
      ensures chosen[d] <==> d in Chosen(ts, l)
    {
      var k :| 0 <= k < |order| && order[k] == d;
    }
  }

  lemma ChosenIsFirst(order: seq<string>, n: nat)
    requires Unique(order)
    ensures forall k :: 0 <= k < |order| && n <= |order| ==> (order[k] in order[..n] <==> k < n)
  {
    if n <= |order| {
      forall k | 0 <= k < |order|
        ensures order[k] in order[..n] <==> k < n
      {
        if order[k] in order[..n] {
          var j :| 0 <= j < n && order[..n][j] == order[k];
        }
        if k < n {
          assert order[..n][k] == order[k];
        }
      }
    }
  }

  function At(byDir: map<string, seq<Target>>, dir: string): seq<Target> {
    if dir in byDir then byDir[dir] else []
  }

  method Divide(ts: seq<Target>, chosen: map<string, bool>, l: Limits, ghost kept: seq<string>)
    returns (byDir: map<string, seq<Target>>, skipped: seq<Skip>)
    requires forall t :: t in ts ==> t.dir in chosen && (chosen[t.dir] <==> t.dir in kept)
    ensures forall dir :: At(byDir, dir) == OfDir(Taken(ts, kept, l), dir)
    ensures skipped == Skips(ts, kept, l)
  {
    hide OfDir, Taken, Skips;
    DivideNone(ts, kept, l);
    byDir, skipped := map[], [];
    var taken := 0;
    for i := 0 to |ts|
      invariant taken == |Taken(ts[..i], kept, l)| && skipped == Skips(ts[..i], kept, l)
      invariant forall dir :: At(byDir, dir) == OfDir(Taken(ts[..i], kept, l), dir)
    {
      var t := ts[i];
      DivideNext(ts, i, kept, l);
      assert t in ts;
      if !chosen[t.dir] {
        skipped := skipped + [Skip(t, BudgetPackages)];
      } else if taken >= l.functions {
        skipped := skipped + [Skip(t, BudgetFunctions)];
      } else {
        OfDirNext(Taken(ts[..i], kept, l), t);
        byDir := byDir[t.dir := At(byDir, t.dir) + [t]];
        taken := taken + 1;
      }
    }
    assert ts[..|ts|] == ts;
  }

  lemma DivideNone(ts: seq<Target>, kept: seq<string>, l: Limits)
    ensures Taken(ts[..0], kept, l) == [] && Skips(ts[..0], kept, l) == [] && forall dir :: OfDir([], dir) == []
  {}

  lemma DivideNext(ts: seq<Target>, i: nat, kept: seq<string>, l: Limits)
    requires i < |ts|
    ensures var t, taken := ts[i], Taken(ts[..i], kept, l);
            && Taken(ts[..i + 1], kept, l) == (if t.dir in kept && |taken| < l.functions then taken + [t] else taken)
            && Skips(ts[..i + 1], kept, l) == Skips(ts[..i], kept, l) +
               if t.dir !in kept then [Skip(t, BudgetPackages)] else if |taken| >= l.functions then [Skip(t, BudgetFunctions)] else []
  {
    assert ts[..i + 1][..i] == ts[..i];
  }

  lemma OfDirNext(ts: seq<Target>, t: Target)
    ensures forall dir :: OfDir(ts + [t], dir) == if t.dir == dir then OfDir(ts, dir) + [t] else OfDir(ts, dir)
  {
    assert (ts + [t])[..|ts|] == ts;
    forall dir
      ensures OfDir(ts + [t], dir) == if t.dir == dir then OfDir(ts, dir) + [t] else OfDir(ts, dir)
    {
      assert OfDir(ts, dir) + [] == OfDir(ts, dir);
    }
  }

  /** budget: the plan of the eligible targets in the order of selection. */
  method Budget(eligible: seq<Target>, l: Limits, corpus: (Target, nat) -> nat, sources: Sources) returns (p: Plan, sorted: seq<Target>)
    ensures multiset(sorted) == multiset(eligible) && Sorted(sorted, Precedes) && Stable(sorted, eligible, Precedes)
    ensures p == Planned(sorted, l, corpus, sources)
  {
    hide Taken, Skips, OfDir, PackageOf, Sorted, Stable;
    sorted := SortTargets(eligible);
    var order, chosen := OrderDirs(sorted, l);
    DirsExact(sorted);
    ghost var kept := Chosen(sorted, l);
    var byDir, skipped := Divide(sorted, chosen, l, kept);
    var packages: seq<Package> := [];
    for i := 0 to |order|
      invariant packages == Packages(order[..i], Taken(sorted, kept, l), l, corpus, sources)
    {
      var dir := order[i];
      assert order[..i + 1][..i] == order[..i];
      var targets := At(byDir, dir);
      if targets == [] {
        continue;
      }
      if targets[0].language.Script? && !sources.Plannable(dir) {
        continue;
      }
      packages := packages + [PackageOf(dir, targets, l, corpus, sources)];
    }
    assert order[..|order|] == order;
    p := Plan(packages, skipped);
  }
}
