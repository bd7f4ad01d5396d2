/** The material differences between two stored results of one browser family. */
module Diff {
  import opened Lists
  import opened Results
  import opened Sanitize
  import opened Canonical

  /** What one path line of the change log lists. */
  datatype PathChange =
    | RateChanged(metric: nat, was: Option<nat>, wasTotal: nat, now: Option<nat>, nowTotal: nat)
    | SignalChanged
    | MatrixChanged

  /** One line of the change log, before it is put into words. */
  datatype Difference =
    | VersionChanged(oldVersion: Option<string>, newVersion: Option<string>)
    | SecureContextChanged(hadSecure: bool, hasSecure: bool)
    | WebTransportChanged(hadApi: bool, hasApi: bool)
    | PlannedCasesChanged(oldPlanned: nat, newPlanned: nat)
    | MetricChanged(metric: nat, was: Option<nat>, now: Option<nat>)
    | VerdictChanged(oldVerdict: Option<Verdict>, newVerdict: Option<Verdict>)
    | GreaseStagesChanged
    | PathAdded(path: string)
    | PathChanged(path: string, changes: seq<PathChange>)

  const MAX_DIFFERENCES: nat := 64

  function When<T>(condition: bool, entry: T): seq<T> {
    if condition then [entry] else []
  }

  /** `counts[key]`, undefined when the record lacks it. */
  function Nth(counts: seq<nat>, k: nat): Option<nat> {
    if k < |counts| then Some(counts[k]) else None
  }

  function VerdictOf(g: Option<Grease>): Option<Verdict> {
    if g.Some? then Some(g.value.verdict) else None
  }

  function HeadDiff(a: Snapshot, b: Snapshot): seq<Difference> {
    When(a.browser.version != b.browser.version, VersionChanged(a.browser.version, b.browser.version)) +
    When(a.capabilities.secureContext != b.capabilities.secureContext,
         SecureContextChanged(a.capabilities.secureContext, b.capabilities.secureContext)) +
    When(a.capabilities.webTransport != b.capabilities.webTransport,
         WebTransportChanged(a.capabilities.webTransport, b.capabilities.webTransport)) +
    When(a.run.plannedCases != b.run.plannedCases, PlannedCasesChanged(a.run.plannedCases, b.run.plannedCases))
  }

  function MetricsDiff(a: seq<nat>, b: seq<nat>, n: nat): seq<Difference> {
    if n == 0 then []
    else
      var was, now := Nth(a, n - 1), Nth(b, n - 1);
      MetricsDiff(a, b, n - 1) + When(was != now, MetricChanged(n - 1, was, now))
  }

  function GreaseDiff(a: Option<Grease>, b: Option<Grease>): seq<Difference> {
    if VerdictOf(a) != VerdictOf(b) then [VerdictChanged(VerdictOf(a), VerdictOf(b))]
    else When(a.Some? && b.Some? && a != b, GreaseStagesChanged)
  }

  function RateChange(a: PathResult, b: PathResult, k: nat): PathChange {
    RateChanged(k, Nth(a.counts, k), a.total, Nth(b.counts, k), b.total)
  }

  predicate RateDiffers(a: PathResult, b: PathResult, k: nat) {
    Nth(a.counts, k) != Nth(b.counts, k) || a.total != b.total
  }

  function RatesDiff(a: PathResult, b: PathResult, n: nat): seq<PathChange> {
    if n == 0 then [] else RatesDiff(a, b, n - 1) + When(RateDiffers(a, b, n - 1), RateChange(a, b, n - 1))
  }

  function PathChanges(a: PathResult, b: PathResult): seq<PathChange> {
    RatesDiff(a, b, PATH_METRICS) + When(a.signal != b.signal, SignalChanged) +
    When(a.combinations != b.combinations, MatrixChanged)
  }

  /** What `new Map(paths.map((item) => [item.path, item]))` holds for a path: the last such item. */
  function LastWith(ps: seq<PathResult>, path: string): Option<PathResult> {
    if ps == [] then None
    else if ps[|ps| - 1].path == path then Some(ps[|ps| - 1])
    else LastWith(ps[..|ps| - 1], path)
  }

  function PathDiff(olds: seq<PathResult>, p: PathResult): seq<Difference> {
    var known := LastWith(olds, p.path);
    if known.None? then [PathAdded(p.path)]
    else
      var changes := PathChanges(known.value, p);
      When(|changes| > 0, PathChanged(p.path, changes))
  }

  function PathsDiff(olds: seq<PathResult>, ps: seq<PathResult>): seq<Difference> {
    if ps == [] then [] else PathsDiff(olds, ps[..|ps| - 1]) + PathDiff(olds, ps[|ps| - 1])
  }

  function FullDiff(a: Snapshot, b: Snapshot): seq<Difference> {
    HeadDiff(a, b) + MetricsDiff(a.metrics, b.metrics, METRICS) + GreaseDiff(a.grease, b.grease) +
      PathsDiff(a.paths, b.paths)
  }

  function Shortened(s: seq<Difference>): seq<Difference> {
    if |s| <= MAX_DIFFERENCES then s else s[..MAX_DIFFERENCES]
  }

  function DiffOf(previous: Option<Snapshot>, current: Snapshot): seq<Difference> {
    if previous.None? then [] else Shortened(FullDiff(previous.value, current))
  }

  method DiffSnapshots(previous: Option<Snapshot>, current: Snapshot) returns (r: seq<Difference>)
    ensures r == DiffOf(previous, current)
  {
    if previous.None? { return []; }
    var a := previous.value;
    hide HeadDiff, MetricsDiff, PathsDiff;
    var differences := DiffHead(a, current);
    var metrics := DiffMetrics(a.metrics, current.metrics);
    differences := differences + metrics;
    if VerdictOf(a.grease) != VerdictOf(current.grease) {
      differences := differences + [VerdictChanged(VerdictOf(a.grease), VerdictOf(current.grease))];
    } else if a.grease.Some? && current.grease.Some? && a.grease != current.grease {
      differences := differences + [GreaseStagesChanged];
    }
    assert differences == HeadDiff(a, current) + metrics + GreaseDiff(a.grease, current.grease);
    var paths := DiffPaths(a.paths, current.paths);
    differences := differences + paths;
    r := if |differences| <= MAX_DIFFERENCES then differences else differences[..MAX_DIFFERENCES];
  }

  method DiffHead(a: Snapshot, current: Snapshot) returns (differences: seq<Difference>)
    ensures differences == HeadDiff(a, current)
  {
    differences := [];
    if a.browser.version != current.browser.version {
      differences := differences + [VersionChanged(a.browser.version, current.browser.version)];
    }
    if a.capabilities.secureContext != current.capabilities.secureContext {
      differences := differences +
        [SecureContextChanged(a.capabilities.secureContext, current.capabilities.secureContext)];
    }
    if a.capabilities.webTransport != current.capabilities.webTransport {
      differences := differences +
        [WebTransportChanged(a.capabilities.webTransport, current.capabilities.webTransport)];
    }
    if a.run.plannedCases != current.run.plannedCases {
      differences := differences + [PlannedCasesChanged(a.run.plannedCases, current.run.plannedCases)];
    }
  }

  method DiffMetrics(was: seq<nat>, now: seq<nat>) returns (differences: seq<Difference>)
    ensures differences == MetricsDiff(was, now, METRICS)
  {
    differences := [];
    for k := 0 to METRICS
      invariant differences == MetricsDiff(was, now, k)
    {
      if Nth(was, k) != Nth(now, k) {
        differences := differences + [MetricChanged(k, Nth(was, k), Nth(now, k))];
      }
    }
  }

  method DiffPaths(olds: seq<PathResult>, paths: seq<PathResult>) returns (differences: seq<Difference>)
    ensures differences == PathsDiff(olds, paths)
  {
    hide PathChanges, LastWith, PathDiff, PathsDiff;
    var previousPaths := ByName(olds);
    differences := [];
    NoPathsNoLines(olds, paths[..0]);
    for i := 0 to |paths|
      invariant differences == PathsDiff(olds, paths[..i])
    {
      var path := paths[i];
      assert paths[..i + 1] == paths[..i] + [path];
      PathsDiffSnoc(olds, paths[..i], path);
      PathDiffCases(olds, path);
      if path.path !in previousPaths {
        differences := differences + [PathAdded(path.path)];
      } else {
        var pathDifferences := DiffPath(previousPaths[path.path], path);
        if |pathDifferences| > 0 {
          differences := differences + [PathChanged(path.path, pathDifferences)];
        }
      }
    }
    assert paths[..|paths|] == paths;
  }

  lemma NoPathsNoLines(olds: seq<PathResult>, paths: seq<PathResult>)
    requires paths == []
    ensures PathsDiff(olds, paths) == []
  {
  }

  lemma PathDiffCases(olds: seq<PathResult>, p: PathResult)
    ensures LastWith(olds, p.path).None? ==> PathDiff(olds, p) == [PathAdded(p.path)]
    ensures LastWith(olds, p.path).Some? ==>
      PathDiff(olds, p) == var changes := PathChanges(LastWith(olds, p.path).value, p);
                           if |changes| > 0 then [PathChanged(p.path, changes)] else []
  {
  }

  method ByName(ps: seq<PathResult>) returns (m: map<string, PathResult>)
    ensures forall p :: p in m <==> LastWith(ps, p).Some?
    ensures forall p :: p in m ==> LastWith(ps, p) == Some(m[p])
  {
    m := map[];
    for i := 0 to |ps|
      invariant forall p :: p in m <==> LastWith(ps[..i], p).Some?
      invariant forall p :: p in m ==> LastWith(ps[..i], p) == Some(m[p])
    {
      assert ps[..i + 1][..i] == ps[..i];
      m := m[ps[i].path := ps[i]];
    }
    assert ps[..|ps|] == ps;
  }

  method DiffPath(before: PathResult, path: PathResult) returns (changes: seq<PathChange>)
    ensures changes == PathChanges(before, path)
  {
    changes := [];
    for k := 0 to PATH_METRICS
      invariant changes == RatesDiff(before, path, k)
    {
      if Nth(before.counts, k) != Nth(path.counts, k) || before.total != path.total {
        changes := changes + [RateChange(before, path, k)];
      }
    }
    if before.signal != path.signal {
      changes := changes + [SignalChanged];
    }
    if before.combinations != path.combinations {
      changes := changes + [MatrixChanged];
    }
  }

  lemma PathsDiffSnoc(olds: seq<PathResult>, ps: seq<PathResult>, p: PathResult)
    ensures PathsDiff(olds, ps + [p]) == PathsDiff(olds, ps) + PathDiff(olds, p)
  {
    assert (ps + [p])[..|ps|] == ps;
  }

  // ------------------------------------------------------------------ what the lines say

  ghost predicate TrueOfPath(c: PathChange, a: PathResult, b: PathResult) {
    match c
    case RateChanged(k, was, wasTotal, now, nowTotal) =>
      && k < PATH_METRICS && was == Nth(a.counts, k) && wasTotal == a.total && now == Nth(b.counts, k)
      && nowTotal == b.total && (was != now || wasTotal != nowTotal)
    case SignalChanged => a.signal != b.signal
    case MatrixChanged => a.combinations != b.combinations
  }

  /** What each kind of line claims about the two snapshots. */
  ghost predicate True(d: Difference, a: Snapshot, b: Snapshot) {
    match d
    case VersionChanged(was, now) => was == a.browser.version && now == b.browser.version && was != now
    case SecureContextChanged(was, now) => was == a.capabilities.secureContext && now == b.capabilities.secureContext
      && was != now
    case WebTransportChanged(was, now) => was == a.capabilities.webTransport && now == b.capabilities.webTransport
      && was != now
    case PlannedCasesChanged(was, now) => was == a.run.plannedCases && now == b.run.plannedCases && was != now
    case MetricChanged(k, was, now) => k < METRICS && was == Nth(a.metrics, k) && now == Nth(b.metrics, k) && was != now
    case VerdictChanged(was, now) => was == VerdictOf(a.grease) && now == VerdictOf(b.grease) && was != now
    case GreaseStagesChanged => a.grease.Some? && b.grease.Some? && VerdictOf(a.grease) == VerdictOf(b.grease)
      && a.grease != b.grease
    case PathAdded(path) => exists p :: p in b.paths && Added(p, path, a.paths)
    case PathChanged(path, changes) => exists p :: p in b.paths && Changed(p, path, changes, a.paths)
  }

  ghost predicate Added(p: PathResult, path: string, olds: seq<PathResult>) {
    p.path == path && LastWith(olds, path).None?
  }

  ghost predicate Changed(p: PathResult, path: string, changes: seq<PathChange>, olds: seq<PathResult>) {
    && p.path == path && LastWith(olds, path).Some?
    && changes != [] && changes == PathChanges(LastWith(olds, path).value, p)
  }

  lemma HeadLines(a: Snapshot, b: Snapshot, d: Difference)
    ensures d in HeadDiff(a, b) <==>
            && True(d, a, b)
            && (d.VersionChanged? || d.SecureContextChanged? || d.WebTransportChanged? || d.PlannedCasesChanged?)
  {
    hide PathChanges, LastWith, MetricsDiff, PathsDiff;
  }

  lemma {:induction false} MetricLines(a: seq<nat>, b: seq<nat>, n: nat, d: Difference)
    ensures d in MetricsDiff(a, b, n) <==>
            d.MetricChanged? && d.metric < n && d.was == Nth(a, d.metric) && d.now == Nth(b, d.metric) && d.was != d.now
  {
    if n > 0 { MetricLines(a, b, n - 1, d); }
  }

  lemma {:induction false} RateLines(a: PathResult, b: PathResult, n: nat, c: PathChange)
    ensures c in RatesDiff(a, b, n) <==>
      c.RateChanged? && c.metric < n && RateDiffers(a, b, c.metric) && c == RateChange(a, b, c.metric)
  {
    if n > 0 { RateLines(a, b, n - 1, c); }
  }

  /** A path line lists exactly the rates, the signal and the matrix that changed. */
  lemma PathLineIsExact(a: PathResult, b: PathResult, c: PathChange)
    ensures c in PathChanges(a, b) <==> TrueOfPath(c, a, b)
  {
    RateLines(a, b, PATH_METRICS, c);
  }

  lemma {:induction false} PathLines(olds: seq<PathResult>, ps: seq<PathResult>, d: Difference)
    ensures d in PathsDiff(olds, ps) <==> exists p :: p in ps && d in PathDiff(olds, p)
  {
    if ps != [] {
      var n := |ps| - 1;
      PathLines(olds, ps[..n], d);
      assert ps == ps[..n] + [ps[n]];
    }
  }

  /** Soundness and completeness line by line: the differences, before the cut at 64, are exactly the
      true lines. */
  lemma LinesAreExact(a: Snapshot, b: Snapshot, d: Difference)
    ensures d in FullDiff(a, b) <==> True(d, a, b)
  {
    hide HeadDiff, GreaseDiff, MetricsDiff, PathsDiff, PathChanges, LastWith, Added, Changed, Nth;
    HeadLines(a, b, d);
    MetricLines(a.metrics, b.metrics, METRICS, d);
    GreaseLines(a, b, d);
    AllPathLines(a, b, d);
  }

  lemma GreaseLines(a: Snapshot, b: Snapshot, d: Difference)
    ensures d in GreaseDiff(a.grease, b.grease) <==> True(d, a, b) && (d.VerdictChanged? || d.GreaseStagesChanged?)
  {
    hide PathChanges, LastWith, MetricsDiff, PathsDiff, HeadDiff, Added, Changed;
  }

  lemma AllPathLines(a: Snapshot, b: Snapshot, d: Difference)
    ensures d in PathsDiff(a.paths, b.paths) <==> True(d, a, b) && (d.PathAdded? || d.PathChanged?)
  {
    hide PathChanges, LastWith, MetricsDiff, PathsDiff, HeadDiff, GreaseDiff;
    PathLines(a.paths, b.paths, d);
    if p :| p in b.paths && d in PathDiff(a.paths, p) {
      assert d.PathAdded? || d.PathChanged?;
      assert if d.PathAdded? then Added(p, p.path, a.paths) else Changed(p, p.path, d.changes, a.paths);
    }
    if d.PathAdded? && True(d, a, b) {
      var p :| p in b.paths && Added(p, d.path, a.paths);
      assert d in PathDiff(a.paths, p);
    }
    if d.PathChanged? && True(d, a, b) {
      var p :| p in b.paths && Changed(p, d.path, d.changes, a.paths);
      assert d in PathDiff(a.paths, p);
    }
  }

  // ------------------------------------------------------------------ in which order

  predicate InOrder<T>(s: seq<T>, rank: T -> nat) {
    forall i, j :: 0 <= i < j < |s| ==> rank(s[i]) < rank(s[j])
  }

  lemma InOrderAppend<T>(s: seq<T>, t: seq<T>, rank: T -> nat, bound: nat)
    requires InOrder(s, rank) && InOrder(t, rank)
    requires (forall x :: x in s ==> rank(x) < bound) && forall x :: x in t ==> bound <= rank(x)
    ensures InOrder(s + t, rank)
  {
  }

  lemma FewInOrder<T>(s: seq<T>, rank: T -> nat)
    requires |s| <= 1
    ensures InOrder(s, rank)
  {
  }

  /** Inside a path line: the rates by metric, then the signal, then the matrix. */
  function ChangeRank(c: PathChange): nat {
    match c
    case RateChanged(k, _, _, _, _) => k
    case SignalChanged => PATH_METRICS
    case MatrixChanged => PATH_METRICS + 1
  }

  lemma {:induction false} RatesInOrder(a: PathResult, b: PathResult, n: nat)
    ensures InOrder(RatesDiff(a, b, n), ChangeRank) && forall c :: c in RatesDiff(a, b, n) ==> ChangeRank(c) < n
  {
    if n > 0 {
      RatesInOrder(a, b, n - 1);
      InOrderAppend(RatesDiff(a, b, n - 1), When(RateDiffers(a, b, n - 1), RateChange(a, b, n - 1)), ChangeRank, n - 1);
    }
  }

  /** With PathLineIsExact this determines a path line. */
  lemma PathLineInOrder(a: PathResult, b: PathResult)
    ensures InOrder(PathChanges(a, b), ChangeRank)
  {
    hide RatesDiff, InOrder;
    RatesInOrder(a, b, PATH_METRICS);
    var signal := When(a.signal != b.signal, SignalChanged);
    var matrix := When(a.combinations != b.combinations, MatrixChanged);
    FewInOrder(signal, ChangeRank);
    FewInOrder(matrix, ChangeRank);
    InOrderAppend(RatesDiff(a, b, PATH_METRICS), signal, ChangeRank, PATH_METRICS);
    InOrderAppend(RatesDiff(a, b, PATH_METRICS) + signal, matrix, ChangeRank, PATH_METRICS + 1);
  }

  /** Position of the first path with this name, or the length. */
  function IndexOfName(ps: seq<PathResult>, name: string): (i: nat)
    ensures i <= |ps| && (i < |ps| ==> ps[i].path == name) && forall j :: 0 <= j < i ==> ps[j].path != name
  {
    if ps == [] || ps[0].path == name then 0 else 1 + IndexOfName(ps[1..], name)
  }

  /** Version, capabilities, cases, metrics in their order, GREASE, paths in their order. */
  function Rank(ps: seq<PathResult>): Difference -> nat {
    (d: Difference) =>
      match d
      case VersionChanged(_, _) => 0
      case SecureContextChanged(_, _) => 1
      case WebTransportChanged(_, _) => 2
      case PlannedCasesChanged(_, _) => 3
      case MetricChanged(k, _, _) => 4 + k
      case VerdictChanged(_, _) => 4 + METRICS
      case GreaseStagesChanged => 4 + METRICS
      case PathAdded(path) => 5 + METRICS + IndexOfName(ps, path)
      case PathChanged(path, _) => 5 + METRICS + IndexOfName(ps, path)
  }

  lemma {:induction false} MetricsInOrder(a: seq<nat>, b: seq<nat>, n: nat, ps: seq<PathResult>)
    ensures InOrder(MetricsDiff(a, b, n), Rank(ps))
    ensures forall d :: d in MetricsDiff(a, b, n) ==> 4 <= Rank(ps)(d) < 4 + n
  {
    if n > 0 {
      MetricsInOrder(a, b, n - 1, ps);
      var was, now := Nth(a, n - 1), Nth(b, n - 1);
      InOrderAppend(MetricsDiff(a, b, n - 1), When(was != now, MetricChanged(n - 1, was, now)), Rank(ps), 4 + (n - 1));
    }
  }

  lemma RankOfPath(olds: seq<PathResult>, ps: seq<PathResult>, i: nat)
    requires i < |ps| && forall i, j :: 0 <= i < j < |ps| ==> ps[i].path != ps[j].path
    ensures InOrder(PathDiff(olds, ps[i]), Rank(ps))
    ensures forall d :: d in PathDiff(olds, ps[i]) ==> Rank(ps)(d) == 5 + METRICS + i
  {
    hide PathChanges, LastWith, InOrder;
    assert IndexOfName(ps, ps[i].path) == i;
    FewInOrder(PathDiff(olds, ps[i]), Rank(ps));
  }

  lemma {:induction false} PathsInOrder(olds: seq<PathResult>, ps: seq<PathResult>, n: nat)
    requires n <= |ps| && forall i, j :: 0 <= i < j < |ps| ==> ps[i].path != ps[j].path
    ensures InOrder(PathsDiff(olds, ps[..n]), Rank(ps))
    ensures forall d :: d in PathsDiff(olds, ps[..n]) ==> 5 + METRICS <= Rank(ps)(d) < 5 + METRICS + n
  {
    hide PathChanges, LastWith, InOrder;
    if n == 0 {
      NoPathsNoLines(olds, ps[..0]);
      FewInOrder(PathsDiff(olds, ps[..0]), Rank(ps));
    } else {
      var p := ps[n - 1];
      PathsInOrder(olds, ps, n - 1);
      assert ps[..n] == ps[..n - 1] + [p];
      PathsDiffSnoc(olds, ps[..n - 1], p);
      RankOfPath(olds, ps, n - 1);
      hide PathDiff, Rank;
      InOrderAppend(PathsDiff(olds, ps[..n - 1]), PathDiff(olds, p), Rank(ps), 5 + METRICS + (n - 1));
    }
  }

  lemma HeadInOrder(a: Snapshot, b: Snapshot, ps: seq<PathResult>)
    ensures InOrder(HeadDiff(a, b), Rank(ps)) && forall d :: d in HeadDiff(a, b) ==> Rank(ps)(d) < 4
  {
    hide IndexOfName;
  }

  /** The lines come in one fixed order, each at most once; with LinesAreExact this determines the
      list. */
  lemma LinesInOrder(a: Snapshot, b: Snapshot)
    requires forall i, j :: 0 <= i < j < |b.paths| ==> b.paths[i].path != b.paths[j].path
    ensures InOrder(FullDiff(a, b), Rank(b.paths))
  {
    hide HeadDiff, MetricsDiff, PathsDiff, InOrder, IndexOfName;
    var ps := b.paths;
    var head, metrics := HeadDiff(a, b), MetricsDiff(a.metrics, b.metrics, METRICS);
    var grease, paths := GreaseDiff(a.grease, b.grease), PathsDiff(a.paths, ps);
    HeadInOrder(a, b, ps);
    MetricsInOrder(a.metrics, b.metrics, METRICS, ps);
    FewInOrder(grease, Rank(ps));
    PathsInOrder(a.paths, ps, |ps|);
    assert ps[..|ps|] == ps;
    InOrderAppend(head, metrics, Rank(ps), 4);
    InOrderAppend(head + metrics, grease, Rank(ps), 4 + METRICS);
    InOrderAppend(head + metrics + grease, paths, Rank(ps), 5 + METRICS);
  }

  // ------------------------------------------------------------------ how many lines

  lemma {:induction false} MetricsDiffLength(a: seq<nat>, b: seq<nat>, n: nat)
    ensures |MetricsDiff(a, b, n)| <= n
  {
    if n > 0 { MetricsDiffLength(a, b, n - 1); }
  }

  lemma {:induction false} PathsDiffLength(olds: seq<PathResult>, ps: seq<PathResult>)
    ensures |PathsDiff(olds, ps)| <= |ps|
  {
    if ps != [] { PathsDiffLength(olds, ps[..|ps| - 1]); }
  }

  /** Up to 51 paths the cut at 64 lines never drops one; the deployment has 8. */
  lemma NothingCut(a: Snapshot, b: Snapshot)
    requires |b.paths| <= 51
    ensures DiffOf(Some(a), b) == FullDiff(a, b)
  {
    hide HeadDiff, MetricsDiff, PathsDiff;
    HeadDiffLength(a, b);
    MetricsDiffLength(a.metrics, b.metrics, METRICS);
    PathsDiffLength(a.paths, b.paths);
  }

  lemma HeadDiffLength(a: Snapshot, b: Snapshot)
    ensures |HeadDiff(a, b)| <= 4
  {
  }

  // ------------------------------------------------------------------ when there are none

  lemma {:induction false} LastAt(ps: seq<PathResult>, paths: seq<string>, i: nat)
    requires |ps| == |paths| && Distinct(paths) && i < |ps| && forall k :: 0 <= k < |ps| ==> ps[k].path == paths[k]
    ensures LastWith(ps, paths[i]) == Some(ps[i])
    decreases |ps|
  {
    var n := |ps| - 1;
    if i < n {
      LastAt(ps[..n], paths[..n], i);
    }
  }

  function WithoutEffects(p: PathResult): PathResult {
    p.(effects := [])
  }

  /** What a comparison of two results should ignore: when they came in, and the ratios the page
      derives from the option matrix. */
  function Material(s: Snapshot): Snapshot {
    s.(receivedAt := "", paths := Map(s.paths, WithoutEffects))
  }

  lemma CountsEqual(a: seq<nat>, b: seq<nat>, n: nat)
    requires |a| == n && |b| == n && forall k :: 0 <= k < n ==> Nth(a, k) == Nth(b, k)
    ensures a == b
  {
    forall k | 0 <= k < n ensures a[k] == b[k] {
      assert Nth(a, k) == Nth(b, k);
    }
  }

  /** Two results for one path: no change exactly when they agree on all but the effects. Equal
      matrices have equal lengths, so the total need not be compared on its own. */
  lemma NoPathChange(a: PathResult, b: PathResult)
    requires a.path == b.path && |a.counts| == PATH_METRICS && |b.counts| == PATH_METRICS
    ensures PathChanges(a, b) == [] <==> WithoutEffects(a) == WithoutEffects(b)
  {
    hide PathChanges;
    if PathChanges(a, b) == [] {
      forall k | 0 <= k < PATH_METRICS ensures Nth(a.counts, k) == Nth(b.counts, k) && a.total == b.total {
        PathLineIsExact(a, b, RateChange(a, b, k));
      }
      assert a.total == b.total by { PathLineIsExact(a, b, RateChange(a, b, 0)); }
      CountsEqual(a.counts, b.counts, PATH_METRICS);
      PathLineIsExact(a, b, SignalChanged);
      PathLineIsExact(a, b, MatrixChanged);
    }
    if WithoutEffects(a) == WithoutEffects(b) && PathChanges(a, b) != [] {
      Unchanged(a, b);
    }
  }

  lemma Unchanged(a: PathResult, b: PathResult)
    requires WithoutEffects(a) == WithoutEffects(b)
    ensures PathChanges(a, b) == []
  {
    var changes := PathChanges(a, b);
    if changes != [] {
      PathLineIsExact(a, b, changes[0]);
    }
  }

  lemma SameFamilyName(a: Browser, b: Browser)
    requires CanonicalBrowser(a) && CanonicalBrowser(b) && a.key == b.key
    ensures a.name == b.name
  {
    hide FamilyOf;
    FamilyCases(Str(a.name));
    FamilyCases(Str(b.name));
    KeysApart();
  }

  lemma KeysApart()
    ensures Distinct(["brave", "chrome", "firefox", "edge", "safari", "other"])
  {
    var keys := ["brave", "chrome", "firefox", "edge", "safari", "other"];
    forall i, j | 0 <= i < j < 6 ensures keys[i] != keys[j] {
      assert keys[i][0] != keys[j][0];
    }
  }

  lemma SamePaths(a: Snapshot, b: Snapshot, cfg: Config)
    requires Distinct(cfg.paths) && CanonicalSnapshot(a, cfg) && CanonicalSnapshot(b, cfg)
    requires a.capabilities == b.capabilities
    ensures PathsDiff(a.paths, b.paths) == [] <==> Map(a.paths, WithoutEffects) == Map(b.paths, WithoutEffects)
  {
    hide PathsDiff, PathChanges, CountsMatch, OptionSignal, CanonicalMatrix, CanonicalEffects, LastWith, WithoutEffects,
      CanonicalBrowser, CanonicalRun, CanonicalGrease;
    var ps, qs := a.paths, b.paths;
    assert |ps| == |qs| == |cfg.paths|;
    forall i | 0 <= i < |ps|
      ensures PathDiff(ps, qs[i]) == [] <==> WithoutEffects(ps[i]) == WithoutEffects(qs[i])
    {
      assert CanonicalPath(ps[i], cfg.paths[i], a.capabilities.webTransport, cfg);
      assert CanonicalPath(qs[i], cfg.paths[i], b.capabilities.webTransport, cfg);
      forall k | 0 <= k < |ps| ensures ps[k].path == cfg.paths[k] {
        assert CanonicalPath(ps[k], cfg.paths[k], a.capabilities.webTransport, cfg);
      }
      LastAt(ps, cfg.paths, i);
      NoPathChange(ps[i], qs[i]);
    }
    if PathsDiff(ps, qs) == [] {
      forall i | 0 <= i < |ps| ensures Map(ps, WithoutEffects)[i] == Map(qs, WithoutEffects)[i] {
        NoLines(ps, qs, i);
      }
    }
    if Map(ps, WithoutEffects) == Map(qs, WithoutEffects) {
      forall i | 0 <= i < |qs| ensures PathDiff(ps, qs[i]) == [] {
        assert Map(ps, WithoutEffects)[i] == Map(qs, WithoutEffects)[i];
      }
      AllQuiet(ps, qs);
    }
  }

  lemma NoLines(olds: seq<PathResult>, ps: seq<PathResult>, i: nat)
    requires i < |ps| && PathsDiff(olds, ps) == []
    ensures PathDiff(olds, ps[i]) == []
  {
    var lines := PathDiff(olds, ps[i]);
    if lines != [] {
      assert ps[i] in ps && lines[0] in PathDiff(olds, ps[i]);
      PathLines(olds, ps, lines[0]);
    }
  }

  lemma AllQuiet(olds: seq<PathResult>, ps: seq<PathResult>)
    requires forall i :: 0 <= i < |ps| ==> PathDiff(olds, ps[i]) == []
    ensures PathsDiff(olds, ps) == []
  {
    var lines := PathsDiff(olds, ps);
    if lines != [] {
      PathLines(olds, ps, lines[0]);
    }
  }

  lemma NoMetricLines(a: seq<nat>, b: seq<nat>)
    requires |a| == METRICS && |b| == METRICS
    ensures MetricsDiff(a, b, METRICS) == [] <==> a == b
  {
    var lines := MetricsDiff(a, b, METRICS);
    if lines == [] {
      forall k | 0 <= k < METRICS ensures Nth(a, k) == Nth(b, k) {
        MetricLines(a, b, METRICS, MetricChanged(k, Nth(a, k), Nth(b, k)));
      }
      CountsEqual(a, b, METRICS);
    } else {
      MetricLines(a, b, METRICS, lines[0]);
    }
  }

  lemma NoGreaseLine(a: Snapshot, b: Snapshot, cfg: Config)
    requires CanonicalSnapshot(a, cfg) && CanonicalSnapshot(b, cfg)
    ensures GreaseDiff(a.grease, b.grease) == [] <==> a.grease == b.grease
  {
  }

  /** Two results of one family, both as the store keeps them: no difference is reported exactly when
      they agree on everything except the time of receipt and the effects. The number of completed
      cases, the conclusion, the verdict and the family name are not compared, and need not be: they
      are determined by what is. */
  lemma DiffIsExact(a: Snapshot, b: Snapshot, cfg: Config)
    requires Distinct(cfg.paths) && CanonicalSnapshot(a, cfg) && CanonicalSnapshot(b, cfg)
    requires a.browser.key == b.browser.key
    ensures DiffOf(Some(a), b) == [] <==> Material(a) == Material(b)
  {
    hide MetricsDiff, PathsDiff, GreaseDiff, CanonicalPaths, CanonicalGrease, ConclusionFor, CanonicalBrowser,
      SumTotals;
    SameFamilyName(a.browser, b.browser);
    assert DiffOf(Some(a), b) == [] <==> FullDiff(a, b) == [];
    if a.capabilities == b.capabilities {
      SamePaths(a, b, cfg);
    }
    NoMetricLines(a.metrics, b.metrics) by { MetricsLength(a, cfg); MetricsLength(b, cfg); }
    NoGreaseLine(a, b, cfg);
  }

  lemma MetricsLength(s: Snapshot, cfg: Config)
    requires CanonicalSnapshot(s, cfg)
    ensures |s.metrics| == METRICS
  {
  }

  // ------------------------------------------------------------------ effects

  /** How often ready was reached with a given option, and without it. */
  function EffectOfMatrix(cs: seq<Combination>, key: string): Effect {
    Effect(key,
           Ratio(Count(cs, (c: Combination) => key in c.options && StageIs(c, READY, Pass)),
                 Count(cs, (c: Combination) => key in c.options)),
           Ratio(Count(cs, (c: Combination) => key !in c.options && StageIs(c, READY, Pass)),
                 Count(cs, (c: Combination) => key !in c.options)))
  }

  function EffectsOfMatrix(cs: seq<Combination>, keys: seq<string>): (es: seq<Effect>)
    ensures |es| == |keys| && forall i :: 0 <= i < |es| ==> es[i] == EffectOfMatrix(cs, keys[i])
  {
    seq(|keys|, i requires 0 <= i < |keys| => EffectOfMatrix(cs, keys[i]))
  }

  /** The axes of an exhaustive run, read off its size: all keys, or all but the certificate's. */
  function UsedKeys(total: nat, keys: seq<string>): seq<string> {
    if total == 16 && |keys| >= 4 then keys[..4] else if total == 32 then keys else []
  }

  /** Results whose effects were computed from the option matrix, as the page does. */
  ghost predicate EffectsFromMatrix(s: Snapshot, cfg: Config) {
    forall i :: 0 <= i < |s.paths| ==>
      s.paths[i].effects == EffectsOfMatrix(s.paths[i].combinations, UsedKeys(s.paths[i].total, Keys(cfg)))
  }

  /** Then an empty difference means nothing changed but the time of receipt. */
  lemma DiffIsExactForPages(a: Snapshot, b: Snapshot, cfg: Config)
    requires Distinct(cfg.paths) && CanonicalSnapshot(a, cfg) && CanonicalSnapshot(b, cfg)
    requires a.browser.key == b.browser.key
    requires EffectsFromMatrix(a, cfg) && EffectsFromMatrix(b, cfg)
    ensures DiffOf(Some(a), b) == [] <==> a.(receivedAt := b.receivedAt) == b
  {
    hide CanonicalSnapshot, DiffOf, UsedKeys, EffectsOfMatrix;
    DiffIsExact(a, b, cfg);
    if Material(a) == Material(b) {
      assert |Map(a.paths, WithoutEffects)| == |Map(b.paths, WithoutEffects)|;
      forall i | 0 <= i < |a.paths| ensures a.paths[i] == b.paths[i] {
        assert Map(a.paths, WithoutEffects)[i] == Map(b.paths, WithoutEffects)[i];
      }
      assert a.paths == b.paths;
    }
  }

  /** A run without the API, with the given effects claimed for every path. */
  function Idle(effects: seq<Effect>, cfg: Config): Snapshot {
    Snapshot("", Browser("other", "Other", None), Capabilities(true, false), Run(1, 0), seq(METRICS, _ => 0),
             "WebTransport API unavailable", Map(cfg.paths, (p: string) => IdlePath(p, effects)), None)
  }

  function IdlePath(path: string, effects: seq<Effect>): PathResult {
    PathResult(path, 0, seq(PATH_METRICS, _ => 0), effects, [], "WebTransport API unavailable")
  }

  lemma {:induction false} NoTotals(ps: seq<PathResult>)
    requires forall i :: 0 <= i < |ps| ==> ps[i].total == 0
    ensures SumTotals(ps) == 0
  {
    if ps != [] { NoTotals(ps[..|ps| - 1]); }
  }

  lemma IdlePathIsCanonical(path: string, effects: seq<Effect>, cfg: Config)
    requires CanonicalEffects(effects, cfg)
    ensures CanonicalPath(IdlePath(path, effects), path, false, cfg)
  {
    hide CanonicalEffects;
    assert forall k, o :: CountStage([], k, o) == 0;
  }

  lemma IdleIsCanonical(effects: seq<Effect>, cfg: Config)
    requires CanonicalEffects(effects, cfg)
    ensures CanonicalSnapshot(Idle(effects, cfg), cfg)
  {
    hide CanonicalEffects, CanonicalPath, FamilyOf, LeadingDigits;
    var s := Idle(effects, cfg);
    NoTotals(s.paths);
    FamilyOfNames();
    forall i | 0 <= i < |s.paths| ensures CanonicalPath(s.paths[i], cfg.paths[i], false, cfg) {
      IdlePathIsCanonical(cfg.paths[i], effects, cfg);
    }
  }

  /** The store does not check effects against the matrix, so the reservation in DiffIsExact is
      needed: results can differ in their effects alone, and no line reports it. */
  lemma EffectsGoUnnoticed(cfg: Config)
    requires Distinct(cfg.paths) && cfg.paths != [] && cfg.axes != []
    ensures var a := Idle([], cfg);
            var b := Idle([Effect(cfg.axes[0].key, Ratio(1, 1), Ratio(0, 1))], cfg);
            CanonicalSnapshot(a, cfg) && CanonicalSnapshot(b, cfg) && a != b && DiffOf(Some(a), b) == []
  {
    hide CanonicalSnapshot, DiffOf;
    var effects := [Effect(cfg.axes[0].key, Ratio(1, 1), Ratio(0, 1))];
    assert Keys(cfg)[0] == cfg.axes[0].key;
    var a, b := Idle([], cfg), Idle(effects, cfg);
    IdleIsCanonical([], cfg);
    IdleIsCanonical(effects, cfg);
    DiffIsExact(a, b, cfg);
    assert Map(a.paths, WithoutEffects) == Map(b.paths, WithoutEffects);
    assert a.paths[0].effects != b.paths[0].effects;
  }
}
