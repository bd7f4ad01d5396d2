/** The browser page: one case, the matrix of cases, its analysis, and the payload it publishes. */
module Page {
  import opened Lists
  import opened Masks
  import opened Variants
  import opened Results
  import N = Negotiation

  // ------------------------------------------------------------------ the page's own lists

  const PATHS: seq<string> :=
    ["/wt/basic", "/wt/protocol", "/wt/capsule", "/wt/init", "/wt/draft", "/wt/h3-token", "/wt/yggdrasil", "/wt/auto"]

  const EXHAUSTIVE_AXES: seq<Axis> := [
    Axis("allowPooling", "allowPooling=false"),
    Axis("requireUnreliable", "requireUnreliable=true"),
    Axis("congestionControl", "congestionControl=low-latency"),
    Axis("protocols", "protocols=quicast-wt-v0")]

  const CERTIFICATE_AXIS: Axis := Axis("serverCertificateHashes", "serverCertificateHashes=sha-256")

  /** The page's lists together; the certificate axis comes last. */
  const PAGE_LISTS: Config := Config(PATHS, EXHAUSTIVE_AXES + [CERTIFICATE_AXIS])

  // ------------------------------------------------------------------ one case

  /** A stage object of a case. Skipped and NotExposed both have status "not-run"; only the second
      carries a detail that matches /unavailable/. */
  datatype Stage = Unset | Fulfilled | Unfulfilled | Skipped | NotExposed

  datatype DatagramEcho = Echoed | Lost | NoStreams

  /** What the browser and the server do to one case, and when Stop is pressed: `stopAt` is the first
      check of `cancelRequested`, counted from this case's first, that finds it set. Checks 0, 1 and 2
      guard the echo stages, 3 is taken at the end of the case, 4 right after it. */
  datatype Env = Env(constructed: bool, readied: bool, datagram: DatagramEcho, bidi: bool, uni: bool, stopAt: nat)

  predicate Stops(env: Env) {
    env.stopAt <= 4
  }

  datatype Case = Case(
    path: string, variantId: string, optionKeys: seq<string>,
    built: Stage, ready: Stage, bidi: Stage, uni: Stage, datagram: Stage, cancelled: bool)

  function Outcome01(ok: bool): Stage {
    if ok then Fulfilled else Unfulfilled
  }

  function DatagramStage(d: DatagramEcho): Stage {
    match d
    case Echoed => Fulfilled
    case Lost => Unfulfilled
    case NoStreams => NotExposed
  }

  /** What a case shows, from what happened to it. */
  function CaseOf(path: string, variantId: string, optionKeys: seq<string>, env: Env): Case {
    if !env.constructed then Case(path, variantId, optionKeys, Unfulfilled, Unset, Unset, Unset, Unset, false)
    else if !env.readied then
      Case(path, variantId, optionKeys, Fulfilled, Unfulfilled, Skipped, Skipped, Skipped, env.stopAt == 0)
    else
      Case(path, variantId, optionKeys, Fulfilled, Fulfilled,
           if env.stopAt <= 1 then Skipped else Outcome01(env.bidi),
           if env.stopAt <= 2 then Skipped else Outcome01(env.uni),
           if env.stopAt == 0 then Skipped else DatagramStage(env.datagram),
           env.stopAt <= 3)
  }

  method RunOne(path: string, variantId: string, optionKeys: seq<string>, env: Env) returns (result: Case)
    ensures result == CaseOf(path, variantId, optionKeys, env)
  {
    result := Case(path, variantId, optionKeys, Unset, Unset, Unset, Unset, Unset, false);
    if !env.constructed {
      result := result.(built := Unfulfilled);
      return;
    }
    result := result.(built := Fulfilled);
    var checks := 0;
    result := result.(ready := Outcome01(env.readied));
    if !env.readied {
      result := result.(datagram := Skipped);
      result := result.(bidi := Skipped);
      result := result.(uni := Skipped);
      result := result.(cancelled := env.stopAt <= checks);
      return;
    }
    result := result.(datagram := if env.stopAt <= checks then Skipped else DatagramStage(env.datagram));
    checks := checks + 1;
    result := result.(bidi := if env.stopAt <= checks then Skipped else Outcome01(env.bidi));
    checks := checks + 1;
    result := result.(uni := if env.stopAt <= checks then Skipped else Outcome01(env.uni));
    checks := checks + 1;
    result := result.(cancelled := env.stopAt <= checks);
  }

  function StageAt(c: Case, k: nat): Stage {
    if k == CONSTRUCTOR then c.built
    else if k == READY then c.ready
    else if k == BIDI then c.bidi
    else if k == UNI then c.uni
    else c.datagram
  }

  /** Every case a run can produce: nothing after a failed constructor, no echo after a failed ready,
      and a missing datagram API shows only once ready. */
  ghost predicate CaseShape(c: Case) {
    && (c.built == Fulfilled || c.built == Unfulfilled)
    && (c.built == Unfulfilled ==> c.ready == Unset)
    && (c.built == Fulfilled ==> c.ready == Fulfilled || c.ready == Unfulfilled)
    && (c.ready == Unset ==> c.bidi == c.uni == c.datagram == Unset)
    && (c.ready == Unfulfilled ==> c.bidi == c.uni == c.datagram == Skipped)
    && (c.ready == Fulfilled ==> c.bidi != Unset && c.uni != Unset && c.datagram != Unset)
    && c.bidi != NotExposed && c.uni != NotExposed
  }

  /** The shape of every case; and a case that was ready has all its echo outcomes exactly when Stop
      was not seen before its last echo stage. */
  lemma CaseHasShape(path: string, variantId: string, optionKeys: seq<string>, env: Env)
    ensures var c := CaseOf(path, variantId, optionKeys, env);
            && CaseShape(c)
            && (c.ready == Fulfilled ==>
                (c.bidi != Skipped && c.uni != Skipped && c.datagram != Skipped <==> env.stopAt > 2))
            && (c.cancelled ==> Stops(env))
  {
  }

  // ------------------------------------------------------------------ the matrix

  /** The cases in the order of the two loops. */
  function Planned(paths: seq<string>, variants: seq<Variant>): seq<(string, Variant)> {
    if paths == [] then []
    else
      var n := |paths| - 1;
      Planned(paths[..n], variants) + Map(variants, (v: Variant) => (paths[n], v))
  }

  /** The first n planned cases as they turn out. */
  function Cases(planned: seq<(string, Variant)>, env: nat -> Env, n: nat): (s: seq<Case>)
    requires n <= |planned|
    ensures |s| == n
    ensures forall k :: 0 <= k < n ==> s[k] == CaseOf(planned[k].0, planned[k].1.id, planned[k].1.optionKeys, env(k))
  {
    seq(n, k requires 0 <= k < n => CaseOf(planned[k].0, planned[k].1.id, planned[k].1.optionKeys, env(k)))
  }

  /** How many cases run: all, unless Stop is seen, and then up to the case that saw it. */
  function RunLength(total: nat, env: nat -> Env, from: nat): (n: nat)
    requires from <= total
    ensures from <= n <= total && (forall k :: from <= k < n - 1 ==> !Stops(env(k)))
    ensures n < total ==> n > from && Stops(env(n - 1))
    decreases total - from
  {
    if from == total then total
    else if Stops(env(from)) then from + 1
    else RunLength(total, env, from + 1)
  }

  predicate Stopped(n: nat, env: nat -> Env) {
    n > 0 && Stops(env(n - 1))
  }

  /** The results so far are the planned cases in order, and cancelRequested is what the last saw. */
  ghost predicate SoFar(results: seq<Case>, cancelRequested: bool, planned: seq<(string, Variant)>, env: nat -> Env) {
    var n := |results|;
    && n <= |planned| && results == Cases(planned, env, n)
    && RunLength(|planned|, env, 0) == (if cancelRequested then n else RunLength(|planned|, env, n))
    && cancelRequested == Stopped(n, env)
  }

  lemma SoFarStep(results: seq<Case>, result: Case, planned: seq<(string, Variant)>, env: nat -> Env)
    requires SoFar(results, false, planned, env) && |results| < |planned|
    requires var (path, v) := planned[|results|]; result == CaseOf(path, v.id, v.optionKeys, env(|results|))
    ensures SoFar(results + [result], Stops(env(|results|)), planned, env)
  {
    hide CaseOf;
  }

  method RunCases(paths: seq<string>, variants: seq<Variant>, env: nat -> Env)
    returns (results: seq<Case>, cancelRequested: bool)
    ensures var planned := Planned(paths, variants);
            var n := RunLength(|planned|, env, 0);
            results == Cases(planned, env, n) && cancelRequested == Stopped(n, env)
  {
    hide CaseOf, Planned, SoFar;
    results, cancelRequested := [], false;
    ghost var planned := Planned(paths, variants);
    NothingSoFar(planned, env);
    var i := 0;
    NothingPlanned(paths[..0], variants);
    while i < |paths| && !cancelRequested
      invariant i <= |paths| && SoFar(results, cancelRequested, planned, env)
      invariant !cancelRequested ==> |results| == |Planned(paths[..i], variants)|
      decreases |paths| - i
    {
      ghost var done := |results|;
      PlannedRow(paths, variants, i);
      var j := 0;
      while j < |variants| && !cancelRequested
        invariant j <= |variants| && |results| == done + j
        invariant SoFar(results, cancelRequested, planned, env)
        decreases |variants| - j
      {
        var result := RunOne(paths[i], variants[j].id, variants[j].optionKeys, env(|results|));
        SoFarStep(results, result, planned, env);
        cancelRequested := Stops(env(|results|));
        results := results + [result];
        j := j + 1;
      }
      i := i + 1;
    }
    assert paths[..|paths|] == paths;
    Finished(results, cancelRequested, planned, env);
  }

  lemma NothingSoFar(planned: seq<(string, Variant)>, env: nat -> Env)
    ensures SoFar([], false, planned, env)
  {
  }

  lemma NothingPlanned(paths: seq<string>, variants: seq<Variant>)
    requires paths == []
    ensures Planned(paths, variants) == []
  {
  }

  lemma Finished(results: seq<Case>, cancelRequested: bool, planned: seq<(string, Variant)>, env: nat -> Env)
    requires SoFar(results, cancelRequested, planned, env) && (cancelRequested || |results| == |planned|)
    ensures var n := RunLength(|planned|, env, 0);
            results == Cases(planned, env, n) && cancelRequested == Stopped(n, env)
  {
    hide Cases;
  }

  /** Row i of the plan: path i with every variant in turn. */
  lemma PlannedRow(paths: seq<string>, variants: seq<Variant>, i: nat)
    requires i < |paths|
    ensures var planned := Planned(paths, variants);
            var done := |Planned(paths[..i], variants)|;
            && |Planned(paths[..i + 1], variants)| == done + |variants| <= |planned|
            && forall j :: 0 <= j < |variants| ==> planned[done + j] == (paths[i], variants[j])
  {
    hide Planned;
    assert paths[..i + 1] == paths[..i] + [paths[i]];
    PlannedPrefix(paths, variants, i + 1);
    PlannedSnoc(paths[..i], paths[i], variants);
    var row := Map(variants, (v: Variant) => (paths[i], v));
    InTheMiddle(Planned(paths[..i], variants), row, Planned(paths, variants));
  }

  lemma InTheMiddle<T>(a: seq<T>, b: seq<T>, whole: seq<T>)
    requires a + b <= whole
    ensures |a| + |b| <= |whole| && forall j :: 0 <= j < |b| ==> whole[|a| + j] == b[j]
  {
    forall j | 0 <= j < |b| ensures whole[|a| + j] == b[j] {
      assert (a + b)[|a| + j] == b[j];
    }
  }

  lemma PlannedSnoc(paths: seq<string>, path: string, variants: seq<Variant>)
    ensures Planned(paths + [path], variants) == Planned(paths, variants) + Map(variants, (v: Variant) => (path, v))
  {
    assert (paths + [path])[..|paths|] == paths;
  }

  lemma {:induction false} PlannedPrefix(paths: seq<string>, variants: seq<Variant>, i: nat)
    requires i <= |paths|
    ensures Planned(paths[..i], variants) <= Planned(paths, variants)
    decreases |paths|
  {
    if i == |paths| {
      assert paths[..i] == paths;
    } else {
      var n := |paths| - 1;
      PlannedPrefix(paths[..n], variants, i);
      assert paths[..n][..i] == paths[..i];
    }
  }

  // ------------------------------------------------------------------ counting

  function IsFulfilled(k: nat): Case -> bool {
    (c: Case) => StageAt(c, k) == Fulfilled
  }

  function CountFulfilled(cases: seq<Case>, k: nat): (n: nat)
    ensures n <= |cases|
  {
    Count(cases, IsFulfilled(k))
  }

  /** The publishable metrics of `summarizeResults`. */
  function Metrics(cases: seq<Case>): (m: seq<nat>)
    ensures |m| == METRICS && forall k :: 0 <= k < METRICS ==> m[k] <= |cases|
  {
    [CountFulfilled(cases, CONSTRUCTOR), CountFulfilled(cases, READY), CountFulfilled(cases, DATAGRAM),
     Count(cases, (c: Case) => c.datagram == NotExposed),
     CountFulfilled(cases, BIDI), CountFulfilled(cases, UNI),
     Count(cases, (c: Case) => c.ready == Fulfilled && c.bidi == Fulfilled && c.uni == Fulfilled),
     Count(cases, (c: Case) =>
           c.ready == Fulfilled && c.datagram == Fulfilled && c.bidi == Fulfilled && c.uni == Fulfilled)]
  }

  // ------------------------------------------------------------------ analysis

  datatype PageEffect = PageEffect(key: string, title: string, withOption: Ratio, withoutOption: Ratio)

  datatype Analysis = Analysis(
    path: string, total: nat, ready: nat, bidi: nat, uni: nat, datagram: nat, datagramUnavailable: nat,
    signal: string, effects: seq<PageEffect>)

  function OnPath(path: string): Case -> bool {
    (c: Case) => c.path == path
  }

  function Uses(key: string): Case -> bool {
    (c: Case) => key in c.optionKeys
  }

  function Lacks(key: string): Case -> bool {
    (c: Case) => key !in c.optionKeys
  }

  function EffectOfAxis(cases: seq<Case>, axis: Axis): PageEffect {
    var withOption, withoutOption := Filter(cases, Uses(axis.key)), Filter(cases, Lacks(axis.key));
    PageEffect(axis.key, axis.title,
               Ratio(CountFulfilled(withOption, READY), |withOption|),
               Ratio(CountFulfilled(withoutOption, READY), |withoutOption|))
  }

  predicate ReadyOnlyWith(e: PageEffect) {
    e.withOption.ready > 0 && e.withoutOption.ready == 0
  }

  predicate ReadyOnlyWithout(e: PageEffect) {
    e.withoutOption.ready > 0 && e.withOption.ready == 0
  }

  function EffectTitles(effects: seq<PageEffect>): seq<string> {
    Map(effects, (e: PageEffect) => e.title)
  }

  function SignalOf(total: nat, ready: nat, effects: seq<PageEffect>): string {
    if ready == 0 then "No combination reached ready"
    else if ready == total then "Every tested combination reached ready"
    else
      var onlyWith, onlyWithout := Filter(effects, ReadyOnlyWith), Filter(effects, ReadyOnlyWithout);
      var signals :=
        (if |onlyWith| > 0 then ["ready only with " + Join(EffectTitles(onlyWith), ", ")] else []) +
        (if |onlyWithout| > 0 then ["ready only without " + Join(EffectTitles(onlyWithout), ", ")] else []);
      if |signals| > 0 then Join(signals, "; ") else "Mixed or interacting option effects"
  }

  function EffectsOfAxes(cases: seq<Case>, axes: seq<Axis>): (es: seq<PageEffect>)
    ensures |es| == |axes| && forall i :: 0 <= i < |es| ==> es[i] == EffectOfAxis(cases, axes[i])
  {
    seq(|axes|, i requires 0 <= i < |axes| => EffectOfAxis(cases, axes[i]))
  }

  function AnalyzePath(cases: seq<Case>, path: string, axes: seq<Axis>): Analysis {
    var pathCases := Filter(cases, OnPath(path));
    var ready := CountFulfilled(pathCases, READY);
    var effects := EffectsOfAxes(pathCases, axes);
    var readyCases := Filter(pathCases, IsFulfilled(READY));
    Analysis(path, |pathCases|, ready, CountFulfilled(pathCases, BIDI), CountFulfilled(pathCases, UNI),
             CountFulfilled(pathCases, DATAGRAM), Count(readyCases, (c: Case) => c.datagram == NotExposed),
             SignalOf(|pathCases|, ready, effects), effects)
  }

  /** `[...new Set(cases.map((item) => item.path))]` */
  function PathsIn(cases: seq<Case>): seq<string> {
    if cases == [] then []
    else
      var n := |cases| - 1;
      var before := PathsIn(cases[..n]);
      if cases[n].path in before then before else before + [cases[n].path]
  }

  function AnalyzeEach(cases: seq<Case>, paths: seq<string>, axes: seq<Axis>): (s: seq<Analysis>)
    ensures |s| == |paths| && forall i :: 0 <= i < |s| ==> s[i] == AnalyzePath(cases, paths[i], axes)
  {
    seq(|paths|, i requires 0 <= i < |paths| => AnalyzePath(cases, paths[i], axes))
  }

  function AnalyzePaths(cases: seq<Case>, axes: seq<Axis>): seq<Analysis> {
    AnalyzeEach(cases, PathsIn(cases), axes)
  }

  // ------------------------------------------------------------------ GREASE

  datatype Differential = Differential(control: Option<Case>, enabled: Option<Case>, verdict: Option<Verdict>)

  function PublicStage(s: Stage): Outcome {
    match s
    case Fulfilled => Pass
    case Unset => NotRun
    case Skipped => NotRun
    case NotExposed => NotRun
    case Unfulfilled => Fail
  }

  function PublicDatagram(s: Stage): Outcome {
    if s == NotExposed then Unavailable else PublicStage(s)
  }

  /** `publicationGreaseProbe`, by GREASE_PROBE_KEYS. */
  function PublicProbe(result: Option<Case>): (p: seq<Outcome>)
    ensures |p| == STAGES
  {
    if result.None? then [NotRun, NotRun, NotRun, NotRun, NotRun]
    else
      var c := result.value;
      [PublicStage(c.built), PublicStage(c.ready), PublicDatagram(c.datagram), PublicStage(c.bidi), PublicStage(c.uni)]
  }

  /** `greaseVerdict`; none stands for "not-run". */
  function GreaseVerdict(control: Option<Case>, enabled: Option<Case>, constructible: bool): Option<Verdict> {
    if !constructible then Some(ApiUnavailable)
    else if control.None? || enabled.None? then None
    else if control.value.ready != Fulfilled then Some(ControlFailed)
    else if enabled.value.ready != Fulfilled then Some(Affected)
    else if PublicProbe(control) != PublicProbe(enabled) then Some(Degraded)
    else Some(Tolerant)
  }

  const PROBE_ID: string := "grease-probe"

  /** The pair of probes: the first without GREASE, the second with it, unless Stop comes first. */
  method RunGreaseDifferential(wanted: bool, configured: bool, constructible: bool, cancelRequested: bool,
                               probeKeys: seq<string>, path: string, first: Env, second: Env)
    returns (r: Option<Differential>)
    ensures r == DifferentialOf(wanted, configured, constructible, cancelRequested, probeKeys, path, first, second)
  {
    hide CaseOf, GreaseVerdict;
    if !wanted || !configured { return None; }
    var differential := Differential(None, None, None);
    if !constructible || cancelRequested {
      return Some(differential.(verdict := GreaseVerdict(None, None, constructible)));
    }
    var control := RunOne(path, PROBE_ID, probeKeys, first);
    differential := differential.(control := Some(control));
    if Stops(first) {
      return Some(differential.(verdict := GreaseVerdict(differential.control, None, constructible)));
    }
    var enabled := RunOne(path, PROBE_ID, probeKeys, second);
    differential := differential.(enabled := Some(enabled));
    return Some(differential.(verdict := GreaseVerdict(differential.control, differential.enabled, constructible)));
  }

  function DifferentialOf(wanted: bool, configured: bool, constructible: bool, cancelRequested: bool,
                          probeKeys: seq<string>, path: string, first: Env, second: Env): Option<Differential> {
    if !wanted || !configured then None
    else
      var ran := constructible && !cancelRequested;
      var control := if ran then Some(CaseOf(path, PROBE_ID, probeKeys, first)) else None;
      var enabled := if ran && !Stops(first) then Some(CaseOf(path, PROBE_ID, probeKeys, second)) else None;
      Some(Differential(control, enabled, GreaseVerdict(control, enabled, constructible)))
  }

  // ------------------------------------------------------------------ the report

  /** The version as the user agent gives it, none when it gives none. */
  datatype Profile = Profile(name: string, version: Option<string>, secureContext: bool, constructible: bool)

  /** What the user and the deployment chose: `greaseConfigured` that the runtime configuration has a
      GREASE section, `greaseUsable` that `configuredGreaseDifferential` finds both targets in it. */
  datatype Settings = Settings(
    exhaustive: bool, paths: seq<string>, share: bool, resultsEnabled: bool, targetMatches: bool,
    greaseConfigured: bool, greaseChecked: bool, greaseUsable: bool, greasePath: string)

  datatype Report = Report(
    settings: Settings, planned: nat, cancelled: bool, completed: nat, metrics: seq<nat>,
    analysis: seq<Analysis>, grease: Option<Differential>, results: seq<Case>)

  function WantsGrease(s: Settings): bool {
    s.greaseConfigured && s.greaseChecked
  }

  /** What `runMatrix` leaves in `report`, for the given variants and axes. */
  function ReportOf(profile: Profile, settings: Settings, variants: seq<Variant>, axes: seq<Axis>,
                    probeKeys: seq<string>, env: nat -> Env, first: Env, second: Env): Report {
    var planned := Planned(settings.paths, variants);
    var plannedCases := |settings.paths| * |variants|;
    if !profile.constructible then
      Report(settings, plannedCases, false, 0, Metrics([]), [],
             DifferentialOf(WantsGrease(settings), settings.greaseUsable, false, false, probeKeys,
                            settings.greasePath, first, second), [])
    else
      var n := RunLength(|planned|, env, 0);
      var results := Cases(planned, env, n);
      var cancelled := Stopped(n, env);
      Report(settings, plannedCases, cancelled, n, Metrics(results),
             if settings.exhaustive && !cancelled then AnalyzePaths(results, axes) else [],
             if cancelled then None
             else DifferentialOf(WantsGrease(settings), settings.greaseUsable, true, false, probeKeys,
                                 settings.greasePath, first, second),
             results)
  }

  method RunMatrix(profile: Profile, settings: Settings, variants: seq<Variant>, axes: seq<Axis>,
                   probeKeys: seq<string>, env: nat -> Env, first: Env, second: Env)
    returns (report: Report)
    ensures report == ReportOf(profile, settings, variants, axes, probeKeys, env, first, second)
  {
    hide Cases, RunLength, DifferentialOf, AnalyzePaths, Metrics, Planned;
    var plannedCases := |settings.paths| * |variants|;
    report := Report(settings, plannedCases, false, 0, Metrics([]), [], None, []);
    if !profile.constructible {
      var grease := RunGreaseDifferential(WantsGrease(settings), settings.greaseUsable, false, false, probeKeys,
                                          settings.greasePath, first, second);
      report := report.(grease := grease);
      return;
    }
    var results, cancelRequested := RunCases(settings.paths, variants, env);
    report := report.(results := results, cancelled := cancelRequested, completed := |results|,
                      metrics := Metrics(results));
    if settings.exhaustive && !cancelRequested {
      report := report.(analysis := AnalyzePaths(results, axes));
    }
    if !cancelRequested {
      var grease := RunGreaseDifferential(WantsGrease(settings), settings.greaseUsable, true, false, probeKeys,
                                          settings.greasePath, first, second);
      report := report.(grease := grease);
    }
  }

  // ------------------------------------------------------------------ publication

  function Find(analysis: seq<Analysis>, path: string): Option<Analysis> {
    if analysis == [] then None
    else if analysis[0].path == path then Some(analysis[0])
    else Find(analysis[1..], path)
  }

  function PublicStages(c: Case): (s: seq<Outcome>)
    ensures |s| == STAGES
  {
    [PublicStage(c.built), PublicStage(c.ready), PublicStage(c.bidi), PublicStage(c.uni), PublicDatagram(c.datagram)]
  }

  /** `publicationCombination`; an id without a mask gives NaN, which JSON writes as null. */
  function PublicCombination(c: Case): RawCombination {
    var mask := ParseHex(StripId(c.variantId));
    RawCombination(if mask.Some? then Num(mask.value) else Null,
                   Items(Map(c.optionKeys, (k: string) => Str(k))), OutcomeLeaves(PublicStages(c)))
  }

  function MaskValue(c: RawCombination): int {
    if c.mask.Num? then c.mask.n else 0
  }

  function ByMaskValue(): (RawCombination, RawCombination) -> bool {
    (l: RawCombination, r: RawCombination) => MaskValue(l) <= MaskValue(r)
  }

  function PublicEffect(e: PageEffect): RawEffect {
    RawEffect(Str(e.key), RawRatio(Num(e.withOption.ready), Num(e.withOption.total)),
              RawRatio(Num(e.withoutOption.ready), Num(e.withoutOption.total)))
  }

  function PublicPath(report: Report, path: string): RawPath {
    var analyzed := Find(report.analysis, path);
    var cases := Filter(report.results, OnPath(path));
    var a := if analyzed.Some? then analyzed.value
             else Analysis(path, |cases|, CountFulfilled(cases, READY), CountFulfilled(cases, BIDI),
                           CountFulfilled(cases, UNI), CountFulfilled(cases, DATAGRAM),
                           Count(cases, (c: Case) => c.datagram == NotExposed), "", []);
    RawPath(Str(path), Num(a.total),
            [Num(CountFulfilled(cases, CONSTRUCTOR)), Num(a.ready), Num(a.bidi), Num(a.uni), Num(a.datagram),
             Num(a.datagramUnavailable)],
            Items(Map(a.effects, PublicEffect)),
            Items(Sort(Map(cases, PublicCombination), ByMaskValue())))
  }

  function PublicPaths(report: Report, paths: seq<string>): (s: seq<RawPath>)
    ensures |s| == |paths| && forall i :: 0 <= i < |s| ==> s[i] == PublicPath(report, paths[i])
  {
    seq(|paths|, i requires 0 <= i < |paths| => PublicPath(report, paths[i]))
  }

  function PublicGrease(d: Option<Differential>): RawGrease {
    if d.None? then Absent
    else Given(OutcomeLeaves(PublicProbe(d.value.control)), OutcomeLeaves(PublicProbe(d.value.enabled)))
  }

  /** `version?.split(".")[0] ?? null`, as the store reads it. */
  function MajorVersion(version: Option<string>): string {
    if version.None? then "" else N.BeforeFirst(version.value, '.')
  }

  function Payload(report: Report, profile: Profile, paths: seq<string>): RawSubmission {
    RawSubmission(
      Num(1), Str(profile.name), MajorVersion(profile.version),
      Bool(profile.secureContext), Bool(profile.constructible),
      Str(if report.settings.exhaustive then "exhaustive" else "selected"), Bool(report.cancelled),
      Num(report.planned), Num(report.completed),
      CountLeaves(report.metrics),
      Items(PublicPaths(report, paths)),
      PublicGrease(report.grease))
  }

  /** `publicationBlockReason` returns null. */
  predicate MayPublish(report: Report, profile: Profile, paths: seq<string>) {
    var s := report.settings;
    && s.share && s.resultsEnabled
    && !report.cancelled && s.exhaustive
    && (s.greaseConfigured ==> WantsGrease(s) && report.grease.Some?)
    && s.targetMatches
    && |s.paths| == |paths| && (forall i :: 0 <= i < |paths| ==> paths[i] in s.paths)
    && (profile.constructible ==> report.completed == report.planned)
  }

  /** `publicationBlockReason` of a finished run. A run that saw Stop is among those that stay local. */
  method PublicationBlockReason(report: Report, profile: Profile, paths: seq<string>) returns (reason: Option<string>)
    ensures reason.None? <==> MayPublish(report, profile, paths)
    ensures report.cancelled ==>
      reason.Some? && reason.value in {"Anonymous sharing is off.", "Shared browser overview is disabled.",
                                       "Stopped runs remain local."}
    ensures reason.None? <==>
      var s := report.settings;
      && s.share && s.resultsEnabled && !report.cancelled && s.exhaustive && s.targetMatches
      && (s.greaseConfigured ==> s.greaseChecked && report.grease.Some?)
      && |s.paths| == |paths| && (forall p :: p in paths ==> p in s.paths)
      && (profile.constructible ==> report.completed == report.planned)
  {
    var s := report.settings;
    if !s.share { return Some("Anonymous sharing is off."); }
    if !s.resultsEnabled { return Some("Shared browser overview is disabled."); }
    if report.cancelled { return Some("Stopped runs remain local."); }
    if !s.exhaustive { return Some("Selected runs remain local."); }
    if s.greaseConfigured && !WantsGrease(s) {
      return Some("GREASE A/B was disabled; this exhaustive run remains local.");
    }
    if s.greaseConfigured && report.grease.None? {
      return Some("GREASE A/B did not complete; this exhaustive run remains local.");
    }
    if !s.targetMatches { return Some("Custom-target runs remain local."); }
    if |s.paths| != |paths| || !(forall i :: 0 <= i < |paths| ==> paths[i] in s.paths) {
      return Some("Partial-path runs remain local.");
    }
    if profile.constructible && report.completed != report.planned { return Some("Incomplete runs remain local."); }
    return None;
  }
}
