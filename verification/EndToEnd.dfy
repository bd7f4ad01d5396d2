/** From what the browsers and servers did in each case to what the store keeps of it. */
module EndToEnd {
  import opened Lists
  import opened Masks
  import opened Variants
  import opened Results
  import opened Sanitize
  import Diff
  import opened Page
  import opened Signals
  import opened Rows
  import opened Agreement

  /** What one connection attempt showed at a stage, when Stop stayed away from it. */
  function Happened(env: Env, k: nat): Outcome {
    if k == CONSTRUCTOR then (if env.constructed then Pass else Fail)
    else if !env.constructed then NotRun
    else if k == READY then (if env.readied then Pass else Fail)
    else if !env.readied then NotRun
    else if k == BIDI then (if env.bidi then Pass else Fail)
    else if k == UNI then (if env.uni then Pass else Fail)
    else match env.datagram {
      case Echoed => Pass
      case Lost => Fail
      case NoStreams => Unavailable
    }
  }

  function AllHappened(env: Env): seq<Outcome> {
    [Happened(env, CONSTRUCTOR), Happened(env, READY), Happened(env, BIDI), Happened(env, UNI), Happened(env, DATAGRAM)]
  }

  lemma CaseIsWhatHappened(path: string, variantId: string, optionKeys: seq<string>, env: Env)
    requires !Stops(env)
    ensures var c := CaseOf(path, variantId, optionKeys, env);
            && c.path == path && c.variantId == variantId && c.optionKeys == optionKeys && !c.cancelled
            && PublicStages(c) == AllHappened(env)
            && (c.datagram == NotExposed <==> Happened(env, DATAGRAM) == Unavailable)
            && forall k :: 0 <= k < STAGES ==> (StageAt(c, k) == Fulfilled <==> Happened(env, k) == Pass)
  {
  }

  /** A published run of a browser with the API saw no Stop. */
  lemma NoStopSeen(cfg: Config, useHash: bool, profile: Profile, settings: Settings, env: nat -> Env, first: Env,
                   second: Env)
    requires ValidConfig(cfg) && profile.constructible
    requires MayPublish(FullReport(cfg, useHash, profile, settings, env, first, second), profile, cfg.paths)
    ensures forall k :: 0 <= k < |settings.paths| * |VariantsUsed(cfg, useHash)| ==> !Stops(env(k))
  {
    hide Metrics, DifferentialOf, AnalyzePaths, VariantsUsed, Planned, Cases, Stops;
    var variants := VariantsUsed(cfg, useHash);
    PlannedLength(settings.paths, variants);
    UnstoppedIsComplete(|Planned(settings.paths, variants)|, env);
  }

  /** The a-th selected path with the b-th variant is case number a * |variants| + b; the entry of mask m
      is that case's. */
  ghost predicate IsTrial(c: Combination, m: nat, path: string, paths: seq<string>, variants: seq<Variant>,
                          env: nat -> Env, a: nat, b: nat)
  {
    && a < |paths| && paths[a] == path && b < |variants| && variants[b].mask == m
    && c.mask == m && c.options == variants[b].optionKeys && c.stages == AllHappened(env(a * |variants| + b))
  }

  lemma RowEntry(path: string, variants: seq<Variant>, env: nat -> Env, offset: nat, cs: seq<Combination>, m: nat)
    returns (b: nat)
    requires MatrixAgrees(cs, Row(path, variants, env, offset)) && m < |cs|
    requires forall j :: 0 <= j < |variants| ==> variants[j].id == VariantId(variants[j].mask)
    ensures b < |variants| && variants[b].mask == m
    ensures cs[m].mask == m && cs[m].options == variants[b].optionKeys
    ensures cs[m].stages == PublicStages(CaseOf(path, variants[b].id, variants[b].optionKeys, env(offset + b)))
  {
    hide CaseOf, VariantId, ParseHex, StripId, PublicStages;
    var row := Row(path, variants, env, offset);
    assert Shown(cs[m], row, m);
    b :| 0 <= b < |row| && EntryOf(cs[m], row[b], m);
    CaseKeys(path, variants[b].id, variants[b].optionKeys, env(offset + b));
    IdRoundTrip(variants[b].mask);
  }

  /** In the stored matrix of every path of every published run, the entry of each mask has the options of
      that mask and, stage by stage, what happened in the case of that path and mask. */
  lemma StoredMatrixIsWhatHappened(cfg: Config, useHash: bool, profile: Profile, settings: Settings,
                                   env: nat -> Env, first: Env, second: Env, at: string, requireGrease: bool,
                                   i: nat, m: nat)
    returns (a: nat, b: nat)
    requires ValidConfig(cfg) && Distinct(settings.paths) && profile.constructible && i < |cfg.paths|
    requires var report := FullReport(cfg, useHash, profile, settings, env, first, second);
             && MayPublish(report, profile, cfg.paths)
             && SubmissionOf(Payload(report, profile, cfg.paths), at, requireGrease, cfg).Accepted?
    requires m < |VariantsUsed(cfg, useHash)|
    ensures var report := FullReport(cfg, useHash, profile, settings, env, first, second);
            var s := SubmissionOf(Payload(report, profile, cfg.paths), at, requireGrease, cfg).value;
            && |s.paths| == |cfg.paths| && s.paths[i].path == cfg.paths[i]
            && |s.paths[i].combinations| == |VariantsUsed(cfg, useHash)|
            && IsTrial(s.paths[i].combinations[m], m, cfg.paths[i], settings.paths, VariantsUsed(cfg, useHash), env,
                       a, b)
  {
    hide SubmissionOf, Payload, FullReport, Find, Filter, PathCounts, AllHappened, Planned, VariantsUsed, Row,
      MatrixAgrees, CaseOf, PublicStages, Diff.EffectsFromMatrix, PairAcceptable, FamilyOf, KeepsVersion, PublicProbe,
      Distinct, AllCases, Stops;
    var report := FullReport(cfg, useHash, profile, settings, env, first, second);
    var s := SubmissionOf(Payload(report, profile, cfg.paths), at, requireGrease, cfg).value;
    var variants := VariantsUsed(cfg, useHash);
    PublishedIsAccepted(cfg, useHash, profile, settings, env, first, second, at, requireGrease);
    CompleteRun(cfg, useHash, profile, settings, env, first, second);
    SelectedPath(report, cfg, profile, i);
    SettingsKept(cfg, useHash, profile, settings, env, first, second);
    var offset := PathRow(settings.paths, variants, env, cfg.paths[i]);
    a :| 0 <= a < |settings.paths| && settings.paths[a] == cfg.paths[i] && offset == a * |variants|;
    IdsOfVariants(cfg, useHash);
    var cs := s.paths[i].combinations;
    assert MatrixAgrees(cs, Row(cfg.paths[i], variants, env, offset));
    MatrixLength(cs, cfg.paths[i], variants, env, offset);
    b := RowEntry(cfg.paths[i], variants, env, offset, cs, m);
    NoStopSeen(cfg, useHash, profile, settings, env, first, second);
    Before(a, |settings.paths|, |variants|, b);
    CaseIsWhatHappened(cfg.paths[i], variants[b].id, variants[b].optionKeys, env(offset + b));
  }

  lemma SelectedPath(report: Report, cfg: Config, profile: Profile, i: nat)
    requires MayPublish(report, profile, cfg.paths) && i < |cfg.paths|
    ensures cfg.paths[i] in report.settings.paths
  {
  }

  lemma MatrixLength(cs: seq<Combination>, path: string, variants: seq<Variant>, env: nat -> Env, offset: nat)
    requires MatrixAgrees(cs, Row(path, variants, env, offset))
    ensures |cs| == |variants|
  {
  }

  lemma Before(a: nat, p: nat, n: nat, j: nat)
    requires a < p && j < n
    ensures 0 <= a * n + j < p * n
  {
    assert (a + 1) * n == a * n + n;
    assert (a + 1) * n <= p * n;
  }

  lemma IdsOfVariants(cfg: Config, useHash: bool)
    requires ValidConfig(cfg)
    ensures forall j :: 0 <= j < |VariantsUsed(cfg, useHash)| ==>
      VariantsUsed(cfg, useHash)[j].id == VariantId(VariantsUsed(cfg, useHash)[j].mask)
  {
    hide VariantsUsed, VariantId, Pow2;
    VariantsUsedAreFull(cfg, useHash);
  }

  // ------------------------------------------------------------------ the numbers

  /** What happened in the first n cases. */
  function Trials(env: nat -> Env, n: nat): (t: seq<Env>)
    ensures |t| == n && forall k :: 0 <= k < n ==> t[k] == env(k)
  {
    seq(n, k requires 0 <= k < n => env(k))
  }

  predicate Reached(e: Env) {
    e.constructed && e.readied
  }

  predicate NoDatagrams(e: Env) {
    Reached(e) && e.datagram == NoStreams
  }

  predicate StreamsEchoed(e: Env) {
    Reached(e) && e.bidi && e.uni
  }

  predicate AllEchoed(e: Env) {
    StreamsEchoed(e) && e.datagram == Echoed
  }

  /** The eight numbers of a run, as numbers of cases in which something happened. */
  function Numbers(t: seq<Env>): seq<nat> {
    [|Where(t, (e: Env) => e.constructed)|, |Where(t, Reached)|,
     |Where(t, (e: Env) => Reached(e) && e.datagram == Echoed)|, |Where(t, NoDatagrams)|,
     |Where(t, (e: Env) => Reached(e) && e.bidi)|, |Where(t, (e: Env) => Reached(e) && e.uni)|,
     |Where(t, StreamsEchoed)|, |Where(t, AllEchoed)|]
  }

  lemma CountedAs(cases: seq<Case>, p: Case -> bool, t: seq<Env>, q: Env -> bool)
    requires |cases| == |t| && forall i :: 0 <= i < |t| ==> p(cases[i]) == q(t[i])
    ensures Count(cases, p) == |Where(t, q)|
  {
    CountEqual(cases, p, t, q);
    CountIsCardinality(t, q);
  }

  /** The case of trial k, however it is called. */
  ghost predicate IsCaseOf(c: Case, env: Env) {
    exists path, id, keys :: c == CaseOf(path, id, keys, env)
  }

  lemma CaseFlags(c: Case, e: Env)
    requires IsCaseOf(c, e) && !Stops(e)
    ensures c.built == Fulfilled <==> e.constructed
    ensures c.ready == Fulfilled <==> Reached(e)
    ensures c.datagram == Fulfilled <==> Reached(e) && e.datagram == Echoed
    ensures c.datagram == NotExposed <==> NoDatagrams(e)
    ensures c.bidi == Fulfilled <==> Reached(e) && e.bidi
    ensures c.uni == Fulfilled <==> Reached(e) && e.uni
  {
  }

  lemma MetricsCount(cases: seq<Case>, t: seq<Env>)
    requires |cases| == |t| && forall i :: 0 <= i < |t| ==> IsCaseOf(cases[i], t[i]) && !Stops(t[i])
    ensures Metrics(cases) == Numbers(t)
  {
    hide Count, Where, IsCaseOf, Stops;
    forall i | 0 <= i < |t|
      ensures cases[i].built == Fulfilled <==> t[i].constructed
      ensures cases[i].ready == Fulfilled <==> Reached(t[i])
      ensures cases[i].datagram == Fulfilled <==> Reached(t[i]) && t[i].datagram == Echoed
      ensures cases[i].datagram == NotExposed <==> NoDatagrams(t[i])
      ensures cases[i].bidi == Fulfilled <==> Reached(t[i]) && t[i].bidi
      ensures cases[i].uni == Fulfilled <==> Reached(t[i]) && t[i].uni
    {
      CaseFlags(cases[i], t[i]);
    }
    CountedAs(cases, IsFulfilled(CONSTRUCTOR), t, (e: Env) => e.constructed);
    CountedAs(cases, IsFulfilled(READY), t, Reached);
    CountedAs(cases, IsFulfilled(DATAGRAM), t, (e: Env) => Reached(e) && e.datagram == Echoed);
    CountedAs(cases, (c: Case) => c.datagram == NotExposed, t, NoDatagrams);
    CountedAs(cases, IsFulfilled(BIDI), t, (e: Env) => Reached(e) && e.bidi);
    CountedAs(cases, IsFulfilled(UNI), t, (e: Env) => Reached(e) && e.uni);
    CountedAs(cases, (c: Case) => c.ready == Fulfilled && c.bidi == Fulfilled && c.uni == Fulfilled, t, StreamsEchoed);
    CountedAs(cases, (c: Case) => c.ready == Fulfilled && c.datagram == Fulfilled && c.bidi == Fulfilled
                                  && c.uni == Fulfilled, t, AllEchoed);
  }

  /** What the page concludes, from what happened. */
  ghost function Conclusion(t: seq<Env>): string {
    if exists e :: e in t && AllEchoed(e) then "Full datagram and stream echo works"
    else if exists e :: e in t && StreamsEchoed(e) then
      (if |Where(t, NoDatagrams)| >= |Where(t, StreamsEchoed)|
       then "Ready and stream echo work; datagram API unavailable"
       else "Ready and stream echo work; datagram echo failed")
    else if exists e :: e in t && Reached(e) then "Ready works; complete stream echo did not"
    else if exists e :: e in t && e.constructed then "WebTransport exists; no case reached ready"
    else "All constructor calls failed"
  }

  lemma SomeWhere<T>(t: seq<T>, p: T -> bool)
    ensures |Where(t, p)| > 0 <==> exists e :: e in t && p(e)
  {
    CountIsCardinality(t, p);
    CountZero(t, p);
  }

  lemma ConclusionIsOfTrials(caps: Capabilities, t: seq<Env>)
    requires caps.webTransport
    ensures ConclusionFor(caps, Numbers(t)) == Conclusion(t)
  {
    hide Where, Reached, StreamsEchoed, AllEchoed, NoDatagrams, Numbers;
    NumbersRead(t);
    SomeWhere(t, AllEchoed);
    SomeWhere(t, StreamsEchoed);
    SomeWhere(t, Reached);
    SomeWhere(t, (e: Env) => e.constructed);
  }

  lemma NumbersRead(t: seq<Env>)
    ensures var m := Numbers(t);
            && |m| == METRICS && m[M_FULL_ECHO] == |Where(t, AllEchoed)|
            && m[M_STREAM_ECHO] == |Where(t, StreamsEchoed)|
            && m[M_DATAGRAM_UNAVAILABLE] == |Where(t, NoDatagrams)| && m[M_READY] == |Where(t, Reached)|
            && m[M_CONSTRUCTOR] == |Where(t, (e: Env) => e.constructed)|
  {
    hide Where;
  }

  lemma CasesOfTrials(paths: seq<string>, variants: seq<Variant>, env: nat -> Env, t: seq<Env>)
    requires t == Trials(env, |Planned(paths, variants)|)
    ensures var cases := AllCases(paths, variants, env);
            |cases| == |t| && forall i :: 0 <= i < |t| ==> IsCaseOf(cases[i], t[i])
  {
    hide CaseOf, Planned;
    var planned := Planned(paths, variants);
    var cases := AllCases(paths, variants, env);
    forall i | 0 <= i < |t| ensures IsCaseOf(cases[i], t[i]) {
      assert cases[i] == CaseOf(planned[i].0, planned[i].1.id, planned[i].1.optionKeys, env(i));
    }
  }

  /** The stored numbers of every published run count the cases in which something happened, and the
      stored conclusion is what happened in some case or in none. */
  lemma StoredNumbersAreWhatHappened(cfg: Config, useHash: bool, profile: Profile, settings: Settings,
                                     env: nat -> Env, first: Env, second: Env, at: string, requireGrease: bool)
    requires ValidConfig(cfg) && Distinct(settings.paths)
    requires var report := FullReport(cfg, useHash, profile, settings, env, first, second);
             && MayPublish(report, profile, cfg.paths)
             && SubmissionOf(Payload(report, profile, cfg.paths), at, requireGrease, cfg).Accepted?
    ensures var report := FullReport(cfg, useHash, profile, settings, env, first, second);
            var s := SubmissionOf(Payload(report, profile, cfg.paths), at, requireGrease, cfg).value;
            var n := if profile.constructible then |settings.paths| * |VariantsUsed(cfg, useHash)| else 0;
            && s.run.plannedCases == |settings.paths| * |VariantsUsed(cfg, useHash)|
            && s.run.completedCases == n && s.metrics == Numbers(Trials(env, n))
            && s.conclusion == if profile.constructible then Conclusion(Trials(env, n))
                               else "WebTransport API unavailable"
  {
    hide SubmissionOf, Payload, FullReport, PathAgrees, Metrics, Numbers, Planned, VariantsUsed, Diff.EffectsFromMatrix,
      PairAcceptable, FamilyOf, KeepsVersion, PublicProbe, Distinct, AllCases, Stops, Conclusion, ConclusionFor,
      IsCaseOf;
    var report := FullReport(cfg, useHash, profile, settings, env, first, second);
    PublishedIsAccepted(cfg, useHash, profile, settings, env, first, second, at, requireGrease);
    ConclusionStored(Payload(report, profile, cfg.paths), at, requireGrease, cfg);
    RunSizes(cfg, useHash, profile, settings, env, first, second);
    PlannedIsProduct(cfg, useHash, profile, settings, env, first, second);
    var variants := VariantsUsed(cfg, useHash);
    if profile.constructible {
      CompleteRun(cfg, useHash, profile, settings, env, first, second);
      NoStopSeen(cfg, useHash, profile, settings, env, first, second);
      SettingsKept(cfg, useHash, profile, settings, env, first, second);
      PlannedLength(settings.paths, variants);
      var t := Trials(env, |Planned(settings.paths, variants)|);
      CasesOfTrials(settings.paths, variants, env, t);
      MetricsCount(report.results, t);
      ConclusionIsOfTrials(Capabilities(profile.secureContext, true), t);
    } else {
      MetricsCount([], Trials(env, 0));
    }
  }

  lemma PlannedIsProduct(cfg: Config, useHash: bool, profile: Profile, settings: Settings, env: nat -> Env,
                         first: Env, second: Env)
    requires cfg.axes != []
    ensures FullReport(cfg, useHash, profile, settings, env, first, second).planned ==
            |settings.paths| * |VariantsUsed(cfg, useHash)|
  {
    hide Metrics, AnalyzePaths, DifferentialOf, Planned, VariantsUsed, Cases, RunLength;
  }

  lemma ConclusionStored(input: RawSubmission, at: string, requireGrease: bool, cfg: Config)
    requires SubmissionOf(input, at, requireGrease, cfg).Accepted?
    ensures var s := SubmissionOf(input, at, requireGrease, cfg).value;
            && |s.metrics| == METRICS && s.conclusion == ConclusionFor(s.capabilities, s.metrics)
            && (!s.capabilities.webTransport ==> s.conclusion == "WebTransport API unavailable")
  {
    hide RunOf, PathsOf, NormalizeBrowser, GreaseOf;
  }

  // ------------------------------------------------------------------ GREASE

  /** A probe in the order of the store's keys: constructor, ready, datagram, both streams. */
  function ProbeHappened(env: Env): seq<Outcome> {
    [Happened(env, CONSTRUCTOR), Happened(env, READY), Happened(env, DATAGRAM), Happened(env, BIDI), Happened(env, UNI)]
  }

  lemma ProbeIsWhatHappened(path: string, keys: seq<string>, env: Env)
    requires !Stops(env)
    ensures PublicProbe(Some(CaseOf(path, PROBE_ID, keys, env))) == ProbeHappened(env)
  {
  }

  /** The stored pair of every published run that ran both probes unstopped: the first is the control, the
      second the one with GREASE, and the verdict compares what happened in the two. */
  lemma StoredGreaseIsWhatHappened(cfg: Config, useHash: bool, profile: Profile, settings: Settings,
                                   env: nat -> Env, first: Env, second: Env, at: string, requireGrease: bool,
                                   s: Snapshot)
    requires ValidConfig(cfg) && Distinct(settings.paths) && profile.constructible
    requires var report := FullReport(cfg, useHash, profile, settings, env, first, second);
             && MayPublish(report, profile, cfg.paths)
             && SubmissionOf(Payload(report, profile, cfg.paths), at, requireGrease, cfg) == Accepted(s)
    requires s.grease.Some? && !Stops(first) && !Stops(second)
    ensures s.grease.value.control == ProbeHappened(first) && s.grease.value.enabled == ProbeHappened(second)
    ensures s.grease.value.verdict ==
            if !Reached(first) then ControlFailed
            else if !Reached(second) then Affected
            else if first.datagram != second.datagram || first.bidi != second.bidi || first.uni != second.uni then
              Degraded
            else Tolerant
  {
    hide SubmissionOf, FullReport, PathAgrees, Metrics, Planned, VariantsUsed, Diff.EffectsFromMatrix,
      PairAcceptable, FamilyOf, KeepsVersion, Distinct, Stops, MayPublish, PublicProbe, CaseOf, GreaseVerdict,
      DifferentialOf, VerdictFor, ProbeHappened, PublicPaths, PublicGrease, CountLeaves, MajorVersion;
    var report := FullReport(cfg, useHash, profile, settings, env, first, second);
    var keys := Keys(cfg)[..|cfg.axes| - 1];
    PublishedIsAccepted(cfg, useHash, profile, settings, env, first, second, at, requireGrease);
    RunSizes(cfg, useHash, profile, settings, env, first, second);
    BothProbes(WantsGrease(settings), settings.greaseUsable, keys, settings.greasePath, first, second);
    ProbeIsWhatHappened(settings.greasePath, keys, first);
    ProbeIsWhatHappened(settings.greasePath, keys, second);
    VerdictStored(Payload(report, profile, cfg.paths), at, requireGrease, cfg, true);
    VerdictOf(first, second);
  }

  lemma BothProbes(wanted: bool, configured: bool, keys: seq<string>, path: string, first: Env, second: Env)
    requires !Stops(first)
    ensures var d := DifferentialOf(wanted, configured, true, false, keys, path, first, second);
            d.Some? ==> d.value.control == Some(CaseOf(path, PROBE_ID, keys, first))
                        && d.value.enabled == Some(CaseOf(path, PROBE_ID, keys, second))
  {
    hide CaseOf, GreaseVerdict;
  }

  lemma VerdictOf(first: Env, second: Env)
    ensures VerdictFor(ProbeHappened(first), ProbeHappened(second), true) ==
            if !Reached(first) then ControlFailed
            else if !Reached(second) then Affected
            else if first.datagram != second.datagram || first.bidi != second.bidi || first.uni != second.uni then
              Degraded
            else Tolerant
  {
    var a, b := ProbeHappened(first), ProbeHappened(second);
    if Reached(first) && Reached(second) {
      assert a == b <==> a[2] == b[2] && a[3] == b[3] && a[4] == b[4];
    }
  }
}
