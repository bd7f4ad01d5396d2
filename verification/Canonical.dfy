/** What the store keeps: the exact range of the sanitizer, its idempotence, and its indifference to
    the order of submission. */
module Canonical {
  import opened Lists
  import opened Masks
  import opened Results
  import opened Sanitize

  ghost predicate CanonicalBrowser(b: Browser) {
    && FamilyOf(Str(b.name)) == (b.key, b.name)
    && (b.version.Some? ==> b.version.value != "" && LeadingDigits(b.version.value, 4) == b.version.value)
  }

  ghost predicate CanonicalRun(r: Run, webTransport: bool) {
    && 0 < r.plannedCases <= MAX_COUNT
    && r.completedCases == if webTransport then r.plannedCases else 0
  }

  ghost predicate CanonicalCounts(counts: seq<nat>, n: nat, bound: nat) {
    |counts| == n && forall k :: 0 <= k < n ==> counts[k] <= bound <= MAX_COUNT
  }

  ghost predicate CanonicalMatrix(cs: seq<Combination>, total: nat, keys: seq<string>) {
    && |cs| == total && (total == 0 || SupportedSize(total))
    && forall m :: 0 <= m < total ==>
      |cs[m].stages| == STAGES && cs[m] == Combination(m, OptionsOf(m, keys), cs[m].stages)
  }

  ghost predicate CanonicalRatio(r: Ratio) {
    r.ready <= r.total <= MAX_COUNT
  }

  ghost predicate CanonicalEffects(es: seq<Effect>, cfg: Config) {
    && |es| <= |cfg.axes|
    && (forall i :: 0 <= i < |es| ==>
        es[i].key in Keys(cfg) && CanonicalRatio(es[i].withOption) && CanonicalRatio(es[i].withoutOption))
    && (forall i, j :: 0 <= i < j < |es| ==> es[i].key != es[j].key)
  }

  ghost predicate CanonicalPath(p: PathResult, path: string, webTransport: bool, cfg: Config) {
    && p.path == path && p.total <= MAX_COUNT
    && CanonicalCounts(p.counts, PATH_METRICS, p.total)
    && CanonicalEffects(p.effects, cfg)
    && CanonicalMatrix(p.combinations, p.total, Keys(cfg))
    && CountsMatch(p.counts, p.combinations)
    && p.signal == OptionSignal(p.total, p.counts[READY], p.effects, webTransport, cfg)
  }

  ghost predicate CanonicalPaths(ps: seq<PathResult>, paths: seq<string>, webTransport: bool, cfg: Config) {
    |ps| == |paths| && forall i :: 0 <= i < |ps| ==> CanonicalPath(ps[i], paths[i], webTransport, cfg)
  }

  ghost predicate CanonicalGrease(g: Grease, webTransport: bool) {
    && |g.control| == STAGES && |g.enabled| == STAGES && LegalProbe(g.control) && LegalProbe(g.enabled)
    && (!webTransport ==> NothingRan(g.control) && NothingRan(g.enabled))
    && g.verdict == VerdictFor(g.control, g.enabled, webTransport)
  }

  /** The snapshots the store can hold. The derived fields are functions of the others. */
  ghost predicate CanonicalSnapshot(s: Snapshot, cfg: Config) {
    var wt := s.capabilities.webTransport;
    && CanonicalBrowser(s.browser) && CanonicalRun(s.run, wt)
    && CanonicalCounts(s.metrics, METRICS, s.run.completedCases)
    && s.conclusion == ConclusionFor(s.capabilities, s.metrics)
    && CanonicalPaths(s.paths, cfg.paths, wt, cfg) && SumTotals(s.paths) == s.run.completedCases
    && (s.grease.Some? ==> CanonicalGrease(s.grease.value, wt))
  }

  // ------------------------------------------------------------------ soundness

  lemma CountsAreCanonical(leaves: seq<Leaf>, n: nat, bound: nat)
    requires CountsOf(leaves, n, bound).Accepted? && bound <= MAX_COUNT
    ensures CanonicalCounts(CountsOf(leaves, n, bound).value, n, bound)
  {
    var counts := CountsOf(leaves, n, bound).value;
    forall k | 0 <= k < n ensures counts[k] <= bound {
      assert CountAtMost(At(leaves, k), bound);
    }
  }

  lemma FamilyIsFixed(name: Leaf)
    ensures var (key, family) := FamilyOf(name); FamilyOf(Str(family)) == (key, family)
  {
    hide FamilyOf;
    FamilyCases(name);
    FamilyOfNames();
  }

  lemma FamilyCases(name: Leaf)
    ensures FamilyOf(name) in {("brave", "Brave"), ("chrome", "Chrome"), ("firefox", "Firefox"),
                               ("edge", "Microsoft Edge"), ("safari", "Safari"), ("other", "Other")}
  {
    hide N.Lower;
  }

  lemma FamilyOfNames()
    ensures FamilyOf(Str("Brave")) == ("brave", "Brave") && FamilyOf(Str("Chrome")) == ("chrome", "Chrome")
    ensures FamilyOf(Str("Firefox")) == ("firefox", "Firefox") && FamilyOf(Str("Safari")) == ("safari", "Safari")
    ensures FamilyOf(Str("Microsoft Edge")) == ("edge", "Microsoft Edge")
      && FamilyOf(Str("Other")) == ("other", "Other")
  {
    assert N.Lower("Brave") == "brave";
    assert N.Lower("Chrome") == "chrome";
    assert N.Lower("Firefox") == "firefox";
    assert N.Lower("Safari") == "safari";
    assert N.Lower("Microsoft Edge") == "microsoft edge";
    assert N.Lower("Other") == "other";
    FamilyKeys();
  }

  /** The five families, whatever the case of the letters; everything else is "other". */
  lemma FamiliesExactly(name: Leaf)
    ensures var lower := if name.Str? then N.Lower(name.s) else "";
            FamilyOf(name) ==
            if lower == "brave" then ("brave", "Brave")
            else if lower == "chrome" then ("chrome", "Chrome")
            else if lower == "firefox" then ("firefox", "Firefox")
            else if lower == "microsoft edge" then ("edge", "Microsoft Edge")
            else if lower == "safari" then ("safari", "Safari")
            else ("other", "Other")
  {
    hide N.Lower;
    FamilyKeys();
  }

  lemma FamilyKeys()
    ensures "other" !in FAMILIES
    ensures "brave" in FAMILIES && FAMILIES["brave"] == ("brave", "Brave")
    ensures "chrome" in FAMILIES && FAMILIES["chrome"] == ("chrome", "Chrome")
    ensures "firefox" in FAMILIES && FAMILIES["firefox"] == ("firefox", "Firefox")
    ensures "safari" in FAMILIES && FAMILIES["safari"] == ("safari", "Safari")
    ensures "microsoft edge" in FAMILIES && FAMILIES["microsoft edge"] == ("edge", "Microsoft Edge")
  {
    assert "other"[0] == 'o' && "brave"[0] == 'b' && "chrome"[0] == 'c' && "firefox"[0] == 'f' && "safari"[0] == 's'
           && "microsoft edge"[0] == 'm';
  }

  lemma {:induction false} DigitsAreFixed(s: string, max: nat)
    ensures LeadingDigits(LeadingDigits(s, max), max) == LeadingDigits(s, max)
  {
    if max > 0 && s != [] && IsDigit(s[0]) {
      DigitsAreFixed(s[1..], max - 1);
      assert LeadingDigits(s, max)[1..] == LeadingDigits(s[1..], max - 1);
    }
  }

  lemma MatrixIsCanonical(input: RawList<RawCombination>, total: nat, keys: seq<string>)
    requires MatrixOf(input, total, keys).Accepted?
    ensures CanonicalMatrix(MatrixOf(input, total, keys).value, total, keys)
  {
  }

  lemma EffectsAreCanonical(input: RawList<RawEffect>, cfg: Config)
    requires EffectsOf(input, cfg).Accepted?
    ensures CanonicalEffects(EffectsOf(input, cfg).value, cfg)
  {
    if input.Items? {
      var items := input.items;
      var es := Map(items, EffectFor);
      forall i | 0 <= i < |es|
        ensures es[i].key in Keys(cfg) && CanonicalRatio(es[i].withOption) && CanonicalRatio(es[i].withoutOption)
        ensures Str(es[i].key) == items[i].key
      {
        assert LegalEffect(items[i], cfg);
      }
    }
  }

  lemma PathIsCanonical(item: RawPath, path: string, webTransport: bool, cfg: Config)
    requires PathOf(item, path, webTransport, cfg).Accepted?
    ensures CanonicalPath(PathOf(item, path, webTransport, cfg).value, path, webTransport, cfg)
  {
    hide CountsMatch, OptionSignal, MatrixOf, EffectsOf, CountsOf, CanonicalMatrix, CanonicalEffects, CanonicalCounts;
    var total := CountOf(item.total).value;
    CountsAreCanonical(item.counts, PATH_METRICS, total);
    EffectsAreCanonical(item.effects, cfg);
    MatrixIsCanonical(item.combinations, total, Keys(cfg));
  }

  lemma {:induction false} PathsAreCanonical(items: seq<RawPath>, paths: seq<string>, webTransport: bool, cfg: Config)
    requires AllPresent(items, paths) && PathResults(items, paths, webTransport, cfg).Accepted?
    ensures CanonicalPaths(PathResults(items, paths, webTransport, cfg).value, paths, webTransport, cfg)
  {
    hide PathOf, CanonicalPath;
    if paths != [] {
      var n := |paths| - 1;
      PathsAreCanonical(items, paths[..n], webTransport, cfg);
      PathIsCanonical(items[IndexOfPath(items, paths[n])], paths[n], webTransport, cfg);
    }
  }

  lemma ProbeIsLegal(leaves: seq<Leaf>)
    requires ProbeOf(leaves).Accepted?
    ensures |ProbeOf(leaves).value| == STAGES && LegalProbe(ProbeOf(leaves).value)
  {
  }

  lemma GreaseIsCanonical(input: RawGrease, webTransport: bool)
    requires GreaseOf(input, webTransport).Accepted? && GreaseOf(input, webTransport).value.Some?
    ensures CanonicalGrease(GreaseOf(input, webTransport).value.value, webTransport)
  {
    hide ProbeOf, LegalProbe, VerdictFor, NothingRan;
    ProbeIsLegal(input.control);
    ProbeIsLegal(input.enabled);
  }

  /** Everything the store accepts becomes a canonical snapshot. */
  lemma AcceptedIsCanonical(input: RawSubmission, receivedAt: string, requireGrease: bool, cfg: Config)
    requires SubmissionOf(input, receivedAt, requireGrease, cfg).Accepted?
    ensures CanonicalSnapshot(SubmissionOf(input, receivedAt, requireGrease, cfg).value, cfg)
    ensures SubmissionOf(input, receivedAt, requireGrease, cfg).value.receivedAt == receivedAt
  {
    hide FamilyOf, LeadingDigits, CountsOf, PathResults, CanonicalPaths, CanonicalGrease, CanonicalCounts, GreaseOf,
      ConclusionFor, SumTotals;
    var s := SubmissionOf(input, receivedAt, requireGrease, cfg).value;
    FamilyIsFixed(input.browserName);
    DigitsAreFixed(input.browserVersion, 4);
    CountsAreCanonical(input.metrics, METRICS, s.run.completedCases);
    PathsAreCanonical(input.paths.items, cfg.paths, s.capabilities.webTransport, cfg);
    if s.grease.Some? { GreaseIsCanonical(input.grease, s.capabilities.webTransport); }
  }

  // ------------------------------------------------------------------ idempotence

  function RatioToRaw(r: Ratio): RawRatio {
    RawRatio(Num(r.ready), Num(r.total))
  }

  function EffectToRaw(e: Effect): RawEffect {
    RawEffect(Str(e.key), RatioToRaw(e.withOption), RatioToRaw(e.withoutOption))
  }

  function CombinationToRaw(c: Combination): RawCombination {
    RawCombination(Num(c.mask), Items(Map(c.options, (k: string) => Str(k))), OutcomeLeaves(c.stages))
  }

  function PathToRaw(p: PathResult): RawPath {
    RawPath(Str(p.path), Num(p.total), CountLeaves(p.counts), Items(Map(p.effects, EffectToRaw)),
            Items(Map(p.combinations, CombinationToRaw)))
  }

  function GreaseToRaw(grease: Option<Grease>): RawGrease {
    if grease.None? then Absent
    else Given(OutcomeLeaves(grease.value.control), OutcomeLeaves(grease.value.enabled))
  }

  /** A stored snapshot submitted again, with the schema version put back. */
  function ToRaw(s: Snapshot): RawSubmission {
    RawSubmission(
      Num(RESULT_SCHEMA_VERSION),
      Str(s.browser.name), if s.browser.version.Some? then s.browser.version.value else "",
      Bool(s.capabilities.secureContext), Bool(s.capabilities.webTransport),
      Str("exhaustive"), Bool(false), Num(s.run.plannedCases), Num(s.run.completedCases),
      CountLeaves(s.metrics),
      Items(Map(s.paths, PathToRaw)),
      GreaseToRaw(s.grease))
  }

  lemma CountsBack(counts: seq<nat>, n: nat, bound: nat)
    requires CanonicalCounts(counts, n, bound)
    ensures CountsOf(CountLeaves(counts), n, bound) == Accepted(counts)
  {
    var leaves := CountLeaves(counts);
    forall k | 0 <= k < n ensures CountAtMost(At(leaves, k), bound) && CountOf(At(leaves, k)) == Accepted(counts[k]) {
      assert leaves[k] == Num(counts[k]);
    }
    assert seq(n, k requires 0 <= k < n => ValueOr(CountOf(At(leaves, k)), 0)) == counts;
  }

  lemma OutcomesBack(stages: seq<Outcome>)
    requires |stages| == STAGES
    ensures forall k :: 0 <= k < STAGES ==> OutcomeOf(At(OutcomeLeaves(stages), k)) == Accepted(stages[k])
    ensures StagesOf(OutcomeLeaves(stages)) == stages
  {
    hide OutcomeOf, OutcomeText;
    var leaves := OutcomeLeaves(stages);
    forall k | 0 <= k < STAGES ensures OutcomeOf(At(leaves, k)) == Accepted(stages[k]) {
      OutcomeRoundTrip(stages[k]);
      assert leaves[k] == Str(OutcomeText(stages[k]));
    }
  }

  lemma EffectsBack(es: seq<Effect>, cfg: Config)
    requires CanonicalEffects(es, cfg)
    ensures EffectsOf(Items(Map(es, EffectToRaw)), cfg) == Accepted(es)
  {
    var items := Map(es, EffectToRaw);
    forall i | 0 <= i < |es| ensures LegalEffect(items[i], cfg) && EffectFor(items[i]) == es[i] {
    }
    assert Map(items, EffectFor) == es;
  }

  lemma MatrixBack(cs: seq<Combination>, total: nat, keys: seq<string>)
    requires CanonicalMatrix(cs, total, keys)
    ensures MatrixOf(Items(Map(cs, CombinationToRaw)), total, keys) == Accepted(cs)
  {
    hide OptionsOf, OutcomeOf, StagesOf, OutcomeLeaves;
    var items := Map(cs, CombinationToRaw);
    forall m | 0 <= m < total ensures LegalCombination(items[m], total, keys) && EntryFor(items, m, keys) == cs[m] {
      OutcomesBack(cs[m].stages);
      assert items[m].mask == Num(m);
      var i := IndexOfMask(items, m);
      assert i <= m;
      assert items[i].mask == Num(i);
    }
    assert Arranged(items, total, keys) == cs;
  }

  lemma PathBack(p: PathResult, path: string, webTransport: bool, cfg: Config)
    requires CanonicalPath(p, path, webTransport, cfg)
    ensures PathOf(PathToRaw(p), path, webTransport, cfg) == Accepted(p)
  {
    hide CountsMatch, OptionSignal, MatrixOf, EffectsOf, CountsOf, CountLeaves, CanonicalMatrix, CanonicalEffects;
    CountsBack(p.counts, PATH_METRICS, p.total);
    EffectsBack(p.effects, cfg);
    MatrixBack(p.combinations, p.total, Keys(cfg));
  }

  lemma ItemBack(ps: seq<PathResult>, webTransport: bool, cfg: Config, k: nat)
    requires Distinct(cfg.paths) && k < |ps| && CanonicalPaths(ps, cfg.paths, webTransport, cfg)
    ensures var items := Map(ps, PathToRaw);
            var i := IndexOfPath(items, cfg.paths[k]);
            i < |items| && PathOf(items[i], cfg.paths[k], webTransport, cfg) == Accepted(ps[k])
  {
    hide PathOf, CanonicalPath, PathToRaw;
    var items := Map(ps, PathToRaw);
    PathBack(ps[k], cfg.paths[k], webTransport, cfg);
    PathNames(ps, cfg.paths, webTransport, cfg);
    assert items[k].path == Str(cfg.paths[k]);
    var i := IndexOfPath(items, cfg.paths[k]);
    assert i <= k && items[i].path == Str(cfg.paths[i]);
  }

  lemma {:induction false} PathsBack(ps: seq<PathResult>, webTransport: bool, cfg: Config, n: nat)
    requires Distinct(cfg.paths) && n <= |ps| && CanonicalPaths(ps, cfg.paths, webTransport, cfg)
    ensures var items := Map(ps, PathToRaw);
            AllPresent(items, cfg.paths[..n]) &&
            PathResults(items, cfg.paths[..n], webTransport, cfg) == Accepted(ps[..n])
  {
    hide PathOf, CanonicalPath, PathResults, IndexOfPath, PathToRaw, Map, Distinct;
    var items := Map(ps, PathToRaw);
    if n == 0 {
      NoPaths(items, cfg.paths[..0], webTransport, cfg);
    } else {
      var k := n - 1;
      PathsBack(ps, webTransport, cfg, k);
      ItemBack(ps, webTransport, cfg, k);
      PathResultsSnoc(items, cfg.paths[..k], cfg.paths[k], webTransport, cfg, ps[..k], ps[k]);
      assert cfg.paths[..n] == cfg.paths[..k] + [cfg.paths[k]] && ps[..n] == ps[..k] + [ps[k]];
    }
  }

  lemma PathNames(ps: seq<PathResult>, paths: seq<string>, webTransport: bool, cfg: Config)
    requires CanonicalPaths(ps, paths, webTransport, cfg)
    ensures forall i :: 0 <= i < |ps| ==> PathToRaw(ps[i]).path == Str(paths[i])
  {
    forall i | 0 <= i < |ps| ensures PathToRaw(ps[i]).path == Str(paths[i]) {
      assert CanonicalPath(ps[i], paths[i], webTransport, cfg);
    }
  }

  lemma ProbeBack(p: seq<Outcome>)
    requires |p| == STAGES && LegalProbe(p)
    ensures ProbeOf(OutcomeLeaves(p)) == Accepted(p)
  {
    hide OutcomeOf, StagesOf, OutcomeLeaves;
    OutcomesBack(p);
  }

  lemma GreaseBack(g: Grease, webTransport: bool)
    requires CanonicalGrease(g, webTransport)
    ensures GreaseOf(Given(OutcomeLeaves(g.control), OutcomeLeaves(g.enabled)), webTransport) == Accepted(Some(g))
  {
    hide ProbeOf, OutcomeLeaves;
    ProbeBack(g.control);
    ProbeBack(g.enabled);
  }

  /** Sanitizing is idempotent: a canonical snapshot, submitted again, is accepted unchanged. With
      AcceptedIsCanonical this makes the canonical snapshots the exact range of the sanitizer. */
  lemma CanonicalIsFixed(s: Snapshot, requireGrease: bool, cfg: Config)
    requires Distinct(cfg.paths) && CanonicalSnapshot(s, cfg)
    requires requireGrease ==> s.grease.Some?
    ensures SubmissionOf(ToRaw(s), s.receivedAt, requireGrease, cfg) == Accepted(s)
  {
    hide NormalizeBrowser, RunOf, CountsOf, PathsOf, GreaseOf, ConclusionFor, CanonicalBrowser, CanonicalRun,
      CanonicalCounts, CanonicalPaths, CanonicalGrease, SumTotals, PathToRaw, CountLeaves, OutcomeLeaves;
    BrowserBack(s.browser);
    RunBack(s.run, s.capabilities);
    MetricsBack(s);
    AllPathsBack(s, cfg);
    MaybeGreaseBack(s.grease, s.capabilities.webTransport);
  }

  lemma MaybeGreaseBack(grease: Option<Grease>, webTransport: bool)
    requires grease.Some? ==> CanonicalGrease(grease.value, webTransport)
    ensures GreaseOf(GreaseToRaw(grease), webTransport) == Accepted(grease)
  {
    hide OutcomeLeaves, CanonicalGrease;
    if grease.Some? { GreaseBack(grease.value, webTransport); }
  }

  lemma BrowserBack(b: Browser)
    requires CanonicalBrowser(b)
    ensures NormalizeBrowser(Str(b.name), if b.version.Some? then b.version.value else "") == b
  {
    hide FamilyOf;
  }

  lemma RunBack(r: Run, caps: Capabilities)
    requires CanonicalRun(r, caps.webTransport)
    ensures RunOf(Str("exhaustive"), Bool(false), Num(r.plannedCases), Num(r.completedCases), caps) == Accepted(r)
  {
  }

  lemma MetricsBack(s: Snapshot)
    requires CanonicalRun(s.run, s.capabilities.webTransport)
      && CanonicalCounts(s.metrics, METRICS, s.run.completedCases)
    ensures |s.metrics| == METRICS
    ensures CountsOf(CountLeaves(s.metrics), METRICS, s.run.completedCases) == Accepted(s.metrics)
  {
    CountsBack(s.metrics, METRICS, s.run.completedCases);
  }

  lemma AllPathsBack(s: Snapshot, cfg: Config)
    requires Distinct(cfg.paths) && CanonicalPaths(s.paths, cfg.paths, s.capabilities.webTransport, cfg)
    requires SumTotals(s.paths) == s.run.completedCases
    ensures PathsOf(Items(Map(s.paths, PathToRaw)), s.run.completedCases, s.capabilities.webTransport, cfg) ==
      Accepted(s.paths)
  {
    hide PathResults, CanonicalPath, PathToRaw, SumTotals;
    assert |s.paths| == |cfg.paths|;
    PathsBack(s.paths, s.capabilities.webTransport, cfg, |cfg.paths|);
    assert cfg.paths[..|cfg.paths|] == cfg.paths && s.paths[..|s.paths|] == s.paths;
  }

  // ------------------------------------------------------------------ order of submission

  lemma MemberOfPermuted<T>(s: seq<T>, t: seq<T>, x: T)
    requires Permutation(s, t)
    ensures x in s <==> x in t
  {
    assert x in s <==> x in multiset(s);
    assert x in t <==> x in multiset(t);
  }

  lemma LegalPermuted(s: seq<RawCombination>, t: seq<RawCombination>, total: nat, keys: seq<string>)
    requires Permutation(s, t) && LegalMatrix(s, total, keys)
    ensures LegalMatrix(t, total, keys)
  {
    hide LegalCombination;
    assert |multiset(s)| == |s| && |multiset(t)| == |t|;
    if total != 0 {
      assert Distinct(s);
      DistinctMultiset(s);
      DistinctMultiset(t);
      forall i | 0 <= i < total ensures LegalCombination(t[i], total, keys) {
        MemberOfPermuted(s, t, t[i]);
      }
      forall i, j | 0 <= i < j < total ensures t[i].mask != t[j].mask {
        MemberOfPermuted(s, t, t[i]);
        MemberOfPermuted(s, t, t[j]);
        assert t[i] != t[j];
      }
    }
  }

  lemma ArrangedPermuted(s: seq<RawCombination>, t: seq<RawCombination>, total: nat, keys: seq<string>)
    requires Permutation(s, t) && LegalMatrix(s, total, keys) && LegalMatrix(t, total, keys)
    ensures Arranged(s, total, keys) == Arranged(t, total, keys)
  {
    hide LegalCombination, OptionsOf, StagesOf;
    forall m | 0 <= m < total ensures EntryFor(s, m, keys) == EntryFor(t, m, keys) {
      var i, j := IndexOfMask(s, m), IndexOfMask(t, m);
      if i < total {
        MemberOfPermuted(s, t, s[i]);
        var k :| 0 <= k < total && t[k] == s[i];
        assert j <= k;
      }
      if j < total {
        MemberOfPermuted(s, t, t[j]);
        var k :| 0 <= k < total && s[k] == t[j];
        assert i == k;
      }
    }
  }

  lemma MatrixPermuted(s: seq<RawCombination>, t: seq<RawCombination>, total: nat, keys: seq<string>)
    requires Permutation(s, t)
    ensures MatrixOf(Items(s), total, keys) == MatrixOf(Items(t), total, keys)
  {
    hide LegalMatrix, Arranged;
    if LegalMatrix(s, total, keys) {
      LegalPermuted(s, t, total, keys);
      ArrangedPermuted(s, t, total, keys);
    }
    if LegalMatrix(t, total, keys) {
      LegalPermuted(t, s, total, keys);
    }
  }

  /** Two path entries that differ only in the order of their option matrix. */
  ghost predicate Alike(a: RawPath, b: RawPath) {
    && a.(combinations := b.combinations) == b
    && (a.combinations == b.combinations ||
        (a.combinations.Items? && b.combinations.Items? && Permutation(a.combinations.items, b.combinations.items)))
  }

  lemma PathAlike(a: RawPath, b: RawPath, path: string, webTransport: bool, cfg: Config)
    requires Alike(a, b)
    ensures PathOf(a, path, webTransport, cfg) == PathOf(b, path, webTransport, cfg)
  {
    hide MatrixOf, CountsOf, EffectsOf, CountsMatch, OptionSignal;
    if a.combinations != b.combinations {
      forall total: nat {
        MatrixPermuted(a.combinations.items, b.combinations.items, total, Keys(cfg));
      }
    }
  }

  lemma PresentPermuted(s: seq<RawPath>, t: seq<RawPath>, paths: seq<string>)
    requires Permutation(s, t)
    ensures AllPresent(s, paths) ==> AllPresent(t, paths)
  {
    assert |multiset(s)| == |s| && |multiset(t)| == |t|;
    if AllPresent(s, paths) {
      forall i | 0 <= i < |paths| ensures IndexOfPath(t, paths[i]) < |t| {
        var k := IndexOfPath(s, paths[i]);
        MemberOfPermuted(s, t, s[k]);
        var j :| 0 <= j < |t| && t[j] == s[k];
        assert t[j].path == Str(paths[i]);
      }
    }
  }

  lemma SamePosition(s: seq<RawPath>, i: nat, k: nat)
    requires forall i, j :: 0 <= i < j < |s| ==> s[i].path != s[j].path
    requires i < |s| && k < |s| && s[i].path == s[k].path
    ensures i == k
  {
  }

  lemma SameItem(s: seq<RawPath>, t: seq<RawPath>, path: string)
    requires Permutation(s, t) && IndexOfPath(s, path) < |s| && IndexOfPath(t, path) < |t|
    requires forall i, j :: 0 <= i < j < |s| ==> s[i].path != s[j].path
    ensures s[IndexOfPath(s, path)] == t[IndexOfPath(t, path)]
  {
    var i, j := IndexOfPath(s, path), IndexOfPath(t, path);
    MemberOfPermuted(s, t, t[j]);
    var k :| 0 <= k < |s| && s[k] == t[j];
    SamePosition(s, i, k);
  }

  lemma {:induction false} ResultsPermuted(s: seq<RawPath>, t: seq<RawPath>, paths: seq<string>, webTransport: bool,
                                           cfg: Config)
    requires Permutation(s, t) && AllPresent(s, paths) && AllPresent(t, paths)
    requires forall i, j :: 0 <= i < j < |s| ==> s[i].path != s[j].path
    ensures PathResults(s, paths, webTransport, cfg) == PathResults(t, paths, webTransport, cfg)
  {
    hide PathOf;
    if paths != [] {
      var n := |paths| - 1;
      ResultsPermuted(s, t, paths[..n], webTransport, cfg);
      assert IndexOfPath(s, paths[n]) < |s| && IndexOfPath(t, paths[n]) < |t|;
      SameItem(s, t, paths[n]);
    }
  }

  lemma PathsPermuted(s: seq<RawPath>, t: seq<RawPath>, completed: nat, webTransport: bool, cfg: Config)
    requires Distinct(cfg.paths) && Permutation(s, t)
    ensures PathsOf(Items(s), completed, webTransport, cfg) == PathsOf(Items(t), completed, webTransport, cfg)
  {
    hide PathResults, SumTotals;
    assert |multiset(s)| == |s| && |multiset(t)| == |t|;
    PresentPermuted(s, t, cfg.paths);
    PresentPermuted(t, s, cfg.paths);
    if |s| == |cfg.paths| && AllPresent(s, cfg.paths) {
      PresentIsDistinct(s, cfg.paths);
      ResultsPermuted(s, t, cfg.paths, webTransport, cfg);
    }
  }

  lemma {:induction false} SameIndex(s: seq<RawPath>, t: seq<RawPath>, path: string)
    requires |s| == |t| && (forall i :: 0 <= i < |s| ==> Alike(s[i], t[i]))
    ensures IndexOfPath(s, path) == IndexOfPath(t, path)
  {
    if s != [] {
      assert Alike(s[0], t[0]);
      SameIndex(s[1..], t[1..], path);
    }
  }

  lemma {:induction false} ResultsAlike(s: seq<RawPath>, t: seq<RawPath>, paths: seq<string>, webTransport: bool,
                                        cfg: Config)
    requires |s| == |t| && (forall i :: 0 <= i < |s| ==> Alike(s[i], t[i]))
    ensures AllPresent(s, paths) <==> AllPresent(t, paths)
    ensures AllPresent(s, paths) ==>
      PathResults(s, paths, webTransport, cfg) == PathResults(t, paths, webTransport, cfg)
  {
    hide PathOf;
    forall p: string ensures IndexOfPath(s, p) == IndexOfPath(t, p) {
      SameIndex(s, t, p);
    }
    if paths != [] && AllPresent(s, paths) {
      var n := |paths| - 1;
      ResultsAlike(s, t, paths[..n], webTransport, cfg);
      var i := IndexOfPath(s, paths[n]);
      assert i < |s|;
      PathAlike(s[i], t[i], paths[n], webTransport, cfg);
    }
  }

  /** The order in which paths, and combinations within a path, are submitted does not matter. */
  lemma OrderInsensitive(input: RawSubmission, s: seq<RawPath>, shuffled: seq<RawPath>, t: seq<RawPath>,
                         receivedAt: string, requireGrease: bool, cfg: Config)
    requires Distinct(cfg.paths) && Permutation(s, shuffled)
    requires |shuffled| == |t| && forall i :: 0 <= i < |t| ==> Alike(shuffled[i], t[i])
    ensures SubmissionOf(input.(paths := Items(s)), receivedAt, requireGrease, cfg)
         == SubmissionOf(input.(paths := Items(t)), receivedAt, requireGrease, cfg)
  {
    hide PathsOf, CountsOf, GreaseOf, RunOf, NormalizeBrowser, ConclusionFor;
    forall completed: nat, wt: bool
      ensures PathsOf(Items(s), completed, wt, cfg) == PathsOf(Items(t), completed, wt, cfg)
    {
      PathsPermuted(s, shuffled, completed, wt, cfg);
      PathsAlike(shuffled, t, completed, wt, cfg);
    }
  }

  lemma PathsAlike(s: seq<RawPath>, t: seq<RawPath>, completed: nat, webTransport: bool, cfg: Config)
    requires |s| == |t| && (forall i :: 0 <= i < |s| ==> Alike(s[i], t[i]))
    ensures PathsOf(Items(s), completed, webTransport, cfg) == PathsOf(Items(t), completed, webTransport, cfg)
  {
    hide PathResults, SumTotals, Alike, AllPresent;
    ResultsAlike(s, t, cfg.paths, webTransport, cfg);
  }
}
