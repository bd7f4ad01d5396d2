/** What the store accepts, in terms of the submitted JSON alone: every bound, every count against the
    submitted option matrix, every outcome shape. */
module Acceptance {
  import opened Lists
  import opened Masks
  import opened Results
  import opened Sanitize
  import Canonical

  /** A whole number from 0 up to the bound, and never above 4096. */
  predicate IsCount(l: Leaf, bound: nat) {
    l.Num? && 0 <= l.n <= bound && l.n <= 4096
  }

  predicate IsOutcome(l: Leaf) {
    l in {Str("pass"), Str("fail"), Str("unavailable"), Str("not-run")}
  }

  /** An entry of an option matrix: a mask, the options of its bits, five outcomes. */
  predicate GoodCombination(c: RawCombination, total: nat, keys: seq<string>) {
    && c.mask.Num? && 0 <= c.mask.n < total
    && c.options == Items(Map(OptionsOf(c.mask.n, keys), (key: string) => Str(key)))
    && IsOutcome(At(c.stages, 0)) && IsOutcome(At(c.stages, 1)) && IsOutcome(At(c.stages, 2))
    && IsOutcome(At(c.stages, 3)) && IsOutcome(At(c.stages, 4))
  }

  ghost predicate GoodMatrix(items: seq<RawCombination>, total: nat, keys: seq<string>) {
    && |items| == total && (total == 0 || total == 16 || total == 32)
    && (forall i :: 0 <= i < total ==> GoodCombination(items[i], total, keys))
    && (forall i, j :: 0 <= i < j < total ==> items[i].mask != items[j].mask)
  }

  /** In how many submitted entries stage k has the given outcome. */
  function Submitted(items: seq<RawCombination>, k: nat, text: string): nat {
    |Where(items, (c: RawCombination) => At(c.stages, k) == Str(text))|
  }

  /** The six counts are those of the option matrix: passes of the constructor, of ready, of both
      streams and of the datagram, and a datagram API that is not there. */
  ghost predicate CountsOfMatrix(counts: seq<Leaf>, items: seq<RawCombination>) {
    && At(counts, 0) == Num(Submitted(items, 0, "pass"))
    && At(counts, 1) == Num(Submitted(items, 1, "pass"))
    && At(counts, 2) == Num(Submitted(items, 2, "pass"))
    && At(counts, 3) == Num(Submitted(items, 3, "pass"))
    && At(counts, 4) == Num(Submitted(items, 4, "pass"))
    && At(counts, 5) == Num(Submitted(items, 4, "unavailable"))
  }

  predicate GoodRatio(r: RawRatio) {
    IsCount(r.total, 4096) && IsCount(r.ready, r.total.n)
  }

  ghost predicate GoodEffects(effects: RawList<RawEffect>, cfg: Config) {
    effects.Missing? ||
    (&& effects.Items? && |effects.items| <= |cfg.axes|
     && (forall e :: e in effects.items ==>
           e.key.Str? && e.key.s in Keys(cfg) && GoodRatio(e.withOption) && GoodRatio(e.withoutOption))
     && (forall i, j :: 0 <= i < j < |effects.items| ==> effects.items[i].key != effects.items[j].key))
  }

  ghost predicate GoodPath(item: RawPath, cfg: Config) {
    && IsCount(item.total, 4096) && GoodEffects(item.effects, cfg)
    && item.combinations.Items? && GoodMatrix(item.combinations.items, item.total.n, Keys(cfg))
    && CountsOfMatrix(item.counts, item.combinations.items)
  }

  ghost predicate IsItemFor(items: seq<RawPath>, path: string, j: nat) {
    j < |items| && items[j].path == Str(path)
  }

  /** The sum of the totals given for the listed paths. */
  function TotalsOf(items: seq<RawPath>, paths: seq<string>): int {
    if paths == [] then 0
    else
      var j := IndexOfPath(items, paths[|paths| - 1]);
      TotalsOf(items, paths[..|paths| - 1]) + if j < |items| && items[j].total.Num? then items[j].total.n else 0
  }

  ghost predicate GoodPaths(paths: RawList<RawPath>, completed: int, cfg: Config) {
    && paths.Items? && |paths.items| == |cfg.paths|
    && (forall p :: p in cfg.paths ==> exists j: nat :: IsItemFor(paths.items, p, j))
    && (forall item :: item in paths.items ==> GoodPath(item, cfg))
    && TotalsOf(paths.items, cfg.paths) == completed
  }

  /** A probe: five outcomes, only the datagram can be unavailable, ready only after construction, the
      echoes exactly after ready. */
  predicate GoodProbe(p: seq<Leaf>) {
    && IsOutcome(At(p, 0)) && IsOutcome(At(p, 1)) && IsOutcome(At(p, 2)) && IsOutcome(At(p, 3)) && IsOutcome(At(p, 4))
    && At(p, 0) != Str("unavailable") && At(p, 1) != Str("unavailable") && At(p, 3) != Str("unavailable")
    && At(p, 4) != Str("unavailable")
    && (At(p, 0) == Str("pass") || At(p, 1) == Str("not-run"))
    && (if At(p, 1) == Str("pass")
        then At(p, 2) != Str("not-run") && At(p, 3) != Str("not-run") && At(p, 4) != Str("not-run")
        else At(p, 2) == At(p, 3) == At(p, 4) == Str("not-run"))
  }

  predicate GoodGrease(g: RawGrease, webTransport: bool) {
    g.Absent? ||
    (&& GoodProbe(g.control) && GoodProbe(g.enabled)
     && (!webTransport ==>
           At(g.control, 0) == At(g.control, 1) == At(g.enabled, 0) == At(g.enabled, 1) == Str("not-run")))
  }

  /** Everything asked of a submission. */
  ghost predicate Acceptable(input: RawSubmission, requireGrease: bool, cfg: Config) {
    && input.schemaVersion == Num(1) && input.secureContext.Bool? && input.webTransport.Bool?
    && input.mode == Str("exhaustive") && input.cancelled == Bool(false)
    && IsCount(input.plannedCases, 4096) && input.plannedCases.n != 0
    && input.completedCases == (if input.webTransport.b then input.plannedCases else Num(0))
    && (forall k :: 0 <= k < 8 ==> IsCount(At(input.metrics, k), input.completedCases.n))
    && GoodPaths(input.paths, input.completedCases.n, cfg)
    && GoodGrease(input.grease, input.webTransport.b) && (requireGrease ==> input.grease.Given?)
  }

  // ------------------------------------------------------------------ the option matrix

  lemma OutcomesExactly(l: Leaf)
    ensures OutcomeOf(l).Accepted? <==> IsOutcome(l)
    ensures OutcomeOf(l).Accepted? ==> Str(OutcomeText(OutcomeOf(l).value)) == l
  {
  }

  lemma CombinationExactly(c: RawCombination, total: nat, keys: seq<string>)
    ensures LegalCombination(c, total, keys) <==> GoodCombination(c, total, keys)
  {
    hide OutcomeOf, IsOutcome, OptionsOf;
    forall k: nat | k < STAGES ensures OutcomeOf(At(c.stages, k)).Accepted? <==> IsOutcome(At(c.stages, k)) {
      OutcomesExactly(At(c.stages, k));
    }
    assert (forall k :: 0 <= k < STAGES ==> OutcomeOf(At(c.stages, k)).Accepted?) <==>
           IsOutcome(At(c.stages, 0)) && IsOutcome(At(c.stages, 1)) && IsOutcome(At(c.stages, 2))
           && IsOutcome(At(c.stages, 3)) && IsOutcome(At(c.stages, 4));
  }

  lemma MatrixExactly(input: RawList<RawCombination>, total: nat, keys: seq<string>)
    ensures MatrixOf(input, total, keys).Accepted? <==> input.Items? && GoodMatrix(input.items, total, keys)
  {
    hide LegalCombination, GoodCombination;
    forall c ensures LegalCombination(c, total, keys) <==> GoodCombination(c, total, keys) {
      CombinationExactly(c, total, keys);
    }
  }

  /** The submitted entries in the store's form, still in the order of submission. */
  function Entries(items: seq<RawCombination>, keys: seq<string>): (r: seq<Combination>)
    ensures |r| == |items|
  {
    seq(|items|, i requires 0 <= i < |items| =>
        var m := if items[i].mask.Num? && items[i].mask.n >= 0 then items[i].mask.n else 0;
        Combination(m, OptionsOf(m, keys), StagesOf(items[i].stages)))
  }

  /** Sorting by mask changes no count. */
  lemma ArrangedCounts(items: seq<RawCombination>, total: nat, keys: seq<string>, k: nat, o: Outcome)
    requires LegalMatrix(items, total, keys) && k < STAGES
    ensures CountStage(Arranged(items, total, keys), k, o) == Submitted(items, k, OutcomeText(o))
  {
    hide OutcomeOf, OptionsOf, Arranged, OutcomeText, LegalCombination, Where, Sort, StagesOf;
    var cs := Entries(items, keys);
    var counted := (c: Combination) => StageIs(c, k, o);
    var submitted := (c: RawCombination) => At(c.stages, k) == Str(OutcomeText(o));
    forall i | 0 <= i < |items| ensures counted(cs[i]) == submitted(items[i]) {
      StageKept(items[i], total, keys, k, o);
    }
    CountEqual(cs, counted, items, submitted);
    CountIsCardinality(items, submitted);
    if total == 0 {
      assert Arranged(items, total, keys) == [] == cs;
    } else {
      forall i | 0 <= i < |items| ensures items[i].mask.Num? && items[i].mask.n >= 0 {
        MaskIsNat(items[i], total, keys);
      }
      assert Collected(items, keys, cs);
      SortedByMask(items, total, keys, cs);
      ByMaskIsOrder();
      SortCorrect(cs, ByMask());
      CountPermuted(cs, Sort(cs, ByMask()), counted);
    }
  }

  lemma MaskIsNat(c: RawCombination, total: nat, keys: seq<string>)
    requires LegalCombination(c, total, keys)
    ensures c.mask.Num? && 0 <= c.mask.n < total
  {
  }

  lemma StageKept(c: RawCombination, total: nat, keys: seq<string>, k: nat, o: Outcome)
    requires LegalCombination(c, total, keys) && k < STAGES
    ensures |StagesOf(c.stages)| == STAGES
    ensures StagesOf(c.stages)[k] == o <==> At(c.stages, k) == Str(OutcomeText(o))
    ensures Str(OutcomeText(StagesOf(c.stages)[k])) == At(c.stages, k)
  {
    hide OptionsOf, OutcomeOf, OutcomeText;
    assert OutcomeOf(At(c.stages, k)).Accepted?;
    OutcomesExactly(At(c.stages, k));
    OutcomeRoundTrip(o);
  }

  // ------------------------------------------------------------------ paths

  lemma MatchExactly(counts: seq<nat>, leaves: seq<Leaf>, items: seq<RawCombination>, total: nat, keys: seq<string>)
    requires LegalMatrix(items, total, keys) && |counts| == PATH_METRICS
    requires forall k :: 0 <= k < PATH_METRICS ==> At(leaves, k) == Num(counts[k])
    ensures CountsMatch(counts, Arranged(items, total, keys)) <==> CountsOfMatrix(leaves, items)
  {
    hide LegalMatrix, Arranged, CountStage, Submitted;
    ArrangedCounts(items, total, keys, 0, Pass);
    ArrangedCounts(items, total, keys, 1, Pass);
    ArrangedCounts(items, total, keys, 2, Pass);
    ArrangedCounts(items, total, keys, 3, Pass);
    ArrangedCounts(items, total, keys, 4, Pass);
    ArrangedCounts(items, total, keys, 4, Unavailable);
    assert At(leaves, 0) == Num(counts[0]) && At(leaves, 1) == Num(counts[1]) && At(leaves, 2) == Num(counts[2])
           && At(leaves, 3) == Num(counts[3]) && At(leaves, 4) == Num(counts[4]) && At(leaves, 5) == Num(counts[5]);
  }

  lemma EffectsExactly(input: RawList<RawEffect>, cfg: Config)
    ensures EffectsOf(input, cfg).Accepted? <==> GoodEffects(input, cfg)
  {
    forall r: RawRatio ensures RatioOf(r).Accepted? <==> GoodRatio(r) {}
    if input.Items? {
      forall i | 0 <= i < |input.items| ensures input.items[i] in input.items {}
    }
  }

  lemma SubmittedBounded(items: seq<RawCombination>, k: nat, text: string)
    ensures Submitted(items, k, text) <= |items|
  {
    CountIsCardinality(items, (c: RawCombination) => At(c.stages, k) == Str(text));
  }

  lemma CountsExactly(leaves: seq<Leaf>, n: nat, bound: nat)
    ensures CountsOf(leaves, n, bound).Accepted? <==> forall k :: 0 <= k < n ==> IsCount(At(leaves, k), bound)
    ensures CountsOf(leaves, n, bound).Accepted? ==>
              |CountsOf(leaves, n, bound).value| == n
              && forall k :: 0 <= k < n ==> At(leaves, k) == Num(CountsOf(leaves, n, bound).value[k])
  {
    forall k | 0 <= k < n ensures CountAtMost(At(leaves, k), bound) <==> IsCount(At(leaves, k), bound) {}
    if CountsOf(leaves, n, bound).Accepted? {
      var counts := CountsOf(leaves, n, bound).value;
      forall k | 0 <= k < n ensures At(leaves, k) == Num(counts[k]) {
        assert CountAtMost(At(leaves, k), bound);
      }
    }
  }

  /** A path's item is accepted exactly when it is good; its counts then need no bound of their own. */
  lemma PathExactly(item: RawPath, path: string, webTransport: bool, cfg: Config)
    ensures PathOf(item, path, webTransport, cfg).Accepted? <==> GoodPath(item, cfg)
  {
    hide EffectsOf, GoodEffects, GoodMatrix, CountsOf, CountsMatch, CountsOfMatrix, OptionSignal, LegalMatrix, Arranged;
    EffectsExactly(item.effects, cfg);
    if IsCount(item.total, 4096) && item.combinations.Items? {
      var total := item.total.n;
      var items := item.combinations.items;
      MatrixExactly(item.combinations, total, Keys(cfg));
      CountsExactly(item.counts, PATH_METRICS, total);
      if GoodMatrix(items, total, Keys(cfg)) {
        MatrixSize(items, total, Keys(cfg));
        if CountsOfMatrix(item.counts, items) { GoodCountsBounded(item.counts, items, total); }
        if CountsOf(item.counts, PATH_METRICS, total).Accepted? {
          MatchExactly(CountsOf(item.counts, PATH_METRICS, total).value, item.counts, items, total, Keys(cfg));
        }
      }
    }
  }

  lemma MatrixSize(items: seq<RawCombination>, total: nat, keys: seq<string>)
    requires GoodMatrix(items, total, keys)
    ensures |items| == total <= 32
  {
  }

  lemma GoodCountsBounded(counts: seq<Leaf>, items: seq<RawCombination>, total: nat)
    requires CountsOfMatrix(counts, items) && |items| == total <= 32
    ensures forall k :: 0 <= k < PATH_METRICS ==> IsCount(At(counts, k), total)
  {
    hide Submitted;
    forall k: nat, text ensures Submitted(items, k, text) <= |items| {
      SubmittedBounded(items, k, text);
    }
    assert IsCount(At(counts, 0), total) && IsCount(At(counts, 1), total) && IsCount(At(counts, 2), total)
           && IsCount(At(counts, 3), total) && IsCount(At(counts, 4), total) && IsCount(At(counts, 5), total);
  }

  lemma IndexExactly(items: seq<RawPath>, path: string)
    ensures IndexOfPath(items, path) < |items| <==> exists j: nat :: IsItemFor(items, path, j)
  {
    var i := IndexOfPath(items, path);
    if i < |items| {
      assert IsItemFor(items, path, i);
    }
  }

  ghost predicate AllGood(items: seq<RawPath>, paths: seq<string>, cfg: Config) {
    forall p :: p in paths && IndexOfPath(items, p) < |items| ==> GoodPath(items[IndexOfPath(items, p)], cfg)
  }

  lemma AllGoodSnoc(items: seq<RawPath>, paths: seq<string>, path: string, cfg: Config)
    requires IndexOfPath(items, path) < |items|
    ensures AllGood(items, paths + [path], cfg) <==>
            AllGood(items, paths, cfg) && GoodPath(items[IndexOfPath(items, path)], cfg)
  {
    hide GoodPath, IndexOfPath;
    assert forall p :: p in paths + [path] <==> p in paths || p == path;
  }

  /** Every configured path is accepted exactly when every item is good: they are the same items. */
  lemma {:induction false} ResultsExactly(items: seq<RawPath>, paths: seq<string>, webTransport: bool, cfg: Config)
    requires AllPresent(items, paths)
    ensures PathResults(items, paths, webTransport, cfg).Accepted? <==>
            AllGood(items, paths, cfg)
    ensures PathResults(items, paths, webTransport, cfg).Accepted? ==>
              SumTotals(PathResults(items, paths, webTransport, cfg).value) == TotalsOf(items, paths)
  {
    hide PathOf, GoodPath, IndexOfPath, SumTotals, AllGood;
    if paths == [] {
      assert AllGood(items, paths, cfg) by { NothingToDo(items, paths, cfg); }
      assert SumTotals([]) == 0 by { NoPaths(items, paths, webTransport, cfg); }
    } else {
      var n := |paths| - 1;
      assert paths == paths[..n] + [paths[n]];
      ResultsExactly(items, paths[..n], webTransport, cfg);
      var j := IndexOfPath(items, paths[n]);
      PathExactly(items[j], paths[n], webTransport, cfg);
      AllGoodSnoc(items, paths[..n], paths[n], cfg);
      if PathResults(items, paths, webTransport, cfg).Accepted? {
        SumSnoc(PathResults(items, paths[..n], webTransport, cfg).value,
                PathOf(items[j], paths[n], webTransport, cfg).value);
        TotalKept(items[j], paths[n], webTransport, cfg);
      }
    }
  }

  lemma NothingToDo(items: seq<RawPath>, paths: seq<string>, cfg: Config)
    requires paths == []
    ensures AllGood(items, paths, cfg)
  {
  }

  lemma TotalKept(item: RawPath, path: string, webTransport: bool, cfg: Config)
    requires PathOf(item, path, webTransport, cfg).Accepted?
    ensures item.total == Num(PathOf(item, path, webTransport, cfg).value.total)
  {
    hide EffectsOf, CountsOf, MatrixOf, CountsMatch, OptionSignal;
  }

  /** With as many items as paths, all present, each item is that of some path. */
  lemma EveryItemIsUsed(items: seq<RawPath>, paths: seq<string>)
    requires Distinct(paths) && |items| == |paths| && AllPresent(items, paths)
    ensures forall item :: item in items ==> exists p :: p in paths && items[IndexOfPath(items, p)] == item
  {
    var where := Map(paths, (p: string) => IndexOfPath(items, p));
    assert Distinct(where) by {
      forall i, j | 0 <= i < j < |where| ensures where[i] != where[j] {
        assert items[where[i]].path == Str(paths[i]) && items[where[j]].path == Str(paths[j]);
      }
    }
    forall x | x in where ensures x < |items| {
      var i :| 0 <= i < |where| && where[i] == x;
    }
    Pigeonhole(where, |items|);
    forall item | item in items ensures exists p :: p in paths && items[IndexOfPath(items, p)] == item {
      var k :| 0 <= k < |items| && items[k] == item;
      assert k in where;
      var i :| 0 <= i < |where| && where[i] == k;
      assert paths[i] in paths;
    }
  }

  lemma PathsExactly(input: RawList<RawPath>, completed: nat, webTransport: bool, cfg: Config)
    requires Distinct(cfg.paths)
    ensures PathsOf(input, completed, webTransport, cfg).Accepted? <==> GoodPaths(input, completed, cfg)
  {
    hide IndexOfPath, PathResults, SumTotals, TotalsOf, GoodPath, IsItemFor, Distinct;
    if input.Items? && |input.items| == |cfg.paths| {
      var items := input.items;
      PresentExactly(items, cfg.paths);
      if AllPresent(items, cfg.paths) {
        ResultsExactly(items, cfg.paths, webTransport, cfg);
        EveryItemIsUsed(items, cfg.paths);
        PresentAll(items, cfg.paths);
      }
    }
  }

  lemma PresentAll(items: seq<RawPath>, paths: seq<string>)
    requires AllPresent(items, paths)
    ensures forall p :: p in paths ==> IndexOfPath(items, p) < |items| && items[IndexOfPath(items, p)] in items
  {
    forall p | p in paths ensures IndexOfPath(items, p) < |items| {
      var i :| 0 <= i < |paths| && paths[i] == p;
    }
  }

  lemma PresentExactly(items: seq<RawPath>, paths: seq<string>)
    ensures AllPresent(items, paths) <==> forall p :: p in paths ==> exists j: nat :: IsItemFor(items, p, j)
  {
    hide IndexOfPath, IsItemFor;
    forall p: string ensures IndexOfPath(items, p) < |items| <==> exists j: nat :: IsItemFor(items, p, j) {
      IndexExactly(items, p);
    }
    if AllPresent(items, paths) {
      PresentAll(items, paths);
    }
    forall i | 0 <= i < |paths| ensures paths[i] in paths {}
  }

  // ------------------------------------------------------------------ the whole submission

  /** The outcomes of a probe and their texts. */
  lemma ProbeTexts(p: seq<Leaf>)
    ensures |StagesOf(p)| == STAGES
    ensures (forall k :: 0 <= k < STAGES ==> OutcomeOf(At(p, k)).Accepted?) <==>
            IsOutcome(At(p, 0)) && IsOutcome(At(p, 1)) && IsOutcome(At(p, 2)) && IsOutcome(At(p, 3))
            && IsOutcome(At(p, 4))
    ensures (forall k :: 0 <= k < STAGES ==> OutcomeOf(At(p, k)).Accepted?) ==>
              forall k :: 0 <= k < STAGES ==> Str(OutcomeText(StagesOf(p)[k])) == At(p, k)
  {
    hide OutcomeOf, IsOutcome, OutcomeText;
    forall k: nat | k < STAGES
      ensures OutcomeOf(At(p, k)).Accepted? <==> IsOutcome(At(p, k))
      ensures OutcomeOf(At(p, k)).Accepted? ==> Str(OutcomeText(OutcomeOf(At(p, k)).value)) == At(p, k)
    {
      OutcomesExactly(At(p, k));
    }
  }

  lemma ProbeExactly(p: seq<Leaf>)
    ensures ProbeOf(p).Accepted? <==> GoodProbe(p)
    ensures ProbeOf(p).Accepted? ==>
              |ProbeOf(p).value| == 5
              && forall k :: 0 <= k < 5 ==> Str(OutcomeText(ProbeOf(p).value[k])) == At(p, k)
  {
    hide OutcomeOf, IsOutcome, OutcomeText, StagesOf;
    ProbeTexts(p);
    TextsDiffer();
    var q := StagesOf(p);
    if forall k :: 0 <= k < STAGES ==> OutcomeOf(At(p, k)).Accepted? {
      ProbeIsSpelled(p, q);
    }
  }

  lemma ProbeIsSpelled(p: seq<Leaf>, q: seq<Outcome>)
    requires |q| == STAGES && forall k :: 0 <= k < STAGES ==> Str(OutcomeText(q[k])) == At(p, k)
    requires IsOutcome(At(p, 0)) && IsOutcome(At(p, 1)) && IsOutcome(At(p, 2)) && IsOutcome(At(p, 3))
             && IsOutcome(At(p, 4))
    ensures LegalProbe(q) <==> GoodProbe(p)
  {
    hide OutcomeText, IsOutcome;
    TextsDiffer();
    assert Str(OutcomeText(q[0])) == At(p, 0) && Str(OutcomeText(q[1])) == At(p, 1)
           && Str(OutcomeText(q[2])) == At(p, 2) && Str(OutcomeText(q[3])) == At(p, 3)
           && Str(OutcomeText(q[4])) == At(p, 4);
  }

  lemma TextsDiffer()
    ensures forall a, b :: OutcomeText(a) == OutcomeText(b) ==> a == b
    ensures OutcomeText(Pass) == "pass" && OutcomeText(Fail) == "fail"
    ensures OutcomeText(Unavailable) == "unavailable" && OutcomeText(NotRun) == "not-run"
  {
    hide OutcomeOf;
    forall a: Outcome, b: Outcome | OutcomeText(a) == OutcomeText(b) ensures a == b {
      OutcomeRoundTrip(a);
      OutcomeRoundTrip(b);
    }
  }

  lemma GreaseExactly(g: RawGrease, webTransport: bool)
    ensures GreaseOf(g, webTransport).Accepted? <==> GoodGrease(g, webTransport)
    ensures GreaseOf(g, webTransport).Accepted? ==> GreaseOf(g, webTransport).value.Some? == g.Given?
  {
    hide ProbeOf, OutcomeText, VerdictFor;
    TextsDiffer();
    if g.Given? {
      ProbeExactly(g.control);
      ProbeExactly(g.enabled);
      if GoodProbe(g.control) { NothingRanExactly(g.control); }
      if GoodProbe(g.enabled) { NothingRanExactly(g.enabled); }
    }
  }

  lemma NothingRanExactly(p: seq<Leaf>)
    requires GoodProbe(p)
    ensures ProbeOf(p).Accepted? && (NothingRan(ProbeOf(p).value) <==> At(p, 0) == At(p, 1) == Str("not-run"))
  {
    hide ProbeOf, OutcomeText, IsOutcome;
    ProbeExactly(p);
    TextsDiffer();
    var q := ProbeOf(p).value;
    assert Str(OutcomeText(q[0])) == At(p, 0) && Str(OutcomeText(q[1])) == At(p, 1)
           && Str(OutcomeText(q[2])) == At(p, 2) && Str(OutcomeText(q[3])) == At(p, 3)
           && Str(OutcomeText(q[4])) == At(p, 4);
    assert At(p, 1) == Str("not-run") ==> At(p, 1) != Str("pass");
  }

  lemma RunExactly(input: RawSubmission, caps: Capabilities)
    ensures RunOf(input.mode, input.cancelled, input.plannedCases, input.completedCases, caps).Accepted? <==>
            && input.mode == Str("exhaustive") && input.cancelled == Bool(false)
            && IsCount(input.plannedCases, 4096) && input.plannedCases.n != 0
            && input.completedCases == (if caps.webTransport then input.plannedCases else Num(0))
  {
  }

  /** The store accepts a submission exactly when everything asked of it holds. */
  lemma AcceptedExactly(input: RawSubmission, receivedAt: string, requireGrease: bool, cfg: Config)
    requires Distinct(cfg.paths)
    ensures SubmissionOf(input, receivedAt, requireGrease, cfg).Accepted? <==> Acceptable(input, requireGrease, cfg)
  {
    hide NormalizeBrowser, CountsOf, PathsOf, GreaseOf, ConclusionFor, GoodPaths, GoodGrease, Distinct;
    if input.secureContext.Bool? && input.webTransport.Bool? {
      var caps := Capabilities(input.secureContext.b, input.webTransport.b);
      RunExactly(input, caps);
      var run := RunOf(input.mode, input.cancelled, input.plannedCases, input.completedCases, caps);
      if run.Accepted? {
        CountsExactly(input.metrics, METRICS, run.value.completedCases);
        PathsExactly(input.paths, run.value.completedCases, caps.webTransport, cfg);
        GreaseExactly(input.grease, caps.webTransport);
      }
    }
  }

  /** One count of one path that is not what the submitted option matrix says is enough to be rejected. */
  lemma WrongCountIsRejected(input: RawSubmission, item: RawPath, receivedAt: string, requireGrease: bool, cfg: Config)
    requires Distinct(cfg.paths) && input.paths.Items? && item in input.paths.items && item.combinations.Items?
    requires (exists k :: 0 <= k < 5 && At(item.counts, k) != Num(Submitted(item.combinations.items, k, "pass")))
             || At(item.counts, 5) != Num(Submitted(item.combinations.items, 4, "unavailable"))
    ensures SubmissionOf(input, receivedAt, requireGrease, cfg).Rejected?
  {
    hide SubmissionOf, Distinct, GoodMatrix, GoodEffects, Submitted;
    AcceptedExactly(input, receivedAt, requireGrease, cfg);
  }

  // ------------------------------------------------------------------ what is kept

  ghost predicate KeepsRatio(raw: RawRatio, kept: Ratio) {
    raw == RawRatio(Num(kept.ready), Num(kept.total))
  }

  /** The stored path has the submitted numbers, effects and option matrix, the matrix by mask. */
  ghost predicate KeepsPath(item: RawPath, kept: PathResult, path: string, keys: seq<string>) {
    && kept.path == path && item.path == Str(path) && item.total == Num(kept.total)
    && |kept.counts| == 6 && (forall k :: 0 <= k < 6 ==> At(item.counts, k) == Num(kept.counts[k]))
    && |kept.effects| == (if item.effects.Items? then |item.effects.items| else 0)
    && (item.effects.Items? ==> forall i :: 0 <= i < |kept.effects| ==>
          KeepsEffect(item.effects.items[i], kept.effects[i]))
    && item.combinations.Items? && |kept.combinations| == |item.combinations.items| == kept.total
    && (forall i :: 0 <= i < |item.combinations.items| ==>
          KeepsCombination(item.combinations.items[i], kept.combinations, keys))
  }

  ghost predicate KeepsEffect(raw: RawEffect, kept: Effect) {
    raw.key == Str(kept.key) && KeepsRatio(raw.withOption, kept.withOption)
    && KeepsRatio(raw.withoutOption, kept.withoutOption)
  }

  /** A submitted entry stands in the stored matrix at its own mask. */
  ghost predicate KeepsCombination(raw: RawCombination, kept: seq<Combination>, keys: seq<string>) {
    && raw.mask.Num? && 0 <= raw.mask.n < |kept|
    && var c := kept[raw.mask.n];
       && c.mask == raw.mask.n && c.options == OptionsOf(c.mask, keys) && |c.stages| == 5
       && forall k :: 0 <= k < 5 ==> Str(OutcomeText(c.stages[k])) == At(raw.stages, k)
  }

  lemma CombinationKept(items: seq<RawCombination>, total: nat, keys: seq<string>, i: nat)
    requires LegalMatrix(items, total, keys) && i < total
    ensures KeepsCombination(items[i], Arranged(items, total, keys), keys)
  {
    hide OutcomeOf, OptionsOf, OutcomeText, LegalCombination, StagesOf;
    MaskIsNat(items[i], total, keys);
    var m := items[i].mask.n;
    var j := IndexOfMask(items, m);
    assert j <= i && items[j].mask == Num(m);
    assert j == i;
    forall k: nat | k < 5
      ensures |StagesOf(items[i].stages)| == 5
      ensures Str(OutcomeText(StagesOf(items[i].stages)[k])) == At(items[i].stages, k)
    {
      StageKept(items[i], total, keys, k, Pass);
    }
    assert |StagesOf(items[i].stages)| == 5 by { StageKept(items[i], total, keys, 0, Pass); }
  }

  lemma EffectsKept(input: RawList<RawEffect>, cfg: Config)
    requires EffectsOf(input, cfg).Accepted?
    ensures var es := EffectsOf(input, cfg).value;
            && |es| == (if input.Items? then |input.items| else 0)
            && (input.Items? ==> forall i :: 0 <= i < |es| ==> KeepsEffect(input.items[i], es[i]))
  {
    if input.Items? {
      forall i | 0 <= i < |input.items| ensures KeepsEffect(input.items[i], EffectFor(input.items[i])) {
        assert LegalEffect(input.items[i], cfg);
      }
    }
  }

  lemma PathKept(item: RawPath, path: string, webTransport: bool, cfg: Config)
    requires PathOf(item, path, webTransport, cfg).Accepted? && item.path == Str(path)
    ensures KeepsPath(item, PathOf(item, path, webTransport, cfg).value, path, Keys(cfg))
  {
    hide EffectsOf, CountsOf, CountsMatch, OptionSignal, LegalMatrix, Arranged, KeepsEffect, KeepsCombination, Keys;
    var total := CountOf(item.total).value;
    CountsExactly(item.counts, PATH_METRICS, total);
    EffectsKept(item.effects, cfg);
    var items := item.combinations.items;
    assert |items| == total by { LegalSize(items, total, Keys(cfg)); }
    forall i | 0 <= i < |items| ensures KeepsCombination(items[i], Arranged(items, total, Keys(cfg)), Keys(cfg)) {
      CombinationKept(items, total, Keys(cfg), i);
    }
  }

  lemma LegalSize(items: seq<RawCombination>, total: nat, keys: seq<string>)
    requires LegalMatrix(items, total, keys)
    ensures |items| == total
  {
  }

  lemma {:induction false} PathsKept(items: seq<RawPath>, paths: seq<string>, webTransport: bool, cfg: Config, i: nat)
    requires AllPresent(items, paths) && PathResults(items, paths, webTransport, cfg).Accepted? && i < |paths|
    ensures var kept := PathResults(items, paths, webTransport, cfg).value;
            |kept| == |paths| && KeepsPath(items[IndexOfPath(items, paths[i])], kept[i], paths[i], Keys(cfg))
    decreases |paths|
  {
    hide PathOf, KeepsPath;
    var n := |paths| - 1;
    ResultsLength(items, paths, webTransport, cfg);
    PathKept(items[IndexOfPath(items, paths[n])], paths[n], webTransport, cfg);
    if i < n { PathsKept(items, paths[..n], webTransport, cfg, i); }
  }

  lemma {:induction false} ResultsLength(items: seq<RawPath>, paths: seq<string>, webTransport: bool, cfg: Config)
    requires AllPresent(items, paths) && PathResults(items, paths, webTransport, cfg).Accepted?
    ensures |PathResults(items, paths, webTransport, cfg).value| == |paths|
  {
    hide PathOf;
    if paths != [] { ResultsLength(items, paths[..|paths| - 1], webTransport, cfg); }
  }

  /** Some submitted item is kept as the i-th path. */
  ghost predicate KeptFromSome(items: seq<RawPath>, kept: PathResult, path: string, keys: seq<string>) {
    exists item :: item in items && KeepsPath(item, kept, path, keys)
  }

  ghost predicate KeepsProbe(raw: seq<Leaf>, kept: seq<Outcome>) {
    |kept| == 5 && forall k :: 0 <= k < 5 ==> Str(OutcomeText(kept[k])) == At(raw, k)
  }

  /** What is stored of an accepted submission: its own values, field by field. */
  lemma AcceptedIsKept(input: RawSubmission, receivedAt: string, requireGrease: bool, cfg: Config)
    requires SubmissionOf(input, receivedAt, requireGrease, cfg).Accepted?
    ensures var s := SubmissionOf(input, receivedAt, requireGrease, cfg).value;
            && s.receivedAt == receivedAt
            && (s.browser.key, s.browser.name) == FamilyOf(input.browserName)
            && KeepsVersion(input.browserVersion, s.browser.version)
            && input.secureContext == Bool(s.capabilities.secureContext)
            && input.webTransport == Bool(s.capabilities.webTransport)
            && input.plannedCases == Num(s.run.plannedCases) && input.completedCases == Num(s.run.completedCases)
            && |s.metrics| == 8 && (forall k :: 0 <= k < 8 ==> At(input.metrics, k) == Num(s.metrics[k]))
            && input.paths.Items? && |s.paths| == |cfg.paths|
            && (forall i :: 0 <= i < |s.paths| ==> KeptFromSome(input.paths.items, s.paths[i], cfg.paths[i], Keys(cfg)))
            && s.grease.Some? == input.grease.Given?
            && (s.grease.Some? ==>
                KeepsProbe(input.grease.control, s.grease.value.control)
                && KeepsProbe(input.grease.enabled, s.grease.value.enabled))
  {
    hide NormalizeBrowser, CountsOf, ProbeOf, ConclusionFor, PathResults, KeepsPath, FamilyOf, KeepsVersion, SumTotals,
      OutcomeText, VerdictFor;
    BrowserIsNormalized(input.browserName, input.browserVersion);
    var s := SubmissionOf(input, receivedAt, requireGrease, cfg).value;
    CountsExactly(input.metrics, METRICS, s.run.completedCases);
    ResultsLength(input.paths.items, cfg.paths, s.capabilities.webTransport, cfg);
    forall i | 0 <= i < |s.paths| ensures KeptFromSome(input.paths.items, s.paths[i], cfg.paths[i], Keys(cfg)) {
      PathsKept(input.paths.items, cfg.paths, s.capabilities.webTransport, cfg, i);
      assert input.paths.items[IndexOfPath(input.paths.items, cfg.paths[i])] in input.paths.items;
    }
    if input.grease.Given? {
      ProbeExactly(input.grease.control);
      ProbeExactly(input.grease.enabled);
    }
  }

  /** The option signal of a stored path, from its numbers and effects. */
  lemma SignalText(total: nat, ready: nat, effects: seq<Effect>, webTransport: bool, cfg: Config)
    ensures var signal := OptionSignal(total, ready, effects, webTransport, cfg);
            var w := Titles(Filter(effects, OnlyWith), cfg);
            var l := Titles(Filter(effects, OnlyWithout), cfg);
            if !webTransport && total == 0 then signal == "WebTransport API unavailable"
            else if ready == 0 then signal == "No combination reached ready"
            else if ready == total then signal == "Every tested combination reached ready"
            else if w == [] && l == [] then signal == "Mixed or interacting option effects"
            else if l == [] then signal == "ready only with " + Join(w, ", ")
            else if w == [] then signal == "ready only without " + Join(l, ", ")
            else signal == "ready only with " + Join(w, ", ") + "; " + "ready only without " + Join(l, ", ")
  {
    hide Filter, OnlyWith, OnlyWithout;
    var w := "ready only with " + Join(Titles(Filter(effects, OnlyWith), cfg), ", ");
    var l := "ready only without " + Join(Titles(Filter(effects, OnlyWithout), cfg), ", ");
    JoinCons(w, [l], "; ");
    JoinCons(l, [], "; ");
    assert [w] + [l] == [w, l] && [w] + [] == [w] && [] + [l] == [l];
  }

  /** The masks whose entry has outcome o at stage k. */
  function MasksWith(cs: seq<Combination>, k: nat, o: Outcome): set<nat> {
    Where(cs, (c: Combination) => k < |c.stages| && c.stages[k] == o)
  }

  lemma StagesCounted(cs: seq<Combination>, k: nat, o: Outcome)
    ensures CountStage(cs, k, o) == |MasksWith(cs, k, o)|
  {
    CountIsCardinality(cs, (c: Combination) => StageIs(c, k, o));
    CountIsCardinality(cs, (c: Combination) => k < |c.stages| && c.stages[k] == o);
    CountEqual(cs, (c: Combination) => StageIs(c, k, o), cs, (c: Combination) => k < |c.stages| && c.stages[k] == o);
  }

  /** In every stored result the six counts of a path are numbers of masks: where the constructor, ready,
      the two streams and the datagram passed, and where the datagram API was unavailable. */
  lemma CountsAreMasks(input: RawSubmission, receivedAt: string, requireGrease: bool, cfg: Config, i: nat)
    requires SubmissionOf(input, receivedAt, requireGrease, cfg).Accepted? && i < |cfg.paths|
    ensures var s := SubmissionOf(input, receivedAt, requireGrease, cfg).value;
            && |s.paths| == |cfg.paths| && |s.paths[i].counts| == 6
            && var (counts, cs) := (s.paths[i].counts, s.paths[i].combinations);
               && counts[0] == |MasksWith(cs, 0, Pass)| && counts[1] == |MasksWith(cs, 1, Pass)|
               && counts[2] == |MasksWith(cs, 2, Pass)| && counts[3] == |MasksWith(cs, 3, Pass)|
               && counts[4] == |MasksWith(cs, 4, Pass)| && counts[5] == |MasksWith(cs, 4, Unavailable)|
  {
    hide SubmissionOf, Canonical.CanonicalBrowser, Canonical.CanonicalRun, Canonical.CanonicalMatrix, MasksWith,
      Canonical.CanonicalEffects, OptionSignal, CountStage, ConclusionFor, SumTotals, Canonical.CanonicalGrease;
    Canonical.AcceptedIsCanonical(input, receivedAt, requireGrease, cfg);
    var s := SubmissionOf(input, receivedAt, requireGrease, cfg).value;
    var cs := s.paths[i].combinations;
    assert Canonical.CanonicalPath(s.paths[i], cfg.paths[i], s.capabilities.webTransport, cfg);
    StagesCounted(cs, 0, Pass);
    StagesCounted(cs, 1, Pass);
    StagesCounted(cs, 2, Pass);
    StagesCounted(cs, 3, Pass);
    StagesCounted(cs, 4, Pass);
    StagesCounted(cs, 4, Unavailable);
  }
}
