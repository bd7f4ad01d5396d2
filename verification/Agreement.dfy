/** The two halves agree: what the page publishes, the store accepts, and stores what the page shows. */
module Rows {
  import opened Lists
  import opened Masks
  import opened Variants
  import opened Results
  import opened Sanitize
  import opened Canonical
  import opened Diff
  import opened Page
  import opened Signals

  // ------------------------------------------------------------------ the cases of one path

  lemma {:induction false} PlannedLength(paths: seq<string>, variants: seq<Variant>)
    ensures |Planned(paths, variants)| == |paths| * |variants|
  {
    if paths != [] {
      hide Planned;
      var n := |paths| - 1;
      PlannedLength(paths[..n], variants);
      PlannedSnoc(paths[..n], paths[n], variants);
      assert paths == paths[..n] + [paths[n]];
      Distribute(n, |variants|);
    }
  }

  lemma Distribute(n: nat, k: nat)
    ensures (n + 1) * k == n * k + k
  {
  }

  function AllCases(paths: seq<string>, variants: seq<Variant>, env: nat -> Env): seq<Case> {
    Cases(Planned(paths, variants), env, |Planned(paths, variants)|)
  }

  /** What is planned at position k once a path is added: what was there, or the new path's variant. */
  lemma PlannedAt(paths: seq<string>, path: string, variants: seq<Variant>, k: nat)
    requires k < |Planned(paths, variants)| + |variants|
    ensures var done := |Planned(paths, variants)|;
            && |Planned(paths + [path], variants)| == done + |variants|
            && Planned(paths + [path], variants)[k] ==
               if k < done then Planned(paths, variants)[k] else (path, variants[k - done])
  {
    hide Planned;
    PlannedSnoc(paths, path, variants);
  }

  lemma CaseAt(paths: seq<string>, path: string, variants: seq<Variant>, env: nat -> Env, k: nat)
    requires k < |Planned(paths, variants)| + |variants|
    ensures |AllCases(paths + [path], variants, env)| == |Planned(paths, variants)| + |variants|
    ensures AllCases(paths + [path], variants, env)[k] ==
            (AllCases(paths, variants, env) + Row(path, variants, env, |Planned(paths, variants)|))[k]
  {
    hide CaseOf, Planned, Cases, Row;
    PlannedAt(paths, path, variants, k);
  }

  lemma CasesSnoc(paths: seq<string>, path: string, variants: seq<Variant>, env: nat -> Env)
    ensures AllCases(paths + [path], variants, env) ==
            AllCases(paths, variants, env) + Row(path, variants, env, |Planned(paths, variants)|)
  {
    hide AllCases, CaseOf, Planned, Row;
    var before, row := AllCases(paths, variants, env), Row(path, variants, env, |Planned(paths, variants)|);
    CasesLength(paths, variants, env);
    CasesLength(paths + [path], variants, env);
    PlannedSnoc(paths, path, variants);
    forall k | 0 <= k < |before + row| ensures AllCases(paths + [path], variants, env)[k] == (before + row)[k] {
      CaseAt(paths, path, variants, env, k);
    }
  }

  lemma CasesLength(paths: seq<string>, variants: seq<Variant>, env: nat -> Env)
    ensures |AllCases(paths, variants, env)| == |Planned(paths, variants)|
  {
  }

  lemma CaseOnPath(path: string, variants: seq<Variant>, env: nat -> Env, offset: nat)
    ensures forall c :: c in Row(path, variants, env, offset) ==> c.path == path
  {
    hide CaseOf;
    var row := Row(path, variants, env, offset);
    forall j | 0 <= j < |row| ensures row[j].path == path {
      CaseKeys(path, variants[j].id, variants[j].optionKeys, env(offset + j));
    }
  }

  lemma {:induction false} OtherPaths(paths: seq<string>, variants: seq<Variant>, env: nat -> Env, path: string)
    requires path !in paths
    ensures Filter(AllCases(paths, variants, env), OnPath(path)) == []
  {
    hide Row, AllCases, Planned, CaseOf, Filter;
    if paths == [] {
      NoCases(variants, env, path);
    } else {
      var n := |paths| - 1;
      assert paths == paths[..n] + [paths[n]];
      OtherPaths(paths[..n], variants, env, path);
      CasesSnoc(paths[..n], paths[n], variants, env);
      var row := Row(paths[n], variants, env, |Planned(paths[..n], variants)|);
      CaseOnPath(paths[n], variants, env, |Planned(paths[..n], variants)|);
      FilterConstant(row, OnPath(path), false);
      FilterAppend(AllCases(paths[..n], variants, env), row, OnPath(path));
    }
  }

  lemma NoCases(variants: seq<Variant>, env: nat -> Env, path: string)
    ensures Filter(AllCases([], variants, env), OnPath(path)) == []
  {
  }

  /** Filtering a full run by a path gives that path's row. */
  lemma {:induction false} PathRow(paths: seq<string>, variants: seq<Variant>, env: nat -> Env, path: string)
    returns (offset: nat)
    requires Distinct(paths) && path in paths
    ensures Filter(AllCases(paths, variants, env), OnPath(path)) == Row(path, variants, env, offset)
    ensures offset + |variants| <= |Planned(paths, variants)|
    ensures exists a :: 0 <= a < |paths| && paths[a] == path && offset == a * |variants|
  {
    hide Row, AllCases, CaseOf, Filter;
    var n := |paths| - 1;
    PlannedLength(paths[..n], variants);
    assert paths == paths[..n] + [paths[n]];
    CasesSnoc(paths[..n], paths[n], variants, env);
    var here := |Planned(paths[..n], variants)|;
    var row := Row(paths[n], variants, env, here);
    CaseOnPath(paths[n], variants, env, here);
    FilterAppend(AllCases(paths[..n], variants, env), row, OnPath(path));
    if path == paths[n] {
      offset := here;
      OtherPaths(paths[..n], variants, env, path);
      FilterConstant(row, OnPath(path), true);
    } else {
      offset := PathRow(paths[..n], variants, env, path);
      var a :| 0 <= a < n && paths[..n][a] == path && offset == a * |variants|;
      assert paths[a] == path;
      FilterConstant(row, OnPath(path), false);
    }
  }

  lemma {:induction false} PathOccurs(cases: seq<Case>, path: string)
    ensures path in PathsIn(cases) <==> exists c :: c in cases && c.path == path
  {
    if cases != [] {
      var n := |cases| - 1;
      assert cases == cases[..n] + [cases[n]];
      PathOccurs(cases[..n], path);
    }
  }

  lemma {:induction false} FindIn(cases: seq<Case>, paths: seq<string>, axes: seq<Axis>, path: string)
    requires path in paths
    ensures Find(AnalyzeEach(cases, paths, axes), path) == Some(AnalyzePath(cases, path, axes))
  {
    hide AnalyzePath;
    var each := AnalyzeEach(cases, paths, axes);
    AnalysisPath(cases, paths[0], axes);
    if paths[0] != path {
      assert each[1..] == AnalyzeEach(cases, paths[1..], axes);
      FindIn(cases, paths[1..], axes, path);
    }
  }

  lemma AnalysisPath(cases: seq<Case>, path: string, axes: seq<Axis>)
    ensures AnalyzePath(cases, path, axes).path == path
  {
  }

  /** The page finds the analysis of any path that has cases. */
  lemma FindAnalysis(cases: seq<Case>, axes: seq<Axis>, path: string)
    requires Filter(cases, OnPath(path)) != []
    ensures Find(AnalyzePaths(cases, axes), path) == Some(AnalyzePath(cases, path, axes))
  {
    hide AnalyzePath;
    FilterMembers(cases, OnPath(path));
    var c := Filter(cases, OnPath(path))[0];
    assert c in Filter(cases, OnPath(path));
    PathOccurs(cases, path);
    FindIn(cases, PathsIn(cases), axes, path);
  }

  // ------------------------------------------------------------------ the option matrix of a row

  /** What the store makes of one published combination. */
  function StoredCombination(c: Case, mask: nat): Combination {
    Combination(mask, c.optionKeys, PublicStages(c))
  }

  function StoredCombinations(row: seq<Case>, variants: seq<Variant>): (cs: seq<Combination>)
    requires |row| == |variants|
    ensures |cs| == |row| && forall j :: 0 <= j < |cs| ==> cs[j] == StoredCombination(row[j], variants[j].mask)
  {
    seq(|row|, j requires 0 <= j < |row| => StoredCombination(row[j], variants[j].mask))
  }

  /** Variants that are exactly the masks below 2^n, over the first n of the store's keys. */
  ghost predicate FullMatrix(variants: seq<Variant>, keys: seq<string>, n: nat) {
    && n <= |keys| && |variants| == Pow2(n)
    && (forall j :: 0 <= j < |variants| ==>
        variants[j].mask < Pow2(n) && variants[j] == VariantFor(variants[j].mask, keys[..n]))
    && (forall i, j :: 0 <= i < j < |variants| ==> variants[i].mask != variants[j].mask)
  }

  lemma VariantsAreFull(keys: seq<string>, n: nat, hash: Option<string>)
    requires Distinct(keys) && n <= |keys|
    ensures FullMatrix(Sort(AllVariants(keys[..n], Pow2(n)), Comparator(hash)), keys, n)
  {
    hide VariantFor, AtOrBefore, OptionsOf, ParseHex, StripId;
    var used := keys[..n];
    assert |used| == n;
    VariantsComplete(used, hash);
    var vs := Sort(AllVariants(used, Pow2(|used|)), Comparator(hash));
    forall j | 0 <= j < |vs| ensures vs[j].mask < Pow2(n) && vs[j] == VariantFor(vs[j].mask, used) {
      assert vs[j] in vs;
    }
    forall i, j | 0 <= i < j < |vs| ensures vs[i].mask != vs[j].mask {
      assert vs[i] != vs[j];
    }
  }

  /** A published case, as the store reads it. */
  lemma PublishedCase(c: Case, mask: nat, keys: seq<string>, n: nat)
    requires Distinct(keys) && n <= |keys| && mask < Pow2(n)
    requires c.variantId == VariantId(mask) && c.optionKeys == OptionsOf(mask, keys[..n])
    ensures var raw := PublicCombination(c);
            && raw.mask == Num(mask)
            && LegalCombination(raw, Pow2(n), keys)
            && StoredCombination(c, mask) == Combination(mask, OptionsOf(mask, keys), StagesOf(raw.stages))
  {
    hide ParseHex, StripId, VariantId, OptionsOf, OutcomeOf, StagesOf, OutcomeText;
    IdRoundTrip(mask);
    OptionsTruncated(mask, keys, n);
    OutcomesBack(PublicStages(c));
  }

  lemma RowPublished(path: string, variants: seq<Variant>, env: nat -> Env, offset: nat, keys: seq<string>, n: nat)
    requires Distinct(keys) && FullMatrix(variants, keys, n) && SupportedSize(Pow2(n))
    ensures var row := Row(path, variants, env, offset);
            var raws := Map(row, PublicCombination);
            && LegalMatrix(raws, Pow2(n), keys)
            && Collected(raws, keys, StoredCombinations(row, variants))
  {
    hide CaseOf, PublicCombination, LegalCombination, VariantId, OptionsOf, StagesOf, StoredCombination, PublicStages,
      Pow2;
    var row := Row(path, variants, env, offset);
    var raws := Map(row, PublicCombination);
    forall j | 0 <= j < |row|
      ensures raws[j].mask == Num(variants[j].mask)
      ensures LegalCombination(raws[j], Pow2(n), keys)
      ensures StoredCombination(row[j], variants[j].mask)
           == Combination(variants[j].mask, OptionsOf(variants[j].mask, keys), StagesOf(raws[j].stages))
    {
      CaseKeys(path, variants[j].id, variants[j].optionKeys, env(offset + j));
      PublishedCase(row[j], variants[j].mask, keys, n);
    }
  }

  lemma ByMaskValueIsOrder()
    ensures TotalOrder(ByMaskValue())
  {
  }

  /** The store accepts a path's published option matrix, and keeps it by mask. */
  lemma MatrixAccepted(path: string, variants: seq<Variant>, env: nat -> Env, offset: nat, keys: seq<string>, n: nat)
    requires Distinct(keys) && FullMatrix(variants, keys, n) && SupportedSize(Pow2(n))
    ensures var row := Row(path, variants, env, offset);
            MatrixOf(Items(Sort(Map(row, PublicCombination), ByMaskValue())), Pow2(n), keys) ==
            Accepted(Sort(StoredCombinations(row, variants), ByMask()))
  {
    hide CaseOf, PublicCombination, LegalMatrix, Collected, Sort, Arranged, Pow2, FullMatrix, StoredCombinations;
    var row := Row(path, variants, env, offset);
    var raws := Map(row, PublicCombination);
    RowPublished(path, variants, env, offset, keys, n);
    SortedByMask(raws, Pow2(n), keys, StoredCombinations(row, variants));
    ByMaskValueIsOrder();
    SortCorrect(raws, ByMaskValue());
    MatrixPermuted(raws, Sort(raws, ByMaskValue()), Pow2(n), keys);
  }

  /** A stored entry is what one case shows, under that case's mask. */
  predicate EntryOf(c: Combination, k: Case, m: nat) {
    ParseHex(StripId(k.variantId)) == Some(m) && c == StoredCombination(k, m)
  }

  /** The stored matrix has exactly the cases, each at its own mask with its own options and stages. */
  ghost predicate MatrixAgrees(cs: seq<Combination>, cases: seq<Case>) {
    && |cs| == |cases|
    && (forall j: nat :: j < |cases| ==> HasEntry(cs, cases[j]))
    && (forall m: nat :: m < |cs| ==> Shown(cs[m], cases, m))
  }

  ghost predicate HasEntry(cs: seq<Combination>, k: Case) {
    exists m: nat :: m < |cs| && EntryOf(cs[m], k, m)
  }

  ghost predicate Shown(c: Combination, cases: seq<Case>, m: nat) {
    exists j: nat :: j < |cases| && EntryOf(c, cases[j], m)
  }

  lemma EntryOfRow(path: string, variants: seq<Variant>, env: nat -> Env, offset: nat, keys: seq<string>, n: nat,
                   j: nat)
    requires Distinct(keys) && FullMatrix(variants, keys, n) && SupportedSize(Pow2(n)) && j < |variants|
    ensures var row := Row(path, variants, env, offset);
            var cs := Sort(StoredCombinations(row, variants), ByMask());
            var m := variants[j].mask;
            |cs| == |row| && m < |cs| && EntryOf(cs[m], row[j], m)
  {
    hide CaseOf, PublicCombination, LegalMatrix, Sort, Pow2, ParseHex, StripId, OptionsOf, StagesOf, PublicStages;
    var row := Row(path, variants, env, offset);
    var raws := Map(row, PublicCombination);
    var cs := StoredCombinations(row, variants);
    var m := variants[j].mask;
    RowPublished(path, variants, env, offset, keys, n);
    SortedByMask(raws, Pow2(n), keys, cs);
    EntryIs(raws, Pow2(n), keys, cs, j, m);
    CaseKeys(path, variants[j].id, variants[j].optionKeys, env(offset + j));
    IdRoundTrip(m);
  }

  lemma RowMatrixAgrees(path: string, variants: seq<Variant>, env: nat -> Env, offset: nat, keys: seq<string>, n: nat)
    requires Distinct(keys) && FullMatrix(variants, keys, n) && SupportedSize(Pow2(n))
    ensures var row := Row(path, variants, env, offset);
            MatrixAgrees(Sort(StoredCombinations(row, variants), ByMask()), row)
  {
    hide CaseOf, Sort, StoredCombinations, EntryOf, Pow2, VariantFor;
    var row := Row(path, variants, env, offset);
    var cs := Sort(StoredCombinations(row, variants), ByMask());
    SortedLength(StoredCombinations(row, variants));
    forall j: nat | j < |row| ensures HasEntry(cs, row[j]) {
      EntryOfRow(path, variants, env, offset, keys, n, j);
    }
    assert |cs| == |row| == |variants|;
    forall m: nat | m < |cs| ensures Shown(cs[m], row, m) {
      var j := VariantWithMask(variants, keys, n, m);
      EntryOfRow(path, variants, env, offset, keys, n, j);
    }
  }

  lemma SortedLength(cs: seq<Combination>)
    ensures |Sort(cs, ByMask())| == |cs|
  {
    ByMaskIsOrder();
    SortCorrect(cs, ByMask());
  }

  lemma VariantWithMask(variants: seq<Variant>, keys: seq<string>, n: nat, m: nat) returns (j: nat)
    requires FullMatrix(variants, keys, n) && m < Pow2(n)
    ensures j < |variants| && variants[j].mask == m
  {
    hide VariantFor, Pow2;
    var masks := Map(variants, (v: Variant) => v.mask);
    Pigeonhole(masks, Pow2(n));
    assert m in masks;
    j :| 0 <= j < |masks| && masks[j] == m;
  }

  // ------------------------------------------------------------------ its counts

  lemma StageCounts(row: seq<Case>, variants: seq<Variant>, k: nat)
    requires |row| == |variants| && k < STAGES
    ensures CountStage(Sort(StoredCombinations(row, variants), ByMask()), k, Pass) == CountFulfilled(row, k)
  {
    hide Sort, Count;
    var cs := StoredCombinations(row, variants);
    var p := (c: Combination) => StageIs(c, k, Pass);
    ByMaskIsOrder();
    SortCorrect(cs, ByMask());
    CountPermuted(cs, Sort(cs, ByMask()), p);
    CountEqual(cs, p, row, IsFulfilled(k));
  }

  /** The page counts a missing datagram API among the ready cases, the store over the whole matrix;
      for cases a run can produce that is the same. */
  lemma UnavailableCounts(row: seq<Case>, variants: seq<Variant>)
    requires |row| == |variants| && forall c :: c in row ==> CaseShape(c)
    ensures CountStage(Sort(StoredCombinations(row, variants), ByMask()), DATAGRAM, Unavailable) ==
            Count(Filter(row, IsFulfilled(READY)), (c: Case) => c.datagram == NotExposed)
  {
    hide Sort, Count, Filter;
    var cs := StoredCombinations(row, variants);
    var p := (c: Combination) => StageIs(c, DATAGRAM, Unavailable);
    var q := (c: Case) => c.datagram == NotExposed;
    var both := (c: Case) => c.ready == Fulfilled && c.datagram == NotExposed;
    ByMaskIsOrder();
    SortCorrect(cs, ByMask());
    CountPermuted(cs, Sort(cs, ByMask()), p);
    forall j | 0 <= j < |row| ensures p(cs[j]) == both(row[j]) {
      assert row[j] in row;
    }
    CountEqual(cs, p, row, both);
    CountFilter(row, IsFulfilled(READY), q, both);
  }

  lemma RowShapes(path: string, variants: seq<Variant>, env: nat -> Env, offset: nat)
    ensures forall c :: c in Row(path, variants, env, offset) ==> CaseShape(c)
  {
    hide CaseOf, CaseShape;
    var row := Row(path, variants, env, offset);
    forall j | 0 <= j < |row| ensures CaseShape(row[j]) {
      CaseHasShape(path, variants[j].id, variants[j].optionKeys, env(offset + j));
    }
  }

  // ------------------------------------------------------------------ its effects and signal

  function Stored(e: PageEffect): Effect {
    Effect(e.key, e.withOption, e.withoutOption)
  }

  lemma {:induction false} LabelAt(axes: seq<Axis>, i: nat)
    requires i < |axes| && forall j, k :: 0 <= j < k < |axes| ==> axes[j].key != axes[k].key
    ensures LabelIn(axes, axes[i].key) == axes[i].title
  {
    if i > 0 { LabelAt(axes[1..], i - 1); }
  }

  lemma AxisFacts(cfg: Config, i: nat)
    requires Distinct(Keys(cfg)) && i < |cfg.axes|
    ensures Keys(cfg)[i] == cfg.axes[i].key && Label(cfg, cfg.axes[i].key) == cfg.axes[i].title
  {
    forall j, k | 0 <= j < k < |cfg.axes| ensures cfg.axes[j].key != cfg.axes[k].key {
      assert Keys(cfg)[j] != Keys(cfg)[k];
    }
    LabelAt(cfg.axes, i);
  }

  lemma EffectsAccepted(row: seq<Case>, cfg: Config, n: nat)
    requires Distinct(Keys(cfg)) && n <= |cfg.axes| && |row| <= MAX_COUNT
    ensures var effects := EffectsOfAxes(row, cfg.axes[..n]);
            EffectsOf(Items(Map(effects, PublicEffect)), cfg) == Accepted(Map(effects, Stored))
  {
    hide EffectOfAxis;
    var effects := EffectsOfAxes(row, cfg.axes[..n]);
    var items := Map(effects, PublicEffect);
    forall i | 0 <= i < n
      ensures items[i].key == Str(cfg.axes[i].key) && LegalEffect(items[i], cfg)
        && EffectFor(items[i]) == Stored(effects[i])
    {
      AxisFacts(cfg, i);
      EffectCounts(row, cfg.axes[i]);
      EffectBounds(row, cfg.axes[i]);
      assert cfg.axes[i].key in Keys(cfg);
    }
    forall i, j | 0 <= i < j < n ensures items[i].key != items[j].key {
      assert Keys(cfg)[i] != Keys(cfg)[j];
    }
    assert Map(items, EffectFor) == Map(effects, Stored);
  }

  lemma EffectBounds(row: seq<Case>, axis: Axis)
    ensures Count(row, UsesAndReady(axis.key)) <= Count(row, Uses(axis.key)) <= |row|
    ensures Count(row, LacksAndReady(axis.key)) <= Count(row, Lacks(axis.key)) <= |row|
  {
    CountMonotone(row, UsesAndReady(axis.key), Uses(axis.key));
    CountMonotone(row, LacksAndReady(axis.key), Lacks(axis.key));
  }

  /** Dropping the titles before or after filtering is the same, and the store's titles are the page's. */
  lemma TitlesAgree(effects: seq<PageEffect>, cfg: Config, p: PageEffect -> bool, q: Effect -> bool)
    requires forall e :: p(e) == q(Stored(e))
    requires forall e :: e in effects ==> e.title == Label(cfg, e.key)
    ensures Titles(Filter(Map(effects, Stored), q), cfg) == EffectTitles(Filter(effects, p))
  {
    hide Label, Filter;
    FilterMapped(effects, Stored, p, q);
    FilterMembers(effects, p);
    var kept := Filter(effects, p);
    forall i | 0 <= i < |kept| ensures Label(cfg, Stored(kept[i]).key) == kept[i].title {
      assert kept[i] in kept;
    }
  }

  lemma SameTests()
    ensures forall e :: ReadyOnlyWith(e) == OnlyWith(Stored(e))
    ensures forall e :: ReadyOnlyWithout(e) == OnlyWithout(Stored(e))
  {
  }

  /** The store derives the very signal the page shows. */
  lemma SignalsAgree(row: seq<Case>, cfg: Config, n: nat)
    requires Distinct(Keys(cfg)) && n <= |cfg.axes|
    ensures var effects := EffectsOfAxes(row, cfg.axes[..n]);
            var ready := CountFulfilled(row, READY);
            OptionSignal(|row|, ready, Map(effects, Stored), true, cfg) == SignalOf(|row|, ready, effects)
  {
    hide EffectOfAxis, Filter, Join, OnlyWith, OnlyWithout, ReadyOnlyWith, ReadyOnlyWithout, Label;
    var effects := EffectsOfAxes(row, cfg.axes[..n]);
    forall e | e in effects ensures e.title == Label(cfg, e.key) {
      var i :| 0 <= i < n && effects[i] == e;
      AxisFacts(cfg, i);
      EffectCounts(row, cfg.axes[i]);
    }
    SameTests();
    TitlesAgree(effects, cfg, ReadyOnlyWith, OnlyWith);
    TitlesAgree(effects, cfg, ReadyOnlyWithout, OnlyWithout);
    var with, without := Filter(Map(effects, Stored), OnlyWith), Filter(Map(effects, Stored), OnlyWithout);
    assert |Titles(with, cfg)| == |with| && |Titles(without, cfg)| == |without|;
    assert |EffectTitles(Filter(effects, ReadyOnlyWith))| == |Filter(effects, ReadyOnlyWith)|;
    assert |EffectTitles(Filter(effects, ReadyOnlyWithout))| == |Filter(effects, ReadyOnlyWithout)|;
  }

  /** The page's effects are those of the option matrix it publishes. */
  lemma EffectsAreOfMatrix(row: seq<Case>, variants: seq<Variant>, cfg: Config, n: nat)
    requires |row| == |variants| && n <= |cfg.axes|
    ensures Map(EffectsOfAxes(row, cfg.axes[..n]), Stored) ==
            EffectsOfMatrix(Sort(StoredCombinations(row, variants), ByMask()), Keys(cfg)[..n])
  {
    hide EffectOfAxis, Sort, EffectOfMatrix;
    forall i | 0 <= i < n
      ensures Stored(EffectOfAxis(row, cfg.axes[i])) ==
              EffectOfMatrix(Sort(StoredCombinations(row, variants), ByMask()), Keys(cfg)[i])
    {
      OneEffect(row, variants, cfg.axes[i]);
    }
  }

  lemma OneEffect(row: seq<Case>, variants: seq<Variant>, axis: Axis)
    requires |row| == |variants|
    ensures Stored(EffectOfAxis(row, axis)) ==
      EffectOfMatrix(Sort(StoredCombinations(row, variants), ByMask()), axis.key)
  {
    hide EffectOfAxis, Sort, Count;
    var key := axis.key;
    var cs := StoredCombinations(row, variants);
    var sorted := Sort(cs, ByMask());
    ByMaskIsOrder();
    SortCorrect(cs, ByMask());
    var withReady := (c: Combination) => key in c.options && StageIs(c, READY, Pass);
    var with := (c: Combination) => key in c.options;
    var withoutReady := (c: Combination) => key !in c.options && StageIs(c, READY, Pass);
    var without := (c: Combination) => key !in c.options;
    CountPermuted(cs, sorted, withReady);
    CountPermuted(cs, sorted, with);
    CountPermuted(cs, sorted, withoutReady);
    CountPermuted(cs, sorted, without);
    CountEqual(cs, withReady, row, UsesAndReady(key));
    CountEqual(cs, with, row, Uses(key));
    CountEqual(cs, withoutReady, row, LacksAndReady(key));
    CountEqual(cs, without, row, Lacks(key));
    EffectCounts(row, axis);
  }
}

module Agreement {
  import opened Lists
  import opened Masks
  import opened Variants
  import opened Results
  import opened Sanitize
  import opened Canonical
  import opened Diff
  import opened Page
  import opened Signals
  import opened Rows
  import S = Store

  // ------------------------------------------------------------------ an exhaustive run

  /** How many axes a run varies: all, or all but the certificate's, which is the last. */
  function AxisCount(cfg: Config, useHash: bool): nat
    requires cfg.axes != []
  {
    if useHash then |cfg.axes| else |cfg.axes| - 1
  }

  function VariantsUsed(cfg: Config, useHash: bool): seq<Variant>
    requires cfg.axes != []
  {
    var n := AxisCount(cfg, useHash);
    Sort(AllVariants(Keys(cfg)[..n], Pow2(n)), Comparator(if useHash then Some(Keys(cfg)[|cfg.axes| - 1]) else None))
  }

  /** The report of an exhaustive run. */
  function FullReport(cfg: Config, useHash: bool, profile: Profile, settings: Settings, env: nat -> Env, first: Env,
                      second: Env): Report
    requires cfg.axes != []
  {
    ReportOf(profile, settings, VariantsUsed(cfg, useHash), cfg.axes[..AxisCount(cfg, useHash)],
             Keys(cfg)[..|cfg.axes| - 1], env, first, second)
  }

  method RunExhaustive(cfg: Config, useHash: bool, profile: Profile, settings: Settings, env: nat -> Env, first: Env,
                       second: Env)
    returns (report: Report)
    requires cfg.axes != []
    ensures report == FullReport(cfg, useHash, profile, settings, env, first, second)
  {
    hide ReportOf, Sort, AllVariants;
    var base := Keys(cfg)[..|cfg.axes| - 1];
    var certificate := Keys(cfg)[|cfg.axes| - 1];
    var variants := BuildExhaustiveVariants(base, certificate, useHash);
    assert base + [certificate] == Keys(cfg) == Keys(cfg)[..|cfg.axes|];
    report := RunMatrix(profile, settings, variants, cfg.axes[..AxisCount(cfg, useHash)], base, env, first, second);
  }

  lemma SizesSupported()
    ensures Pow2(4) == 16 && Pow2(5) == 32
  {
    assert Pow2(1) == 2 && Pow2(2) == 4 && Pow2(3) == 8;
  }

  lemma VariantsUsedAreFull(cfg: Config, useHash: bool)
    requires ValidConfig(cfg)
    ensures var n := AxisCount(cfg, useHash);
            && n <= |Keys(cfg)| && FullMatrix(VariantsUsed(cfg, useHash), Keys(cfg), n)
            && SupportedSize(Pow2(n)) && Pow2(n) <= 32
  {
    hide FullMatrix, Sort;
    var n := AxisCount(cfg, useHash);
    SizesSupported();
    VariantsAreFull(Keys(cfg), n, if useHash then Some(Keys(cfg)[|cfg.axes| - 1]) else None);
  }

  // ------------------------------------------------------------------ one path

  /** A path's six counts, from its cases. */
  function PathCounts(cases: seq<Case>): (s: seq<nat>)
    ensures |s| == PATH_METRICS && forall k :: 0 <= k < PATH_METRICS ==> s[k] <= |cases|
  {
    var readyCases := Filter(cases, IsFulfilled(READY));
    var unavailable := Count(readyCases, (c: Case) => c.datagram == NotExposed);
    FilterShorter(cases, IsFulfilled(READY));
    [CountFulfilled(cases, CONSTRUCTOR), CountFulfilled(cases, READY), CountFulfilled(cases, BIDI),
     CountFulfilled(cases, UNI),
     CountFulfilled(cases, DATAGRAM), unavailable]
  }

  lemma {:induction false} FilterShorter<T>(s: seq<T>, p: T -> bool)
    ensures |Filter(s, p)| <= |s|
  {
    if s != [] { FilterShorter(s[..|s| - 1], p); }
  }

  lemma CountsAccepted(counts: seq<nat>, leaves: seq<Leaf>, n: nat, bound: nat)
    requires |counts| == |leaves| == n && bound <= MAX_COUNT
    requires forall k :: 0 <= k < n ==> counts[k] <= bound && leaves[k] == Num(counts[k])
    ensures CountsOf(leaves, n, bound) == Accepted(counts)
  {
    forall k | 0 <= k < n ensures CountAtMost(At(leaves, k), bound) && ValueOr(CountOf(At(leaves, k)), 0) == counts[k] {
    }
    assert seq(n, k requires 0 <= k < n => ValueOr(CountOf(At(leaves, k)), 0)) == counts;
  }

  lemma CountsOfRowMatch(path: string, variants: seq<Variant>, env: nat -> Env, offset: nat)
    ensures var row := Row(path, variants, env, offset);
            CountsMatch(PathCounts(row), Sort(StoredCombinations(row, variants), ByMask()))
  {
    hide CaseOf, CaseShape, Sort, CountStage, StoredCombinations, Filter, Count;
    var row := Row(path, variants, env, offset);
    RowShapes(path, variants, env, offset);
    UnavailableCounts(row, variants);
    var sorted := Sort(StoredCombinations(row, variants), ByMask());
    forall k | 0 <= k < STAGES ensures PathCounts(row)[k] == CountStage(sorted, k, Pass) {
      StageCounts(row, variants, k);
    }
  }

  /** What the store keeps for a path with the given row of cases. */
  function StoredPath(path: string, row: seq<Case>, variants: seq<Variant>, axes: seq<Axis>): PathResult
    requires |row| == |variants|
  {
    var effects := EffectsOfAxes(row, axes);
    PathResult(path, |row|, PathCounts(row), Map(effects, Stored), Sort(StoredCombinations(row, variants), ByMask()),
               SignalOf(|row|, CountFulfilled(row, READY), effects))
  }

  lemma PublicPathIs(report: Report, path: string, axes: seq<Axis>)
    requires report.analysis == AnalyzePaths(report.results, axes)
    requires Filter(report.results, OnPath(path)) != []
    ensures var row := Filter(report.results, OnPath(path));
            var raw := PublicPath(report, path);
            && raw.path == Str(path) && raw.total == Num(|row|)
            && |raw.counts| == PATH_METRICS
            && (forall k :: 0 <= k < PATH_METRICS ==> raw.counts[k] == Num(PathCounts(row)[k]))
            && raw.effects == Items(Map(EffectsOfAxes(row, axes), PublicEffect))
            && raw.combinations == Items(Sort(Map(row, PublicCombination), ByMaskValue()))
  {
    hide AnalyzePaths, Sort, PublicCombination, Filter, Count, SignalOf, EffectsOfAxes;
    FindAnalysis(report.results, axes, path);
  }

  lemma RowAccepted(report: Report, path: string, variants: seq<Variant>, env: nat -> Env, offset: nat, cfg: Config,
                    n: nat)
    requires Distinct(Keys(cfg)) && n <= |cfg.axes| && FullMatrix(variants, Keys(cfg), n)
    requires SupportedSize(Pow2(n))
    requires report.analysis == AnalyzePaths(report.results, cfg.axes[..n])
    requires Filter(report.results, OnPath(path)) == Row(path, variants, env, offset)
    ensures PathOf(PublicPath(report, path), path, true, cfg) ==
            Accepted(StoredPath(path, Row(path, variants, env, offset), variants, cfg.axes[..n]))
  {
    hide AnalyzePaths, Sort, PublicCombination, Filter, SignalOf, EffectsOfAxes, PublicPath, OptionSignal, CountsOf,
      EffectsOf, MatrixOf, CountsMatch, Row, StoredCombinations, PathCounts, CountFulfilled;
    var row := Row(path, variants, env, offset);
    PublicPathIs(report, path, cfg.axes[..n]);
    CountsAccepted(PathCounts(row), PublicPath(report, path).counts, PATH_METRICS, |row|);
    EffectsAccepted(row, cfg, n);
    MatrixAccepted(path, variants, env, offset, Keys(cfg), n);
    CountsOfRowMatch(path, variants, env, offset);
    SignalsAgree(row, cfg, n);
    ReadyIsCount(row);
  }

  lemma ReadyIsCount(row: seq<Case>)
    ensures PathCounts(row)[READY] == CountFulfilled(row, READY)
  {
  }

  // ------------------------------------------------------------------ all paths

  /** A run that Stop never reached has every planned case. */
  lemma UnstoppedIsComplete(total: nat, env: nat -> Env)
    requires !Stopped(RunLength(total, env, 0), env)
    ensures RunLength(total, env, 0) == total
  {
  }

  lemma {:induction false} PathsFound(items: seq<RawPath>, paths: seq<string>, k: nat)
    requires |items| == |paths| && Distinct(paths) && k < |paths|
    requires forall i :: 0 <= i < |items| ==> items[i].path == Str(paths[i])
    ensures IndexOfPath(items, paths[k]) == k
  {
    hide IndexOfPath;
    var i := IndexOfPath(items, paths[k]);
    assert items[k].path == Str(paths[k]);
    assert i <= k && items[i].path == Str(paths[i]);
  }

  /** Items in the order of the paths, each read as the result at its place. */
  ghost predicate ReadAs(items: seq<RawPath>, paths: seq<string>, ps: seq<PathResult>, webTransport: bool,
                         cfg: Config) {
    && |items| == |paths| == |ps|
    && forall i :: 0 <= i < |items| ==>
        items[i].path == Str(paths[i]) && PathOf(items[i], paths[i], webTransport, cfg) == Accepted(ps[i])
  }

  lemma {:induction false} ResultsAre(items: seq<RawPath>, paths: seq<string>, ps: seq<PathResult>, webTransport: bool,
                                      cfg: Config, n: nat)
    requires ReadAs(items, paths, ps, webTransport, cfg) && Distinct(paths) && n <= |paths|
    ensures AllPresent(items, paths[..n]) && PathResults(items, paths[..n], webTransport, cfg) == Accepted(ps[..n])
  {
    hide PathOf, IndexOfPath, PathResults;
    if n == 0 {
      NoPaths(items, paths[..0], webTransport, cfg);
    } else {
      var k := n - 1;
      ResultsAre(items, paths, ps, webTransport, cfg, k);
      PathsFound(items, paths, k);
      PathResultsSnoc(items, paths[..k], paths[k], webTransport, cfg, ps[..k], ps[k]);
      assert paths[..n] == paths[..k] + [paths[k]] && ps[..n] == ps[..k] + [ps[k]];
    }
  }

  lemma {:induction false} EqualTotals(ps: seq<PathResult>, total: nat)
    requires forall i :: 0 <= i < |ps| ==> ps[i].total == total
    ensures SumTotals(ps) == |ps| * total
  {
    if ps != [] { EqualTotals(ps[..|ps| - 1], total); }
  }

  lemma PathsAccepted(items: seq<RawPath>, ps: seq<PathResult>, webTransport: bool, cfg: Config)
    requires ReadAs(items, cfg.paths, ps, webTransport, cfg) && Distinct(cfg.paths)
    ensures PathsOf(Items(items), SumTotals(ps), webTransport, cfg) == Accepted(ps)
  {
    hide PathOf, IndexOfPath, PathResults, SumTotals, AllPresent, Distinct;
    ResultsAre(items, cfg.paths, ps, webTransport, cfg, |ps|);
    assert cfg.paths[..|ps|] == cfg.paths && ps[..|ps|] == ps;
  }

  /** What the page shows for a path is what the store keeps for it. */
  ghost predicate PathAgrees(p: PathResult, report: Report, path: string, apiPresent: bool) {
    var cases := Filter(report.results, OnPath(path));
    && p.path == path && p.total == |cases| && p.counts == PathCounts(cases)
    && if apiPresent then
         var shown := Find(report.analysis, path);
         && shown.Some?
         && var a := shown.value;
            && p.total == a.total && p.counts[READY] == a.ready && p.counts[BIDI] == a.bidi && p.counts[UNI] == a.uni
            && p.counts[DATAGRAM] == a.datagram && p.counts[DATAGRAM_UNAVAILABLE] == a.datagramUnavailable
            && p.signal == a.signal && p.effects == Map(a.effects, Stored)
            && MatrixAgrees(p.combinations, cases)
       else p.signal == "WebTransport API unavailable" && p.effects == [] && p.combinations == []
  }

  lemma StoredPathAgrees(report: Report, path: string, variants: seq<Variant>, env: nat -> Env, offset: nat,
                         axes: seq<Axis>, keys: seq<string>, n: nat)
    requires report.analysis == AnalyzePaths(report.results, axes) && variants != []
    requires Filter(report.results, OnPath(path)) == Row(path, variants, env, offset)
    requires Distinct(keys) && FullMatrix(variants, keys, n) && SupportedSize(Pow2(n))
    ensures PathAgrees(StoredPath(path, Row(path, variants, env, offset), variants, axes), report, path, true)
  {
    hide AnalyzePaths, Sort, Filter, Count, SignalOf, EffectsOfAxes, Row, MatrixAgrees, FullMatrix, StoredCombinations;
    FindAnalysis(report.results, axes, path);
    RowMatrixAgrees(path, variants, env, offset, keys, n);
  }

  lemma IdlePathAccepted(report: Report, path: string, cfg: Config)
    requires report.results == [] && report.analysis == []
    ensures PathOf(PublicPath(report, path), path, false, cfg) ==
            Accepted(IdleResult(path))
    ensures PathAgrees(IdleResult(path), report, path, false)
  {
    hide OptionsOf, OutcomeOf;
    assert PathCounts([]) == [0, 0, 0, 0, 0, 0];
    var raw := PublicPath(report, path);
    CountsAccepted(PathCounts([]), raw.counts, PATH_METRICS, 0);
    assert Map([], PublicEffect) == [] && Map([], PublicCombination) == [];
    assert EffectsOf(raw.effects, cfg) == Accepted([]);
    assert MatrixOf(raw.combinations, 0, Keys(cfg)) == Accepted([]);
    assert forall k, o :: CountStage([], k, o) == 0;
  }

  // ------------------------------------------------------------------ GREASE

  /** Stop came between ready and the last echo stage. */
  predicate Interrupted(env: Env) {
    env.constructed && env.readied && env.stopAt <= 2
  }

  /** The store takes the pair exactly when neither probe that ran was interrupted. */
  predicate PairAcceptable(apiPresent: bool, first: Env, second: Env) {
    apiPresent ==> !Interrupted(first) && (!Stops(first) ==> !Interrupted(second))
  }

  lemma ProbeAccepted(probe: seq<Outcome>)
    requires |probe| == STAGES
    ensures ProbeOf(OutcomeLeaves(probe)) == if LegalProbe(probe) then Accepted(probe) else Rejected
  {
    hide OutcomeOf, StagesOf, OutcomeText;
    OutcomesBack(probe);
  }

  lemma ProbeIsLegal(path: string, keys: seq<string>, env: Env)
    ensures LegalProbe(PublicProbe(Some(CaseOf(path, PROBE_ID, keys, env)))) <==> !Interrupted(env)
  {
  }

  lemma GreaseAgrees(wanted: bool, configured: bool, apiPresent: bool, keys: seq<string>, path: string, first: Env,
                     second: Env)
    ensures var d := DifferentialOf(wanted, configured, apiPresent, false, keys, path, first, second);
            var r := GreaseOf(PublicGrease(d), apiPresent);
            && (r.Accepted? <==> d.None? || PairAcceptable(apiPresent, first, second))
            && (r.Accepted? ==> r.value.Some? == d.Some?)
            && (r.Accepted? && d.Some? ==>
                && r.value.value.control == PublicProbe(d.value.control)
                && r.value.value.enabled == PublicProbe(d.value.enabled)
                && (d.value.verdict == Some(r.value.value.verdict) <==> !apiPresent || !Stops(first)))
  {
    hide ProbeOf, OutcomeLeaves, CaseOf;
    var d := DifferentialOf(wanted, configured, apiPresent, false, keys, path, first, second);
    if d.Some? {
      ProbeAccepted(PublicProbe(d.value.control));
      ProbeAccepted(PublicProbe(d.value.enabled));
      ProbeIsLegal(path, keys, first);
      ProbeIsLegal(path, keys, second);
      ReadyPasses(CaseOf(path, PROBE_ID, keys, first));
      ReadyPasses(CaseOf(path, PROBE_ID, keys, second));
    }
  }

  lemma ReadyPasses(c: Case)
    ensures PublicProbe(Some(c))[G_READY] == Pass <==> c.ready == Fulfilled
  {
  }

  // ------------------------------------------------------------------ the whole run

  /** Every number and text the page shows, as the store keeps it. */
  ghost predicate StoresWhatThePageShows(s: Snapshot, report: Report, profile: Profile, cfg: Config) {
    && (s.browser.key, s.browser.name) == FamilyOf(Str(profile.name))
    && KeepsVersion(if profile.version.Some? then profile.version.value else "", s.browser.version)
    && s.capabilities == Capabilities(profile.secureContext, profile.constructible)
    && s.run == Run(report.planned, report.completed) && s.metrics == report.metrics
    && |s.paths| == |cfg.paths|
    && (forall i :: 0 <= i < |s.paths| ==> PathAgrees(s.paths[i], report, cfg.paths[i], profile.constructible))
    && s.grease.Some? == report.grease.Some?
    && (s.grease.Some? ==>
        s.grease.value.control == PublicProbe(report.grease.value.control) &&
        s.grease.value.enabled == PublicProbe(report.grease.value.enabled))
  }

  lemma RunPathsAccepted(cfg: Config, useHash: bool, profile: Profile, settings: Settings, env: nat -> Env, first: Env,
                         second: Env)
    returns (ps: seq<PathResult>)
    requires ValidConfig(cfg) && Distinct(settings.paths)
    requires MayPublish(FullReport(cfg, useHash, profile, settings, env, first, second), profile, cfg.paths)
    requires profile.constructible
    ensures var report := FullReport(cfg, useHash, profile, settings, env, first, second);
            && report.completed == |cfg.paths| * Pow2(AxisCount(cfg, useHash)) == report.planned
            && PathsOf(Items(PublicPaths(report, cfg.paths)), report.completed, true, cfg) == Accepted(ps)
            && |ps| == |cfg.paths|
            && (forall i :: 0 <= i < |ps| ==> PathAgrees(ps[i], report, cfg.paths[i], true))
            && (forall i :: 0 <= i < |ps| ==>
                ps[i].effects == EffectsOfMatrix(ps[i].combinations, UsedKeys(ps[i].total, Keys(cfg))))
  {
    hide PathOf, PublicPath, PathAgrees, Row, StoredPath, AnalyzePaths, Metrics, Planned, FullMatrix, VariantsUsed,
      Cases, DifferentialOf, RunLength, EffectsOfMatrix, AllCases, Pow2;
    var n := AxisCount(cfg, useHash);
    var report := FullReport(cfg, useHash, profile, settings, env, first, second);
    var variants := VariantsUsed(cfg, useHash);
    VariantsUsedAreFull(cfg, useHash);
    FullIsCounted(variants, Keys(cfg), n);
    CompleteRun(cfg, useHash, profile, settings, env, first, second);
    ps := [];
    for i := 0 to |cfg.paths|
      invariant |ps| == i
      invariant forall k :: 0 <= k < i ==>
        PathOf(PublicPath(report, cfg.paths[k]), cfg.paths[k], true, cfg) == Accepted(ps[k])
      invariant forall k :: 0 <= k < i ==> PathAgrees(ps[k], report, cfg.paths[k], true)
      invariant forall k :: 0 <= k < i ==>
        ps[k].total == Pow2(n) && ps[k].effects == EffectsOfMatrix(ps[k].combinations, Keys(cfg)[..n])
    {
      var p := OnePathAccepted(report, cfg, useHash, settings, env, cfg.paths[i]);
      ps := ps + [p];
    }
    forall i | 0 <= i < |ps| ensures PublicPaths(report, cfg.paths)[i].path == Str(cfg.paths[i]) {
      PublicPathName(report, cfg.paths[i]);
    }
    PathsAccepted(PublicPaths(report, cfg.paths), ps, true, cfg);
    EqualTotals(ps, Pow2(n));
    UsedKeysAre(cfg, useHash);
  }

  lemma UsedKeysAre(cfg: Config, useHash: bool)
    requires ValidConfig(cfg)
    ensures var n := AxisCount(cfg, useHash); UsedKeys(Pow2(n), Keys(cfg)) == Keys(cfg)[..n]
  {
    SizesSupported();
    assert Keys(cfg)[..5] == Keys(cfg);
  }

  lemma PublicPathName(report: Report, path: string)
    ensures PublicPath(report, path).path == Str(path)
  {
  }

  lemma CompleteRun(cfg: Config, useHash: bool, profile: Profile, settings: Settings, env: nat -> Env, first: Env,
                    second: Env)
    requires ValidConfig(cfg) && profile.constructible
    requires MayPublish(FullReport(cfg, useHash, profile, settings, env, first, second), profile, cfg.paths)
    ensures var report := FullReport(cfg, useHash, profile, settings, env, first, second);
            var variants := VariantsUsed(cfg, useHash);
            && report.results == AllCases(settings.paths, variants, env)
            && report.analysis == AnalyzePaths(report.results, cfg.axes[..AxisCount(cfg, useHash)])
            && report.completed == report.planned == |cfg.paths| * |variants|
  {
    hide Metrics, DifferentialOf, AnalyzePaths, VariantsUsed, Planned;
    var variants := VariantsUsed(cfg, useHash);
    PlannedLength(settings.paths, variants);
    UnstoppedIsComplete(|Planned(settings.paths, variants)|, env);
  }

  lemma OnePathAccepted(report: Report, cfg: Config, useHash: bool, settings: Settings, env: nat -> Env, path: string)
    returns (p: PathResult)
    requires ValidConfig(cfg) && Distinct(settings.paths) && path in settings.paths
    requires report.results == AllCases(settings.paths, VariantsUsed(cfg, useHash), env)
    requires report.analysis == AnalyzePaths(report.results, cfg.axes[..AxisCount(cfg, useHash)])
    ensures PathOf(PublicPath(report, path), path, true, cfg) == Accepted(p)
    ensures PathAgrees(p, report, path, true)
    ensures var n := AxisCount(cfg, useHash);
            p.total == Pow2(n) && p.effects == EffectsOfMatrix(p.combinations, Keys(cfg)[..n])
  {
    hide PathOf, PublicPath, PathAgrees, AnalyzePaths, FullMatrix, VariantsUsed, EffectsOfMatrix, AllCases, Pow2, Sort,
      PathCounts, StoredCombinations, EffectsOfAxes, SignalOf, CountFulfilled, Filter, CaseOf;
    var n := AxisCount(cfg, useHash);
    var variants := VariantsUsed(cfg, useHash);
    VariantsUsedAreFull(cfg, useHash);
    FullIsCounted(variants, Keys(cfg), n);
    var offset := PathRow(settings.paths, variants, env, path);
    var row := Row(path, variants, env, offset);
    RowAccepted(report, path, variants, env, offset, cfg, n);
    StoredPathAgrees(report, path, variants, env, offset, cfg.axes[..n], Keys(cfg), n);
    EffectsAreOfMatrix(row, variants, cfg, n);
    p := StoredPath(path, row, variants, cfg.axes[..n]);
  }

  lemma FullIsCounted(variants: seq<Variant>, keys: seq<string>, n: nat)
    requires FullMatrix(variants, keys, n)
    ensures |variants| == Pow2(n) && variants != []
  {
  }

  /** What the store keeps for a path of a browser without the API. */
  function IdleResult(path: string): PathResult {
    PathResult(path, 0, PathCounts([]), [], [], "WebTransport API unavailable")
  }

  lemma IdlePathsAccepted(report: Report, cfg: Config) returns (ps: seq<PathResult>)
    requires Distinct(cfg.paths) && report.results == [] && report.analysis == []
    ensures PathsOf(Items(PublicPaths(report, cfg.paths)), 0, false, cfg) == Accepted(ps)
    ensures |ps| == |cfg.paths| && forall i :: 0 <= i < |ps| ==> PathAgrees(ps[i], report, cfg.paths[i], false)
    ensures forall i :: 0 <= i < |ps| ==>
      ps[i].effects == EffectsOfMatrix(ps[i].combinations, UsedKeys(ps[i].total, Keys(cfg)))
  {
    hide PathOf, PublicPath, PathAgrees, PathCounts, PathsOf, Keys, Distinct;
    ps := Map(cfg.paths, IdleResult);
    forall i | 0 <= i < |ps|
      ensures PathOf(PublicPaths(report, cfg.paths)[i], cfg.paths[i], false, cfg) == Accepted(ps[i])
      ensures PathAgrees(ps[i], report, cfg.paths[i], false)
      ensures PublicPaths(report, cfg.paths)[i].path == Str(cfg.paths[i])
    {
      IdlePathAccepted(report, cfg.paths[i], cfg);
      PublicPathName(report, cfg.paths[i]);
    }
    PathsAccepted(PublicPaths(report, cfg.paths), ps, false, cfg);
    EqualTotals(ps, 0);
  }

  lemma MetricsAccepted(report: Report)
    requires report.metrics == Metrics(report.results) && |report.results| == report.completed <= MAX_COUNT
    ensures CountsOf(CountLeaves(report.metrics), METRICS, report.completed) == Accepted(report.metrics)
  {
    hide Metrics;
    CountsAccepted(report.metrics, CountLeaves(report.metrics), METRICS, report.completed);
  }

  lemma RunAccepted(report: Report, apiPresent: bool, secureContext: bool)
    requires 0 < report.planned <= MAX_COUNT
    requires report.completed == if apiPresent then report.planned else 0
    ensures RunOf(Str("exhaustive"), Bool(false), Num(report.planned), Num(report.completed),
                  Capabilities(secureContext, apiPresent)) ==
            Accepted(Run(report.planned, report.completed))
  {
  }

  /** The sizes a published run can have. */
  lemma RunSizes(cfg: Config, useHash: bool, profile: Profile, settings: Settings, env: nat -> Env, first: Env,
                 second: Env)
    requires ValidConfig(cfg)
    requires MayPublish(FullReport(cfg, useHash, profile, settings, env, first, second), profile, cfg.paths)
    ensures var report := FullReport(cfg, useHash, profile, settings, env, first, second);
            && 0 < report.planned <= MAX_COUNT
            && report.completed == (if profile.constructible then report.planned else 0)
            && report.metrics == Metrics(report.results) && |report.results| == report.completed
            && (!profile.constructible ==> report.results == [] && report.analysis == [])
            && report.grease == DifferentialOf(WantsGrease(settings), settings.greaseUsable, profile.constructible,
                                               false,
                                               Keys(cfg)[..|cfg.axes| - 1], settings.greasePath, first, second)
  {
    hide Metrics, AnalyzePaths, DifferentialOf, Planned, VariantsUsed, Pow2, FullMatrix;
    VariantsUsedAreFull(cfg, useHash);
    FullIsCounted(VariantsUsed(cfg, useHash), Keys(cfg), AxisCount(cfg, useHash));
    var a, b := |cfg.paths|, |VariantsUsed(cfg, useHash)|;
    assert 1 <= a <= 128 && 1 <= b <= 32;
    Product(a, b);
    assert b == Pow2(AxisCount(cfg, useHash));
  }

  lemma Product(a: nat, b: nat)
    requires 1 <= a <= 128 && 1 <= b <= 32
    ensures 0 < a * b <= 4096
  {
    assert a * b <= 128 * b;
    assert a * b >= b;
  }

  lemma BrowserIsFiled(profile: Profile)
    ensures var b := NormalizeBrowser(Str(profile.name), MajorVersion(profile.version));
            && (b.key, b.name) == FamilyOf(Str(profile.name))
            && KeepsVersion(if profile.version.Some? then profile.version.value else "", b.version)
  {
    hide FamilyOf, KeepsVersion, NormalizeBrowser;
    BrowserIsNormalized(Str(profile.name), MajorVersion(profile.version));
    if profile.version.Some? {
      var b := NormalizeBrowser(Str(profile.name), MajorVersion(profile.version));
      CutKeepsVersion(profile.version.value, b.version);
    }
  }

  /** Whatever the outcomes, wherever Stop was pressed and however the page was configured: if the page
      publishes, the store accepts exactly when the pair of GREASE probes was not interrupted between
      ready and its last echo (and is there, if the store insists on it). What is stored is what the
      page shows, except for the verdict: the two verdicts agree exactly when Stop was not pressed
      between the probes. */
  lemma PublishedIsAccepted(cfg: Config, useHash: bool, profile: Profile, settings: Settings, env: nat -> Env,
                            first: Env, second: Env, at: string, requireGrease: bool)
    requires ValidConfig(cfg) && Distinct(settings.paths)
    requires MayPublish(FullReport(cfg, useHash, profile, settings, env, first, second), profile, cfg.paths)
    ensures var report := FullReport(cfg, useHash, profile, settings, env, first, second);
            var r := SubmissionOf(Payload(report, profile, cfg.paths), at, requireGrease, cfg);
            && (r.Accepted? <==>
                && (report.grease.Some? ==> PairAcceptable(profile.constructible, first, second))
                && (requireGrease ==> report.grease.Some?))
            && (r.Accepted? ==>
                && StoresWhatThePageShows(r.value, report, profile, cfg) && EffectsFromMatrix(r.value, cfg)
                && (r.value.grease.Some? ==>
                    (report.grease.value.verdict == Some(r.value.grease.value.verdict) <==>
                     !profile.constructible || !Stops(first))))
  {
    hide PathOf, PublicPath, PublicPaths, PathAgrees, AnalyzePaths, Metrics, PathsOf, CountsOf, CountLeaves, GreaseOf,
      PublicGrease, RunOf, NormalizeBrowser, ConclusionFor, DifferentialOf, FullReport, PublicProbe, PairAcceptable,
      EffectsOfMatrix, UsedKeys, FamilyOf, KeepsVersion;
    var report := FullReport(cfg, useHash, profile, settings, env, first, second);
    BrowserIsFiled(profile);
    RunSizes(cfg, useHash, profile, settings, env, first, second);
    RunAccepted(report, profile.constructible, profile.secureContext);
    MetricsAccepted(report);
    GreaseAgrees(WantsGrease(settings), settings.greaseUsable, profile.constructible, Keys(cfg)[..|cfg.axes| - 1],
                 settings.greasePath, first, second);
    if profile.constructible {
      var ps := RunPathsAccepted(cfg, useHash, profile, settings, env, first, second);
    } else {
      var ps := IdlePathsAccepted(report, cfg);
    }
    SettingsKept(cfg, useHash, profile, settings, env, first, second);
  }

  lemma SettingsKept(cfg: Config, useHash: bool, profile: Profile, settings: Settings, env: nat -> Env, first: Env,
                     second: Env)
    requires cfg.axes != []
    ensures FullReport(cfg, useHash, profile, settings, env, first, second).settings == settings
  {
    hide Metrics, AnalyzePaths, DifferentialOf, Planned, VariantsUsed;
  }

  /** A full run with its full GREASE pair, never stopped, is published, accepted, and stored as shown,
      verdict included, whatever the outcomes of its cases. */
  lemma UnstoppedRunAgrees(cfg: Config, useHash: bool, profile: Profile, settings: Settings, env: nat -> Env,
                           first: Env, second: Env, at: string, requireGrease: bool)
    requires ValidConfig(cfg) && settings.paths == cfg.paths
    requires settings.exhaustive && settings.share && settings.resultsEnabled && settings.targetMatches
    requires settings.greaseConfigured && settings.greaseChecked && settings.greaseUsable
    requires !Stops(first) && !Stops(second) && forall k :: !Stops(env(k))
    ensures var report := FullReport(cfg, useHash, profile, settings, env, first, second);
            var r := SubmissionOf(Payload(report, profile, cfg.paths), at, requireGrease, cfg);
            && MayPublish(report, profile, cfg.paths)
            && r.Accepted? && StoresWhatThePageShows(r.value, report, profile, cfg)
            && r.value.grease.Some? && report.grease.value.verdict == Some(r.value.grease.value.verdict)
  {
    hide Payload, SubmissionOf, PathAgrees, PublicProbe, FullReport, EffectsFromMatrix, MayPublish;
    UnstoppedRunPublishes(cfg, useHash, profile, settings, env, first, second);
    PublishedIsAccepted(cfg, useHash, profile, settings, env, first, second, at, requireGrease);
  }

  lemma UnstoppedRunPublishes(cfg: Config, useHash: bool, profile: Profile, settings: Settings, env: nat -> Env,
                              first: Env, second: Env)
    requires ValidConfig(cfg) && settings.paths == cfg.paths
    requires settings.exhaustive && settings.share && settings.resultsEnabled && settings.targetMatches
    requires settings.greaseConfigured && settings.greaseChecked && settings.greaseUsable
    requires forall k :: !Stops(env(k))
    ensures MayPublish(FullReport(cfg, useHash, profile, settings, env, first, second), profile, cfg.paths)
    ensures FullReport(cfg, useHash, profile, settings, env, first, second).grease.Some?
  {
    hide Metrics, AnalyzePaths, Planned, VariantsUsed, CaseOf;
    var variants := VariantsUsed(cfg, useHash);
    PlannedLength(settings.paths, variants);
    UnstoppedIsComplete(|Planned(settings.paths, variants)|, env);
  }

  /** Stop pressed between the two probes, after a control that went well: the page says "not run",
      and the store takes the same payload for a server that GREASE broke. */
  lemma StopBetweenProbesReadsAsAffected(cfg: Config, useHash: bool, profile: Profile, settings: Settings,
                                         env: nat -> Env, second: Env, at: string, requireGrease: bool, report: Report,
                                         r: Result<Snapshot>)
    requires ValidConfig(cfg) && settings.paths == cfg.paths && profile.constructible
    requires settings.exhaustive && settings.share && settings.resultsEnabled && settings.targetMatches
    requires settings.greaseConfigured && settings.greaseChecked && settings.greaseUsable
    requires forall k :: !Stops(env(k))
    requires report == FullReport(cfg, useHash, profile, settings, env, Env(true, true, Echoed, true, true, 4), second)
    requires r == SubmissionOf(Payload(report, profile, cfg.paths), at, requireGrease, cfg)
    ensures MayPublish(report, profile, cfg.paths)
    ensures report.grease.Some? && report.grease.value.verdict == None
    ensures r.Accepted? && r.value.grease.Some? && r.value.grease.value.verdict == Affected
  {
    hide SubmissionOf, PublicPaths, PublicGrease, CountLeaves, PathAgrees, FullReport, EffectsFromMatrix, CaseOf,
      MayPublish, DifferentialOf, VerdictFor, PublicProbe, Metrics;
    var first := Env(true, true, Echoed, true, true, 4);
    var keys := Keys(cfg)[..|cfg.axes| - 1];
    UnstoppedRunPublishes(cfg, useHash, profile, settings, env, first, second);
    RunSizes(cfg, useHash, profile, settings, env, first, second);
    PublishedIsAccepted(cfg, useHash, profile, settings, env, first, second, at, requireGrease);
    HalfPair(keys, settings.greasePath, first, second);
    VerdictStored(Payload(report, profile, cfg.paths), at, requireGrease, cfg, true);
    AffectedControl(r.value.grease.value, CaseOf(settings.greasePath, PROBE_ID, keys, first));
  }

  lemma HalfPair(keys: seq<string>, path: string, first: Env, second: Env)
    requires first.constructed && first.readied && Stops(first)
    ensures DifferentialOf(true, true, true, false, keys, path, first, second) ==
            Some(Differential(Some(CaseOf(path, PROBE_ID, keys, first)), None, None))
    ensures CaseOf(path, PROBE_ID, keys, first).ready == Fulfilled
  {
  }

  lemma AffectedControl(g: Grease, control: Case)
    requires control.ready == Fulfilled && g.control == PublicProbe(Some(control)) && g.enabled == PublicProbe(None)
    requires g.verdict == VerdictFor(g.control, g.enabled, true)
    ensures g.verdict == Affected
  {
  }

  lemma VerdictStored(input: RawSubmission, at: string, requireGrease: bool, cfg: Config, apiPresent: bool)
    requires SubmissionOf(input, at, requireGrease, cfg).Accepted? && input.webTransport == Bool(apiPresent)
    ensures var s := SubmissionOf(input, at, requireGrease, cfg).value;
            s.grease.Some? ==>
              |s.grease.value.control| == STAGES && |s.grease.value.enabled| == STAGES &&
              s.grease.value.verdict == VerdictFor(s.grease.value.control, s.grease.value.enabled, apiPresent)
  {
    hide RunOf, CountsOf, PathsOf, NormalizeBrowser, ConclusionFor, OutcomeOf;
  }

  // ------------------------------------------------------------------ publishing again

  /** A payload of the page, for whatever run produced it. */
  ghost predicate Published(input: RawSubmission, cfg: Config) {
    exists p: Publication :: p.Valid(cfg) && input == p.Input(cfg)
  }

  /** Everything a published run depends on. */
  datatype Publication = Publication(
    useHash: bool, profile: Profile, settings: Settings, env: nat -> Env, first: Env, second: Env)
  {
    ghost function Report(cfg: Config): Page.Report
      requires cfg.axes != []
    {
      FullReport(cfg, useHash, profile, settings, env, first, second)
    }

    ghost predicate Valid(cfg: Config) {
      ValidConfig(cfg) && Distinct(settings.paths) && MayPublish(Report(cfg), profile, cfg.paths)
    }

    ghost function Input(cfg: Config): RawSubmission
      requires cfg.axes != []
    {
      Payload(Report(cfg), profile, cfg.paths)
    }
  }

  lemma PublishedEffects(input: RawSubmission, at: string, setup: S.Setup)
    requires Published(input, setup.cfg)
    requires SubmissionOf(input, at, setup.requireGrease, setup.cfg).Accepted?
    ensures EffectsFromMatrix(SubmissionOf(input, at, setup.requireGrease, setup.cfg).value, setup.cfg)
    ensures Distinct(setup.cfg.paths)
  {
    hide SubmissionOf, Payload, MayPublish, FullReport, StoresWhatThePageShows, PairAcceptable, EffectsFromMatrix;
    var p: Publication :| p.Valid(setup.cfg) && input == p.Input(setup.cfg);
    PublishedIsAccepted(setup.cfg, p.useHash, p.profile, p.settings, p.env, p.first, p.second, at, setup.requireGrease);
  }

  /** Two publications of one browser family, the second recorded while the first is the family's
      latest result, whatever was recorded for other families in between: the second is answered
      `changed` exactly when the two stored results differ in more than the time of receipt. */
  lemma ChangedExactly(state: S.State, earlier: RawSubmission, later: RawSubmission, at: string, at': string,
                       setup: S.Setup)
    requires Published(earlier, setup.cfg) && Published(later, setup.cfg)
    requires var a := SubmissionOf(earlier, at, setup.requireGrease, setup.cfg);
             a.Accepted? && S.PreviousOf(state, a.value.browser.key) == Some(a.value)
    requires var b := SubmissionOf(later, at', setup.requireGrease, setup.cfg);
             b.Accepted? && b.value.browser.key ==
               SubmissionOf(earlier, at, setup.requireGrease, setup.cfg).value.browser.key
    ensures var a := SubmissionOf(earlier, at, setup.requireGrease, setup.cfg).value;
            var b := SubmissionOf(later, at', setup.requireGrease, setup.cfg).value;
            var r := S.RecordOf(state, later, at', setup);
            r.Accepted? && (r.value.ack.changed <==> a.(receivedAt := b.receivedAt) != b)
  {
    hide SubmissionOf, Published, EffectsFromMatrix, CanonicalSnapshot, DiffOf, S.LogAfter;
    PublishedEffects(earlier, at, setup);
    PublishedEffects(later, at', setup);
    AcceptedIsCanonical(earlier, at, setup.requireGrease, setup.cfg);
    AcceptedIsCanonical(later, at', setup.requireGrease, setup.cfg);
    DiffIsExactForPages(SubmissionOf(earlier, at, setup.requireGrease, setup.cfg).value,
                        SubmissionOf(later, at', setup.requireGrease, setup.cfg).value, setup.cfg);
  }

  // ------------------------------------------------------------------ the deployment

  /** The lists written out in the page and those written out in the store are the same, and so are
      the labels the page shows and those the store looks up. */
  lemma ListsCoincide()
    ensures PAGE_LISTS == STORE_LISTS && ValidConfig(STORE_LISTS)
    ensures forall i :: 0 <= i < |PAGE_LISTS.axes| ==>
      PAGE_LISTS.axes[i].key in OPTION_LABELS && PAGE_LISTS.axes[i].title == OPTION_LABELS[PAGE_LISTS.axes[i].key]
  {
    DeploymentIsValid();
    LabelsAre();
    assert |PAGE_LISTS.axes| == |STORE_LISTS.axes| == 5;
    forall i | 0 <= i < 5 ensures PAGE_LISTS.axes[i] == StoreAxis(OPTION_KEYS[i]) {
    }
    assert PAGE_LISTS.axes == STORE_LISTS.axes;
  }

  lemma LabelsAre()
    ensures StoreAxis("allowPooling") == EXHAUSTIVE_AXES[0] && StoreAxis("requireUnreliable") == EXHAUSTIVE_AXES[1]
    ensures StoreAxis("congestionControl") == EXHAUSTIVE_AXES[2] && StoreAxis("protocols") == EXHAUSTIVE_AXES[3]
    ensures StoreAxis("serverCertificateHashes") == CERTIFICATE_AXIS
  {
    assert "allowPooling"[0] == 'a' && "requireUnreliable"[0] == 'r' && "congestionControl"[0] == 'c'
           && "protocols"[0] == 'p' && "serverCertificateHashes"[0] == 's';
  }

  /** The page as deployed against the store as deployed, each with its own lists. */
  lemma DeployedAgreement(useHash: bool, profile: Profile, settings: Settings, env: nat -> Env,
                          first: Env, second: Env, at: string, requireGrease: bool)
    requires Distinct(settings.paths)
    requires MayPublish(FullReport(PAGE_LISTS, useHash, profile, settings, env, first, second), profile, PATHS)
    ensures var report := FullReport(PAGE_LISTS, useHash, profile, settings, env, first, second);
            var r := SubmissionOf(Payload(report, profile, PATHS), at, requireGrease, STORE_LISTS);
            && (r.Accepted? <==>
                && (report.grease.Some? ==> PairAcceptable(profile.constructible, first, second))
                && (requireGrease ==> report.grease.Some?))
            && (r.Accepted? ==>
                && StoresWhatThePageShows(r.value, report, profile, PAGE_LISTS)
                && EffectsFromMatrix(r.value, STORE_LISTS)
                && (r.value.grease.Some? ==>
                    (report.grease.value.verdict == Some(r.value.grease.value.verdict) <==>
                     !profile.constructible || !Stops(first))))
  {
    hide SubmissionOf, Payload, MayPublish, FullReport, StoresWhatThePageShows, PairAcceptable, ValidConfig,
      EffectsFromMatrix;
    ListsCoincide();
    assert PAGE_LISTS.paths == PATHS;
    PublishedIsAccepted(PAGE_LISTS, useHash, profile, settings, env, first, second, at, requireGrease);
  }

  lemma KeptOf143(kept: Option<string>)
    requires KeepsVersion("143.0", kept)
    ensures kept == Some("143")
  {
    var v, d := "143.0", kept.value;
    assert v[0] == '1' && v[1] == '4' && v[2] == '3' && v[3] == '.';
    assert d == v[..|d|];
    assert forall k :: 0 <= k < |d| ==> d[k] in d && d[k] == v[k];
    assert v[..3] == "143";
  }

  /** For instance: a page in Firefox 143 is filed under "firefox", with version "143". */
  lemma FirefoxIsFiledAsFirefox(useHash: bool, profile: Profile, settings: Settings, env: nat -> Env,
                                first: Env, second: Env, at: string, requireGrease: bool)
    requires Distinct(settings.paths) && profile.name == "Firefox" && profile.version == Some("143.0")
    requires MayPublish(FullReport(PAGE_LISTS, useHash, profile, settings, env, first, second), profile, PATHS)
    ensures var report := FullReport(PAGE_LISTS, useHash, profile, settings, env, first, second);
            var r := SubmissionOf(Payload(report, profile, PATHS), at, requireGrease, STORE_LISTS);
            r.Accepted? ==> r.value.browser == Browser("firefox", "Firefox", Some("143"))
  {
    hide SubmissionOf, Payload, MayPublish, FullReport, PathAgrees, FamilyOf, EffectsFromMatrix, KeepsVersion,
      PairAcceptable, PublicProbe;
    DeployedAgreement(useHash, profile, settings, env, first, second, at, requireGrease);
    FamilyOfNames();
    var report := FullReport(PAGE_LISTS, useHash, profile, settings, env, first, second);
    var r := SubmissionOf(Payload(report, profile, PATHS), at, requireGrease, STORE_LISTS);
    if r.Accepted? { KeptOf143(r.value.browser.version); }
  }

  /** Eight paths, five axes, runs of 128 or 256 cases. */
  lemma DeployedSizes(useHash: bool)
    ensures |VariantsUsed(PAGE_LISTS, useHash)| == (if useHash then 32 else 16)
    ensures |Planned(PATHS, VariantsUsed(PAGE_LISTS, useHash))| == if useHash then 256 else 128
  {
    hide VariantsUsed, Planned, FullMatrix;
    ListsCoincide();
    VariantsUsedAreFull(PAGE_LISTS, useHash);
    FullIsCounted(VariantsUsed(PAGE_LISTS, useHash), Keys(PAGE_LISTS), AxisCount(PAGE_LISTS, useHash));
    SizesSupported();
    PlannedLength(PATHS, VariantsUsed(PAGE_LISTS, useHash));
  }
}
