/** What the store accepts, and what it makes of it: each validator of result-store.mjs as a method,
    against a declarative statement of what it accepts. */
module Sanitize {
  import opened Lists
  import opened Masks
  import opened Results
  import N = Negotiation

  const RESULT_SCHEMA_VERSION: nat := 1
  const MAX_COUNT: nat := 4096

  // ------------------------------------------------------------------ plain values

  /** `requiredCount` */
  function CountOf(l: Leaf): Result<nat> {
    if l.Num? && 0 <= l.n <= MAX_COUNT then Accepted(l.n) else Rejected
  }

  /** `requiredBoolean` */
  function BoolOf(l: Leaf): Result<bool> {
    if l.Bool? then Accepted(l.b) else Rejected
  }

  function ValueOr<T>(r: Result<T>, default: T): T {
    if r.Accepted? then r.value else default
  }

  predicate CountAtMost(l: Leaf, bound: nat) {
    CountOf(l).Accepted? && CountOf(l).value <= bound
  }

  /** A dictionary of n counts, none above the bound. */
  function CountsOf(leaves: seq<Leaf>, n: nat, bound: nat): Result<seq<nat>> {
    if forall k :: 0 <= k < n ==> CountAtMost(At(leaves, k), bound)
    then Accepted(seq(n, k requires 0 <= k < n => ValueOr(CountOf(At(leaves, k)), 0)))
    else Rejected
  }

  method SanitizeCounts(leaves: seq<Leaf>, n: nat, bound: nat) returns (r: Result<seq<nat>>)
    ensures r == CountsOf(leaves, n, bound)
  {
    var counts: seq<nat> := [];
    for k := 0 to n
      invariant |counts| == k
      invariant forall j :: 0 <= j < k ==>
        CountAtMost(At(leaves, j), bound) && counts[j] == CountOf(At(leaves, j)).value
    {
      var count := CountOf(At(leaves, k));
      if count.Rejected? || count.value > bound {
        assert !CountAtMost(At(leaves, k), bound);
        return Rejected;
      }
      counts := counts + [count.value];
    }
    assert counts == seq(n, k requires 0 <= k < n => ValueOr(CountOf(At(leaves, k)), 0));
    return Accepted(counts);
  }

  const FAMILIES: map<string, (string, string)> := map[
    "brave" := ("brave", "Brave"),
    "chrome" := ("chrome", "Chrome"),
    "firefox" := ("firefox", "Firefox"),
    "microsoft edge" := ("edge", "Microsoft Edge"),
    "safari" := ("safari", "Safari")]

  function FamilyOf(name: Leaf): (string, string) {
    var supplied := if name.Str? then N.Lower(name.s) else "";
    if supplied in FAMILIES then FAMILIES[supplied] else ("other", "Other")
  }

  predicate IsDigit(c: char) {
    '0' <= c <= '9'
  }

  /** At most `max` leading digits: `/^(\d{1,4})/` with max 4. */
  function LeadingDigits(s: string, max: nat): (d: string)
    ensures |d| <= max && d <= s && forall c :: c in d ==> IsDigit(c)
    ensures |d| == max || |d| == |s| || !IsDigit(s[|d|])
  {
    if max == 0 || s == [] || !IsDigit(s[0]) then "" else [s[0]] + LeadingDigits(s[1..], max - 1)
  }

  function NormalizeBrowser(name: Leaf, version: string): Browser {
    var (key, family) := FamilyOf(name);
    var digits := LeadingDigits(version, 4);
    Browser(key, family, if digits == "" then None else Some(digits))
  }

  /** A version is kept as its leading digits, four at most; without any it is not kept. */
  ghost predicate KeepsVersion(version: string, kept: Option<string>) {
    if version == "" || !IsDigit(version[0]) then kept == None
    else
      && kept.Some? && kept.value <= version && 1 <= |kept.value| <= 4 && (forall c :: c in kept.value ==> IsDigit(c))
      && (|kept.value| == 4 || |kept.value| == |version| || !IsDigit(version[|kept.value|]))
  }

  /** Cutting at a dot first makes no difference: a dot is not a digit. */
  lemma CutKeepsVersion(version: string, kept: Option<string>)
    requires KeepsVersion(N.BeforeFirst(version, '.'), kept)
    ensures KeepsVersion(version, kept)
  {
    var cut := N.BeforeFirst(version, '.');
    if version != "" && version[0] == '.' {
      assert cut == "";
    } else if version != "" {
      assert cut[0] == version[0];
    }
  }

  lemma BrowserIsNormalized(name: Leaf, version: string)
    ensures var b := NormalizeBrowser(name, version);
            (b.key, b.name) == FamilyOf(name) && KeepsVersion(version, b.version)
  {
    hide FamilyOf;
  }

  function RunOf(mode: Leaf, cancelled: Leaf, planned: Leaf, completed: Leaf, caps: Capabilities): Result<Run> {
    if mode != Str("exhaustive") then Rejected
    else if cancelled != Bool(false) then Rejected
    else
      var plannedCases :- CountOf(planned);
      var completedCases :- CountOf(completed);
      if plannedCases == 0 || completedCases > plannedCases then Rejected
      else if caps.webTransport && completedCases != plannedCases then Rejected
      else if !caps.webTransport && completedCases != 0 then Rejected
      else Accepted(Run(plannedCases, completedCases))
  }

  function ConclusionFor(caps: Capabilities, metrics: seq<nat>): string
    requires |metrics| == METRICS
  {
    if !caps.webTransport then "WebTransport API unavailable"
    else if metrics[M_FULL_ECHO] > 0 then "Full datagram and stream echo works"
    else if metrics[M_STREAM_ECHO] > 0 && metrics[M_DATAGRAM_UNAVAILABLE] >= metrics[M_STREAM_ECHO] then
      "Ready and stream echo work; datagram API unavailable"
    else if metrics[M_STREAM_ECHO] > 0 then "Ready and stream echo work; datagram echo failed"
    else if metrics[M_READY] > 0 then "Ready works; complete stream echo did not"
    else if metrics[M_CONSTRUCTOR] > 0 then "WebTransport exists; no case reached ready"
    else "All constructor calls failed"
  }

  // ------------------------------------------------------------------ option matrix

  predicate SupportedSize(total: nat) {
    total == 16 || total == 32
  }

  function OptionLeaves(mask: nat, keys: seq<string>): seq<Leaf> {
    Map(OptionsOf(mask, keys), (k: string) => Str(k))
  }

  /** One entry: a mask below the total, exactly the options of its bits in key order, legal outcomes. */
  predicate LegalCombination(c: RawCombination, total: nat, keys: seq<string>) {
    && c.mask.Num? && 0 <= c.mask.n < total
    && c.options == Items(OptionLeaves(c.mask.n, keys))
    && forall k :: 0 <= k < STAGES ==> OutcomeOf(At(c.stages, k)).Accepted?
  }

  predicate LegalMatrix(items: seq<RawCombination>, total: nat, keys: seq<string>) {
    && |items| == total
    && (total != 0 ==>
        && SupportedSize(total)
        && (forall i :: 0 <= i < total ==> LegalCombination(items[i], total, keys))
        && (forall i, j :: 0 <= i < j < total ==> items[i].mask != items[j].mask))
  }

  function IndexOfMask(items: seq<RawCombination>, m: nat): (i: nat)
    ensures i <= |items| && (i < |items| ==> items[i].mask == Num(m))
    ensures forall j :: 0 <= j < i ==> items[j].mask != Num(m)
  {
    if items == [] || items[0].mask == Num(m) then 0 else 1 + IndexOfMask(items[1..], m)
  }

  function StagesOf(leaves: seq<Leaf>): seq<Outcome> {
    seq(STAGES, k requires 0 <= k < STAGES => ValueOr(OutcomeOf(At(leaves, k)), NotRun))
  }

  /** The entry submitted for mask m. */
  function EntryFor(items: seq<RawCombination>, m: nat, keys: seq<string>): Combination {
    var i := IndexOfMask(items, m);
    Combination(m, OptionsOf(m, keys), StagesOf(if i < |items| then items[i].stages else []))
  }

  /** The option matrix by mask. */
  function Arranged(items: seq<RawCombination>, total: nat, keys: seq<string>): (s: seq<Combination>)
    ensures |s| == total && forall m :: 0 <= m < total ==> s[m] == EntryFor(items, m, keys)
  {
    seq(total, m requires 0 <= m < total => EntryFor(items, m, keys))
  }

  function MatrixOf(input: RawList<RawCombination>, total: nat, keys: seq<string>): Result<seq<Combination>> {
    if input.Items? && LegalMatrix(input.items, total, keys) then Accepted(Arranged(input.items, total, keys))
    else Rejected
  }

  function ByMask(): (Combination, Combination) -> bool {
    (l: Combination, r: Combination) => l.mask <= r.mask
  }

  method SanitizeStages(leaves: seq<Leaf>) returns (r: Result<seq<Outcome>>)
    ensures r.Accepted? <==> forall k :: 0 <= k < STAGES ==> OutcomeOf(At(leaves, k)).Accepted?
    ensures r.Accepted? ==> r.value == StagesOf(leaves)
  {
    var stages: seq<Outcome> := [];
    for k := 0 to STAGES
      invariant |stages| == k
      invariant forall j :: 0 <= j < k ==> OutcomeOf(At(leaves, j)) == Accepted(stages[j])
    {
      var o := OutcomeOf(At(leaves, k));
      if o.Rejected? { return Rejected; }
      stages := stages + [o.value];
    }
    return Accepted(stages);
  }

  method SanitizeCombinations(input: RawList<RawCombination>, total: nat, keys: seq<string>)
    returns (r: Result<seq<Combination>>)
    ensures r == MatrixOf(input, total, keys)
  {
    if !input.Items? || |input.items| != total { return Rejected; }
    if total == 0 { return Accepted([]); }
    if total != 16 && total != 32 { return Rejected; }
    var combinations := CollectCombinations(input.items, total, keys);
    if combinations.Rejected? { return Rejected; }
    SortedByMask(input.items, total, keys, combinations.value);
    var sorted := Sort(combinations.value, ByMask());
    var mask := 0;
    while mask < total
      invariant mask <= total
    {
      if sorted[mask].mask != mask {
        // the bound and duplicate checks already force full coverage
        assert false;
      }
      mask := mask + 1;
    }
    return Accepted(sorted);
  }

  predicate Collected(items: seq<RawCombination>, keys: seq<string>, cs: seq<Combination>) {
    && |cs| == |items|
    && forall i :: 0 <= i < |items| ==>
      items[i].mask == Num(cs[i].mask)
        && cs[i] == Combination(cs[i].mask, OptionsOf(cs[i].mask, keys), StagesOf(items[i].stages))
  }

  /** The loop over the submitted entries, with its set of masks seen. */
  method CollectCombinations(items: seq<RawCombination>, total: nat, keys: seq<string>)
    returns (r: Result<seq<Combination>>)
    requires |items| == total && SupportedSize(total)
    ensures r.Accepted? <==> LegalMatrix(items, total, keys)
    ensures r.Accepted? ==> Collected(items, keys, r.value)
  {
    hide OutcomeOf, StagesOf, OptionsOf;
    var seen: set<nat> := {};
    var combinations: seq<Combination> := [];
    for i := 0 to total
      invariant Collected(items[..i], keys, combinations)
      invariant forall j :: 0 <= j < i ==> LegalCombination(items[j], total, keys)
      invariant forall m :: m in seen <==> exists j :: 0 <= j < i && items[j].mask == Num(m)
      invariant forall j, k :: 0 <= j < k < i ==> items[j].mask != items[k].mask
    {
      var item := items[i];
      var maskCount := CountOf(item.mask);
      if maskCount.Rejected? {
        assert !LegalCombination(item, total, keys);
        return Rejected;
      }
      var mask := maskCount.value;
      if mask >= total {
        assert !LegalCombination(item, total, keys);
        return Rejected;
      }
      if mask in seen {
        ghost var j :| 0 <= j < i && items[j].mask == Num(mask);
        assert items[j].mask == items[i].mask;
        return Rejected;
      }
      seen := seen + {mask};
      var expectedOptions := OptionsOf(mask, keys);
      if item.options != Items(Map(expectedOptions, (k: string) => Str(k))) {
        assert !LegalCombination(item, total, keys);
        return Rejected;
      }
      var stages := SanitizeStages(item.stages);
      if stages.Rejected? {
        assert !LegalCombination(item, total, keys);
        return Rejected;
      }
      combinations := combinations + [Combination(mask, expectedOptions, stages.value)];
    }
    assert items[..total] == items;
    return Accepted(combinations);
  }

  lemma ByMaskIsOrder()
    ensures TotalOrder(ByMask())
  {
  }

  /** Distinct masks below the total are all masks, so sorting puts each at its own index. */
  lemma SortedByMask(items: seq<RawCombination>, total: nat, keys: seq<string>, cs: seq<Combination>)
    requires total != 0 && LegalMatrix(items, total, keys) && Collected(items, keys, cs)
    ensures Sort(cs, ByMask()) == Arranged(items, total, keys)
    ensures forall m: nat :: m < total ==> exists i :: 0 <= i < total && items[i].mask == Num(m)
  {
    hide OptionsOf, StagesOf, OutcomeOf, EntryFor, Sort, OptionLeaves;
    ByMaskIsOrder();
    SortCorrect(cs, ByMask());
    var s := Sort(cs, ByMask());
    var masks := Map(s, (c: Combination) => c.mask);
    MasksDistinct(items, total, keys, cs);
    DistinctMultiset(cs);
    DistinctMultiset(s);
    forall i | 0 <= i < total ensures s[i].mask < total && s[i] in cs {
      assert s[i] in multiset(s);
      assert s[i] in multiset(cs);
    }
    forall i, j | 0 <= i < j < total ensures s[i].mask < s[j].mask {
      assert ByMask()(s[i], s[j]);
      assert s[i] != s[j];
      if s[i].mask == s[j].mask { MaskDetermines(items, total, keys, cs, s[i], s[j]); }
    }
    IncreasingIsIdentity(masks, total);
    forall m | 0 <= m < total ensures s[m] == EntryFor(items, m, keys) {
      assert masks[m] == m;
      var i :| 0 <= i < total && cs[i] == s[m];
      EntryIs(items, total, keys, cs, i, m);
    }
    forall m: nat | m < total ensures exists i :: 0 <= i < total && items[i].mask == Num(m) {
      assert masks[m] == m;
      var i :| 0 <= i < total && cs[i] == s[m];
      assert items[i].mask == Num(m);
    }
  }

  lemma MasksDistinct(items: seq<RawCombination>, total: nat, keys: seq<string>, cs: seq<Combination>)
    requires total != 0 && LegalMatrix(items, total, keys) && Collected(items, keys, cs)
    ensures Distinct(cs) && forall i :: 0 <= i < total ==> cs[i].mask < total
  {
    forall i, j | 0 <= i < j < total ensures cs[i] != cs[j] {
      assert items[i].mask != items[j].mask;
    }
    forall i | 0 <= i < total ensures cs[i].mask < total {
      assert LegalCombination(items[i], total, keys);
    }
  }

  lemma MaskDetermines(items: seq<RawCombination>, total: nat, keys: seq<string>, cs: seq<Combination>,
                       a: Combination, b: Combination)
    requires total != 0 && LegalMatrix(items, total, keys) && Collected(items, keys, cs)
    requires a in cs && b in cs && a.mask == b.mask
    ensures a == b
  {
    var i :| 0 <= i < total && cs[i] == a;
    var j :| 0 <= j < total && cs[j] == b;
    assert items[i].mask == items[j].mask;
  }

  lemma EntryIs(items: seq<RawCombination>, total: nat, keys: seq<string>, cs: seq<Combination>, i: nat, m: nat)
    requires total != 0 && LegalMatrix(items, total, keys) && Collected(items, keys, cs)
    requires i < total && cs[i].mask == m
    ensures cs[i] == EntryFor(items, m, keys)
  {
    hide OptionsOf, StagesOf;
    var k := IndexOfMask(items, m);
    assert items[i].mask == Num(m);
    assert k <= i;
  }

  /** A strictly increasing list of n naturals below n is 0, 1, ..., n - 1. */
  lemma {:induction false} IncreasingIsIdentity(s: seq<nat>, n: nat)
    requires |s| == n && (forall i, j :: 0 <= i < j < n ==> s[i] < s[j]) && forall i :: 0 <= i < n ==> s[i] < n
    ensures forall i :: 0 <= i < n ==> s[i] == i
  {
    if n > 0 {
      var k := n - 1;
      forall i | 0 <= i < k ensures s[..k][i] < k {
        assert s[i] < s[k];
      }
      IncreasingIsIdentity(s[..k], k);
      forall i | 0 <= i < k ensures s[i] == i {
        assert s[..k][i] == i;
      }
      if k > 0 { assert s[k - 1] < s[k]; }
    }
  }

  /** A list of supported size is accepted exactly when it is a permutation of all masks with the
      options of their bits and legal outcomes. */
  lemma MatrixIsPermutation(items: seq<RawCombination>, total: nat, keys: seq<string>)
    requires SupportedSize(total)
    ensures MatrixOf(Items(items), total, keys).Accepted? <==>
            && |items| == total
            && (forall i :: 0 <= i < |items| ==> LegalCombination(items[i], total, keys))
            && Permutation(Map(items, (c: RawCombination) => c.mask), seq(total, m => Num(m)))
  {
    var masks := Map(items, (c: RawCombination) => c.mask);
    var all: seq<Leaf> := seq(total, m => Num(m));
    if |items| == total && forall i :: 0 <= i < |items| ==> LegalCombination(items[i], total, keys) {
      assert Distinct(all);
      DistinctMultiset(all);
      DistinctMultiset(masks);
      hide LegalCombination;
      if LegalMatrix(items, total, keys) {
        var nats := seq(total, i requires 0 <= i < total =>
                        if items[i].mask.Num? && items[i].mask.n >= 0 then items[i].mask.n else 0);
        forall i | 0 <= i < total ensures nats[i] < total && masks[i] == Num(nats[i]) {
          assert LegalCombination(items[i], total, keys);
        }
        assert Distinct(nats) by {
          forall i, j | 0 <= i < j < total ensures nats[i] != nats[j] {
            assert items[i].mask != items[j].mask;
          }
        }
        assert Distinct(masks);
        Pigeonhole(nats, total);
        forall x ensures multiset(masks)[x] == multiset(all)[x] {
          MaskOccurs(masks, nats, all, total, x);
        }
      } else {
        assert !Distinct(masks);
      }
    }
  }

  lemma MaskOccurs(masks: seq<Leaf>, nats: seq<nat>, all: seq<Leaf>, total: nat, x: Leaf)
    requires |masks| == |nats| == |all| == total
    requires forall i :: 0 <= i < total ==> nats[i] < total && masks[i] == Num(nats[i]) && all[i] == Num(i)
    requires forall m: nat :: m < total ==> m in nats
    requires multiset(masks)[x] <= 1 && multiset(all)[x] <= 1
    ensures multiset(masks)[x] == multiset(all)[x]
  {
    if x in all {
      var i :| 0 <= i < total && all[i] == x;
      assert i in nats;
      var j :| 0 <= j < total && nats[j] == i;
      assert masks[j] == x;
    }
    if x in masks {
      var j :| 0 <= j < total && masks[j] == x;
      assert all[nats[j]] == x;
    }
    assert (x in multiset(masks)) == (x in masks) && (x in multiset(all)) == (x in all);
  }

  // ------------------------------------------------------------------ effects and signal

  function RatioOf(r: RawRatio): Result<Ratio> {
    var ready :- CountOf(r.ready);
    var total :- CountOf(r.total);
    if ready > total then Rejected else Accepted(Ratio(ready, total))
  }

  predicate LegalEffect(e: RawEffect, cfg: Config) {
    && e.key.Str? && e.key.s in Keys(cfg)
    && RatioOf(e.withOption).Accepted? && RatioOf(e.withoutOption).Accepted?
  }

  predicate LegalEffects(items: seq<RawEffect>, cfg: Config) {
    && |items| <= |cfg.axes|
    && (forall i :: 0 <= i < |items| ==> LegalEffect(items[i], cfg))
    && (forall i, j :: 0 <= i < j < |items| ==> items[i].key != items[j].key)
  }

  function EffectFor(e: RawEffect): Effect {
    Effect(if e.key.Str? then e.key.s else "",
           ValueOr(RatioOf(e.withOption), Ratio(0, 0)), ValueOr(RatioOf(e.withoutOption), Ratio(0, 0)))
  }

  /** Missing effects are none; otherwise at most one legal effect per known option. */
  function EffectsOf(input: RawList<RawEffect>, cfg: Config): Result<seq<Effect>> {
    if input.Missing? then Accepted([])
    else if input.Items? && LegalEffects(input.items, cfg) then Accepted(Map(input.items, EffectFor))
    else Rejected
  }

  method SanitizeEffects(input: RawList<RawEffect>, cfg: Config) returns (r: Result<seq<Effect>>)
    ensures r == EffectsOf(input, cfg)
  {
    if input.Missing? { return Accepted([]); }
    if !input.Items? || |input.items| > |cfg.axes| { return Rejected; }
    hide RatioOf;
    var items := input.items;
    var seen: set<Leaf> := {};
    var effects: seq<Effect> := [];
    for i := 0 to |items|
      invariant |effects| == i
      invariant forall j :: 0 <= j < i ==> LegalEffect(items[j], cfg) && effects[j] == EffectFor(items[j])
      invariant forall l :: l in seen <==> exists j :: 0 <= j < i && items[j].key == l
      invariant forall j, k :: 0 <= j < k < i ==> items[j].key != items[k].key
    {
      var effect := items[i];
      if !(effect.key.Str? && effect.key.s in Keys(cfg)) {
        assert !LegalEffect(items[i], cfg);
        return Rejected;
      }
      if effect.key in seen {
        ghost var j :| 0 <= j < i && items[j].key == effect.key;
        assert items[j].key == items[i].key;
        return Rejected;
      }
      seen := seen + {effect.key};
      var withOption, withoutOption := RatioOf(effect.withOption), RatioOf(effect.withoutOption);
      if withOption.Rejected? || withoutOption.Rejected? {
        assert !LegalEffect(items[i], cfg);
        return Rejected;
      }
      effects := effects + [Effect(effect.key.s, withOption.value, withoutOption.value)];
    }
    assert effects == Map(items, EffectFor);
    return Accepted(effects);
  }

  predicate OnlyWith(e: Effect) {
    e.withOption.ready > 0 && e.withoutOption.ready == 0
  }

  predicate OnlyWithout(e: Effect) {
    e.withoutOption.ready > 0 && e.withOption.ready == 0
  }

  function Titles(effects: seq<Effect>, cfg: Config): seq<string> {
    Map(effects, (e: Effect) => Label(cfg, e.key))
  }

  function OptionSignal(total: nat, ready: nat, effects: seq<Effect>, webTransport: bool, cfg: Config): string {
    if !webTransport && total == 0 then "WebTransport API unavailable"
    else if ready == 0 then "No combination reached ready"
    else if ready == total then "Every tested combination reached ready"
    else
      var onlyWith, onlyWithout := Filter(effects, OnlyWith), Filter(effects, OnlyWithout);
      var signals :=
        (if |onlyWith| > 0 then ["ready only with " + Join(Titles(onlyWith, cfg), ", ")] else []) +
        (if |onlyWithout| > 0 then ["ready only without " + Join(Titles(onlyWithout, cfg), ", ")] else []);
      if |signals| > 0 then Join(signals, "; ") else "Mixed or interacting option effects"
  }

  // ------------------------------------------------------------------ paths

  predicate StageIs(c: Combination, k: nat, o: Outcome) {
    k < |c.stages| && c.stages[k] == o
  }

  function CountStage(cs: seq<Combination>, k: nat, o: Outcome): nat {
    Count(cs, (c: Combination) => StageIs(c, k, o))
  }

  /** `validateCombinationCounts`: the six aggregates are what the option matrix says. */
  predicate CountsMatch(counts: seq<nat>, cs: seq<Combination>)
    requires |counts| == PATH_METRICS
  {
    && (forall k :: 0 <= k < STAGES ==> counts[k] == CountStage(cs, k, Pass))
    && counts[DATAGRAM_UNAVAILABLE] == CountStage(cs, DATAGRAM, Unavailable)
  }

  function PathOf(item: RawPath, path: string, webTransport: bool, cfg: Config): Result<PathResult> {
    var total :- CountOf(item.total);
    var counts :- CountsOf(item.counts, PATH_METRICS, total);
    var effects :- EffectsOf(item.effects, cfg);
    var combinations :- MatrixOf(item.combinations, total, Keys(cfg));
    if !CountsMatch(counts, combinations) then Rejected
    else Accepted(PathResult(path, total, counts, effects, combinations,
                             OptionSignal(total, counts[READY], effects, webTransport, cfg)))
  }

  method SanitizePath(item: RawPath, path: string, webTransport: bool, cfg: Config) returns (r: Result<PathResult>)
    ensures r == PathOf(item, path, webTransport, cfg)
  {
    var total := CountOf(item.total);
    if total.Rejected? { return Rejected; }
    var counts := SanitizeCounts(item.counts, PATH_METRICS, total.value);
    if counts.Rejected? { return Rejected; }
    var effects := SanitizeEffects(item.effects, cfg);
    if effects.Rejected? { return Rejected; }
    var combinations := SanitizeCombinations(item.combinations, total.value, Keys(cfg));
    if combinations.Rejected? { return Rejected; }
    if !CountsMatch(counts.value, combinations.value) { return Rejected; }
    var signal := OptionSignal(total.value, counts.value[READY], effects.value, webTransport, cfg);
    return Accepted(PathResult(path, total.value, counts.value, effects.value, combinations.value, signal));
  }

  function IndexOfPath(items: seq<RawPath>, path: string): (i: nat)
    ensures i <= |items| && (i < |items| ==> items[i].path == Str(path))
    ensures forall j :: 0 <= j < i ==> items[j].path != Str(path)
  {
    if items == [] || items[0].path == Str(path) then 0 else 1 + IndexOfPath(items[1..], path)
  }

  predicate AllPresent(items: seq<RawPath>, paths: seq<string>) {
    forall i :: 0 <= i < |paths| ==> IndexOfPath(items, paths[i]) < |items|
  }

  /** The configured paths in their own order, whatever the order of submission. */
  function PathResults(items: seq<RawPath>, paths: seq<string>, webTransport: bool,
                       cfg: Config): Result<seq<PathResult>>
    requires AllPresent(items, paths)
  {
    if paths == [] then Accepted([])
    else
      var n := |paths| - 1;
      var before :- PathResults(items, paths[..n], webTransport, cfg);
      var last :- PathOf(items[IndexOfPath(items, paths[n])], paths[n], webTransport, cfg);
      Accepted(before + [last])
  }

  function SumTotals(ps: seq<PathResult>): nat {
    if ps == [] then 0 else SumTotals(ps[..|ps| - 1]) + ps[|ps| - 1].total
  }

  function PathsOf(input: RawList<RawPath>, completedCases: nat, webTransport: bool,
                   cfg: Config): Result<seq<PathResult>> {
    if !input.Items? || |input.items| != |cfg.paths| || !AllPresent(input.items, cfg.paths) then Rejected
    else
      var paths :- PathResults(input.items, cfg.paths, webTransport, cfg);
      if SumTotals(paths) != completedCases then Rejected else Accepted(paths)
  }

  /** When all of |items| distinct paths occur among the items, no two items share a path. */
  lemma PresentIsDistinct(items: seq<RawPath>, paths: seq<string>)
    requires Distinct(paths) && |items| == |paths| && AllPresent(items, paths)
    ensures forall i, j :: 0 <= i < j < |items| ==> items[i].path != items[j].path
  {
    var where := Map(paths, (p: string) => IndexOfPath(items, p));
    assert Distinct(where) by {
      forall i, j | 0 <= i < j < |where| ensures where[i] != where[j] {
        assert items[where[i]].path == Str(paths[i]) && items[where[j]].path == Str(paths[j]);
      }
    }
    forall x | x in where ensures x < |items| {
      var i :| 0 <= i < |where| && where[i] == x;
    }
    Pigeonhole(where, |items|);
    forall i, j | 0 <= i < j < |items| ensures items[i].path != items[j].path {
      assert i in where && j in where;
      var a :| 0 <= a < |where| && where[a] == i;
      var b :| 0 <= b < |where| && where[b] == j;
      assert items[i].path == Str(paths[a]) && items[j].path == Str(paths[b]) && a != b;
      assert paths[a] != paths[b];
    }
  }

  /** `new Map(input.map((item) => [item?.path, item]))`: a later item displaces an earlier one. */
  function ByPath(items: seq<RawPath>): map<Leaf, RawPath> {
    if items == [] then map[]
    else
      var n := |items| - 1;
      ByPath(items[..n])[items[n].path := items[n]]
  }

  function PathLeaves(items: seq<RawPath>): seq<Leaf> {
    Map(items, (i: RawPath) => i.path)
  }

  lemma {:induction false} ByPathKeys(items: seq<RawPath>)
    ensures ByPath(items).Keys == set l | l in PathLeaves(items)
  {
    if items != [] {
      var n := |items| - 1;
      ByPathKeys(items[..n]);
      assert PathLeaves(items) == PathLeaves(items[..n]) + [items[n].path];
    }
  }

  lemma {:induction false} ByPathValue(items: seq<RawPath>, i: nat)
    requires Distinct(PathLeaves(items)) && i < |items|
    ensures items[i].path in ByPath(items) && ByPath(items)[items[i].path] == items[i]
    decreases |items|
  {
    var n := |items| - 1;
    assert PathLeaves(items[..n]) == PathLeaves(items)[..n];
    if i < n {
      ByPathValue(items[..n], i);
      assert PathLeaves(items)[i] != PathLeaves(items)[n];
    }
  }

  /** How many entries the map has, and what it holds for a path. */
  lemma ByPathFacts(items: seq<RawPath>, paths: seq<string>)
    requires Distinct(paths) && |items| == |paths|
    ensures |ByPath(items)| != |paths| ==> !AllPresent(items, paths)
    ensures |ByPath(items)| == |paths| ==> forall p :: Str(p) in ByPath(items) <==> IndexOfPath(items, p) < |items|
    ensures |ByPath(items)| == |paths| ==>
      forall p :: Str(p) in ByPath(items) ==> ByPath(items)[Str(p)] == items[IndexOfPath(items, p)]
  {
    var leaves := PathLeaves(items);
    ByPathKeys(items);
    DistinctSize(leaves);
    assert |ByPath(items)| == |ByPath(items).Keys|;
    if AllPresent(items, paths) { PresentIsDistinct(items, paths); }
    if Distinct(leaves) {
      forall p ensures Str(p) in ByPath(items) <==> IndexOfPath(items, p) < |items| {
        var k := IndexOfPath(items, p);
        if k < |items| { assert leaves[k] == Str(p); }
        if Str(p) in leaves {
          var i :| 0 <= i < |items| && leaves[i] == Str(p);
          assert items[i].path == Str(p);
        }
      }
      forall p | Str(p) in ByPath(items) ensures ByPath(items)[Str(p)] == items[IndexOfPath(items, p)] {
        ByPathValue(items, IndexOfPath(items, p));
      }
    }
  }

  method SanitizePaths(input: RawList<RawPath>, completedCases: nat, webTransport: bool, cfg: Config)
    returns (r: Result<seq<PathResult>>)
    requires Distinct(cfg.paths)
    ensures r == PathsOf(input, completedCases, webTransport, cfg)
  {
    hide PathOf, IndexOfPath, ByPath, PathResults, SumTotals;
    if !input.Items? || |input.items| != |cfg.paths| { return Rejected; }
    var items := input.items;
    var supplied := ByPath(items);
    ByPathFacts(items, cfg.paths);
    if |supplied| != |cfg.paths| { return Rejected; }
    var paths: seq<PathResult> := [];
    var totalCases := 0;
    NoPaths(items, cfg.paths[..0], webTransport, cfg);
    for i := 0 to |cfg.paths|
      invariant AllPresent(items, cfg.paths[..i])
      invariant PathResults(items, cfg.paths[..i], webTransport, cfg) == Accepted(paths)
      invariant totalCases == SumTotals(paths)
    {
      var path := cfg.paths[i];
      if Str(path) !in supplied { return Rejected; }
      var item := SanitizePath(supplied[Str(path)], path, webTransport, cfg);
      if item.Rejected? {
        if AllPresent(items, cfg.paths) {
          RejectedPath(items, cfg.paths, webTransport, cfg, i);
        }
        return Rejected;
      }
      PathResultsSnoc(items, cfg.paths[..i], path, webTransport, cfg, paths, item.value);
      assert cfg.paths[..i + 1] == cfg.paths[..i] + [path];
      paths := paths + [item.value];
      totalCases := totalCases + item.value.total;
    }
    assert cfg.paths[..|cfg.paths|] == cfg.paths;
    if totalCases != completedCases { return Rejected; }
    return Accepted(paths);
  }

  lemma NoPaths(items: seq<RawPath>, paths: seq<string>, webTransport: bool, cfg: Config)
    requires paths == []
    ensures PathResults(items, paths, webTransport, cfg) == Accepted([]) && SumTotals([]) == 0
  {
  }

  lemma PathResultsSnoc(items: seq<RawPath>, paths: seq<string>, path: string, webTransport: bool, cfg: Config,
                        rs: seq<PathResult>, r: PathResult)
    requires AllPresent(items, paths) && PathResults(items, paths, webTransport, cfg) == Accepted(rs)
    requires IndexOfPath(items, path) < |items|
    requires PathOf(items[IndexOfPath(items, path)], path, webTransport, cfg) == Accepted(r)
    ensures AllPresent(items, paths + [path])
    ensures PathResults(items, paths + [path], webTransport, cfg) == Accepted(rs + [r])
    ensures SumTotals(rs + [r]) == SumTotals(rs) + r.total
  {
    hide PathOf, IndexOfPath, AllPresent, SumTotals;
    PresentSnoc(items, paths, path);
    SumSnoc(rs, r);
    var more := paths + [path];
    assert more[..|paths|] == paths && more[|paths|] == path;
  }

  lemma PresentSnoc(items: seq<RawPath>, paths: seq<string>, path: string)
    requires AllPresent(items, paths) && IndexOfPath(items, path) < |items|
    ensures AllPresent(items, paths + [path])
  {
    hide IndexOfPath;
  }

  lemma SumSnoc(rs: seq<PathResult>, r: PathResult)
    ensures SumTotals(rs + [r]) == SumTotals(rs) + r.total
  {
    assert (rs + [r])[..|rs|] == rs;
  }

  lemma {:induction false} RejectedPath(items: seq<RawPath>, paths: seq<string>, webTransport: bool, cfg: Config,
                                        i: nat)
    requires AllPresent(items, paths) && i < |paths|
    requires PathOf(items[IndexOfPath(items, paths[i])], paths[i], webTransport, cfg).Rejected?
    ensures PathResults(items, paths, webTransport, cfg).Rejected?
    decreases |paths|
  {
    hide PathOf;
    var n := |paths| - 1;
    if i < n {
      RejectedPath(items, paths[..n], webTransport, cfg, i);
    }
  }

  // ------------------------------------------------------------------ GREASE

  /** The outcome shapes one connection attempt can have: echo stages run exactly after ready, ready
      only after construction, and only the datagram API can be unavailable. */
  predicate LegalProbe(p: seq<Outcome>)
    requires |p| == STAGES
  {
    && p[G_CONSTRUCTOR] != Unavailable && p[G_READY] != Unavailable && p[G_BIDI] != Unavailable
    && p[G_UNI] != Unavailable
    && (p[G_CONSTRUCTOR] != Pass ==> p[G_READY] == NotRun)
    && (p[G_READY] != Pass ==> p[G_DATAGRAM] == NotRun && p[G_BIDI] == NotRun && p[G_UNI] == NotRun)
    && (p[G_READY] == Pass ==> p[G_DATAGRAM] != NotRun && p[G_BIDI] != NotRun && p[G_UNI] != NotRun)
  }

  function ProbeOf(leaves: seq<Leaf>): Result<seq<Outcome>> {
    if (forall k :: 0 <= k < STAGES ==> OutcomeOf(At(leaves, k)).Accepted?) && LegalProbe(StagesOf(leaves))
    then Accepted(StagesOf(leaves))
    else Rejected
  }

  method SanitizeGreaseProbe(leaves: seq<Leaf>) returns (r: Result<seq<Outcome>>)
    ensures r == ProbeOf(leaves)
  {
    var probe := SanitizeStages(leaves);
    if probe.Rejected? { return Rejected; }
    var p := probe.value;
    var fixed := [G_CONSTRUCTOR, G_READY, G_BIDI, G_UNI];
    for i := 0 to 4
      invariant forall j :: 0 <= j < i ==> p[fixed[j]] != Unavailable
    {
      if p[fixed[i]] == Unavailable { return Rejected; }
    }
    assert fixed[0] == G_CONSTRUCTOR && fixed[1] == G_READY && fixed[2] == G_BIDI && fixed[3] == G_UNI;
    if p[G_CONSTRUCTOR] != Pass && p[G_READY] != NotRun { return Rejected; }
    if p[G_READY] != Pass && (p[G_DATAGRAM] != NotRun || p[G_BIDI] != NotRun || p[G_UNI] != NotRun) { return Rejected; }
    if p[G_READY] == Pass && (p[G_DATAGRAM] == NotRun || p[G_BIDI] == NotRun || p[G_UNI] == NotRun) { return Rejected; }
    return Accepted(p);
  }

  function VerdictFor(control: seq<Outcome>, enabled: seq<Outcome>, webTransport: bool): Verdict
    requires |control| == STAGES && |enabled| == STAGES
  {
    if !webTransport then ApiUnavailable
    else if control[G_READY] != Pass then ControlFailed
    else if enabled[G_READY] != Pass then Affected
    else if control != enabled then Degraded
    else Tolerant
  }

  predicate NothingRan(p: seq<Outcome>) {
    forall k :: 0 <= k < |p| ==> p[k] == NotRun
  }

  function GreaseOf(input: RawGrease, webTransport: bool): Result<Option<Grease>> {
    match input
    case Absent => Accepted(None)
    case Given(rawControl, rawEnabled) =>
      var control :- ProbeOf(rawControl);
      var enabled :- ProbeOf(rawEnabled);
      if !webTransport && !(NothingRan(control) && NothingRan(enabled)) then Rejected
      else Accepted(Some(Grease(control, enabled, VerdictFor(control, enabled, webTransport))))
  }

  method SanitizeGrease(input: RawGrease, webTransport: bool) returns (r: Result<Option<Grease>>)
    ensures r == GreaseOf(input, webTransport)
  {
    if input.Absent? { return Accepted(None); }
    var control := SanitizeGreaseProbe(input.control);
    if control.Rejected? { return Rejected; }
    var enabled := SanitizeGreaseProbe(input.enabled);
    if enabled.Rejected? { return Rejected; }
    var verdict: Verdict;
    if !webTransport {
      if !NothingRan(control.value) || !NothingRan(enabled.value) { return Rejected; }
      verdict := ApiUnavailable;
    } else if control.value[G_READY] != Pass {
      verdict := ControlFailed;
    } else if enabled.value[G_READY] != Pass {
      verdict := Affected;
    } else if exists k :: 0 <= k < STAGES && control.value[k] != enabled.value[k] {
      verdict := Degraded;
    } else {
      verdict := Tolerant;
      assert control.value == enabled.value;
    }
    return Accepted(Some(Grease(control.value, enabled.value, verdict)));
  }

  // ------------------------------------------------------------------ the whole submission

  function SubmissionOf(input: RawSubmission, receivedAt: string, requireGrease: bool, cfg: Config): Result<Snapshot> {
    if input.schemaVersion != Num(RESULT_SCHEMA_VERSION) then Rejected
    else
      var browser := NormalizeBrowser(input.browserName, input.browserVersion);
      var secureContext :- BoolOf(input.secureContext);
      var webTransport :- BoolOf(input.webTransport);
      var caps := Capabilities(secureContext, webTransport);
      var run :- RunOf(input.mode, input.cancelled, input.plannedCases, input.completedCases, caps);
      var metrics :- CountsOf(input.metrics, METRICS, run.completedCases);
      var paths :- PathsOf(input.paths, run.completedCases, webTransport, cfg);
      var grease :- GreaseOf(input.grease, webTransport);
      if requireGrease && grease.None? then Rejected
      else Accepted(Snapshot(receivedAt, browser, caps, run, metrics, ConclusionFor(caps, metrics), paths, grease))
  }

  method SanitizeSubmission(input: RawSubmission, receivedAt: string, requireGrease: bool, cfg: Config)
    returns (r: Result<Snapshot>)
    requires Distinct(cfg.paths)
    ensures r == SubmissionOf(input, receivedAt, requireGrease, cfg)
  {
    if input.schemaVersion != Num(RESULT_SCHEMA_VERSION) { return Rejected; }
    var browser := NormalizeBrowser(input.browserName, input.browserVersion);
    if BoolOf(input.secureContext).Rejected? || BoolOf(input.webTransport).Rejected? { return Rejected; }
    var caps := Capabilities(input.secureContext.b, input.webTransport.b);
    var run := RunOf(input.mode, input.cancelled, input.plannedCases, input.completedCases, caps);
    if run.Rejected? { return Rejected; }
    var metrics := SanitizeCounts(input.metrics, METRICS, run.value.completedCases);
    if metrics.Rejected? { return Rejected; }
    var paths := SanitizePaths(input.paths, run.value.completedCases, caps.webTransport, cfg);
    if paths.Rejected? { return Rejected; }
    var grease := SanitizeGrease(input.grease, caps.webTransport);
    if grease.Rejected? { return Rejected; }
    if requireGrease && grease.value.None? { return Rejected; }
    return Accepted(Snapshot(receivedAt, browser, caps, run.value, metrics.value,
                             ConclusionFor(caps, metrics.value), paths.value, grease.value));
  }
}
