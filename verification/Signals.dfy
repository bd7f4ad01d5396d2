/** What the option signal of a path means. */
module Signals {
  import opened Lists
  import opened Masks
  import opened Variants
  import opened Results
  import opened Page

  predicate IsReady(c: Case) {
    StageAt(c, READY) == Fulfilled
  }

  function UsesAndReady(key: string): Case -> bool {
    (c: Case) => key in c.optionKeys && IsReady(c)
  }

  function LacksAndReady(key: string): Case -> bool {
    (c: Case) => key !in c.optionKeys && IsReady(c)
  }

  /** The four numbers of an effect, as counts over the cases. */
  lemma EffectCounts(cases: seq<Case>, axis: Axis)
    ensures EffectOfAxis(cases, axis) == PageEffect(axis.key, axis.title,
              Ratio(Count(cases, UsesAndReady(axis.key)), Count(cases, Uses(axis.key))),
              Ratio(Count(cases, LacksAndReady(axis.key)), Count(cases, Lacks(axis.key))))
  {
    CountFilter(cases, Uses(axis.key), IsFulfilled(READY), UsesAndReady(axis.key));
    CountFilter(cases, Lacks(axis.key), IsFulfilled(READY), LacksAndReady(axis.key));
  }

  /** Cases with an option and cases without it make up all cases, also among the ready ones. */
  lemma EffectSums(cases: seq<Case>, axis: Axis)
    ensures var e := EffectOfAxis(cases, axis);
            && e.withOption.ready + e.withoutOption.ready == CountFulfilled(cases, READY)
            && e.withOption.total + e.withoutOption.total == |cases|
  {
    EffectCounts(cases, axis);
    CountSplit(cases, IsFulfilled(READY), Uses(axis.key), UsesAndReady(axis.key), LacksAndReady(axis.key));
    var all := (c: Case) => true;
    CountSplit(cases, all, Uses(axis.key), Uses(axis.key), Lacks(axis.key));
    CountAll(cases, all);
  }

  /** In the option set of every ready case. */
  ghost predicate InEveryReady(cases: seq<Case>, key: string) {
    forall c :: c in cases && IsReady(c) ==> key in c.optionKeys
  }

  /** In the option set of no ready case. */
  ghost predicate InNoReady(cases: seq<Case>, key: string) {
    forall c :: c in cases && IsReady(c) ==> key !in c.optionKeys
  }

  lemma OnlyWithMeans(cases: seq<Case>, axis: Axis)
    requires exists c :: c in cases && IsReady(c)
    ensures ReadyOnlyWith(EffectOfAxis(cases, axis)) <==> InEveryReady(cases, axis.key)
    ensures ReadyOnlyWithout(EffectOfAxis(cases, axis)) <==> InNoReady(cases, axis.key)
    ensures !(InEveryReady(cases, axis.key) && InNoReady(cases, axis.key))
  {
    EffectCounts(cases, axis);
    CountZero(cases, UsesAndReady(axis.key));
    CountZero(cases, LacksAndReady(axis.key));
    var c :| c in cases && IsReady(c);
    assert UsesAndReady(axis.key)(c) || LacksAndReady(axis.key)(c);
  }

  /** When some case was ready: the signal's "ready only with" list names exactly the axes in the
      intersection of all ready option sets, its "ready only without" list exactly those outside
      their union, and no axis is on both. */
  lemma SignalLists(cases: seq<Case>, axes: seq<Axis>)
    requires exists c :: c in cases && IsReady(c)
    ensures var effects := EffectsOfAxes(cases, axes);
            var onlyWith, onlyWithout := Filter(effects, ReadyOnlyWith), Filter(effects, ReadyOnlyWithout);
            && (forall e :: e in onlyWith <==>
                exists i :: 0 <= i < |axes| && e == effects[i] && InEveryReady(cases, axes[i].key))
            && (forall e :: e in onlyWithout <==>
                exists i :: 0 <= i < |axes| && e == effects[i] && InNoReady(cases, axes[i].key))
            && (forall e :: !(e in onlyWith && e in onlyWithout))
  {
    var effects := EffectsOfAxes(cases, axes);
    FilterMembers(effects, ReadyOnlyWith);
    FilterMembers(effects, ReadyOnlyWithout);
    forall i | 0 <= i < |axes|
      ensures ReadyOnlyWith(effects[i]) <==> InEveryReady(cases, axes[i].key)
      ensures ReadyOnlyWithout(effects[i]) <==> InNoReady(cases, axes[i].key)
    {
      OnlyWithMeans(cases, axes[i]);
    }
    hide ReadyOnlyWith, ReadyOnlyWithout, InEveryReady, InNoReady;
    forall e ensures !(e in effects && ReadyOnlyWith(e) && ReadyOnlyWithout(e)) {
      NotBoth(e);
    }
  }

  /** The text of the signal: none ready, all ready, or the titles on the two lists. */
  lemma SignalText(total: nat, ready: nat, effects: seq<PageEffect>)
    ensures ready == 0 ==> SignalOf(total, ready, effects) == "No combination reached ready"
    ensures ready == total && ready != 0 ==> SignalOf(total, ready, effects) == "Every tested combination reached ready"
    ensures ready != 0 && ready != total ==>
              var w := EffectTitles(Filter(effects, ReadyOnlyWith));
              var l := EffectTitles(Filter(effects, ReadyOnlyWithout));
              SignalOf(total, ready, effects) ==
              if w == [] && l == [] then "Mixed or interacting option effects"
              else if l == [] then "ready only with " + Join(w, ", ")
              else if w == [] then "ready only without " + Join(l, ", ")
              else "ready only with " + Join(w, ", ") + "; " + "ready only without " + Join(l, ", ")
  {
    hide Filter, ReadyOnlyWith, ReadyOnlyWithout;
    if ready != 0 && ready != total {
      var w := "ready only with " + Join(EffectTitles(Filter(effects, ReadyOnlyWith)), ", ");
      var l := "ready only without " + Join(EffectTitles(Filter(effects, ReadyOnlyWithout)), ", ");
      JoinCons(w, [l], "; ");
      JoinCons(l, [], "; ");
      assert [w] + [l] == [w, l] && [w] + [] == [w] && [] + [l] == [l];
    }
  }

  lemma NotBoth(e: PageEffect)
    ensures !(ReadyOnlyWith(e) && ReadyOnlyWithout(e))
  {
  }

  // ------------------------------------------------------------------ the full power set

  /** How many masks below n have bit i. */
  function BitsBelow(n: nat, i: nat): nat {
    if n == 0 then 0 else BitsBelow(n - 1, i) + if Bit(n - 1, i) then 1 else 0
  }

  lemma {:induction false} BitsDouble(n: nat, i: nat)
    ensures BitsBelow(2 * n, i) == if i == 0 then n else 2 * BitsBelow(n, i - 1)
  {
    if n > 0 {
      BitsDouble(n - 1, i);
      assert BitsBelow(2 * n, i) ==
        BitsBelow(2 * (n - 1), i) + (if Bit(2 * n - 2, i) then 1 else 0) + if Bit(2 * n - 1, i) then 1 else 0;
      assert (2 * n - 2) / 2 == n - 1 && (2 * n - 1) / 2 == n - 1;
    }
  }

  lemma {:induction false} HalfHaveBit(n: nat, i: nat)
    requires i < n
    ensures BitsBelow(Pow2(n), i) == Pow2(n - 1)
  {
    BitsDouble(Pow2(n - 1), i);
    if i > 0 { HalfHaveBit(n - 1, i - 1); }
  }

  function UsesKey(key: string): Variant -> bool {
    (v: Variant) => key in v.optionKeys
  }

  lemma {:induction false} VariantsWithKey(keys: seq<string>, i: nat, n: nat)
    requires Distinct(keys) && i < |keys|
    ensures Count(AllVariants(keys, n), UsesKey(keys[i])) == BitsBelow(n, i)
  {
    hide Bit, OptionsOf;
    if n > 0 {
      VariantsWithKey(keys, i, n - 1);
      assert AllVariants(keys, n)[..n - 1] == AllVariants(keys, n - 1);
      OptionsMember(n - 1, keys, i);
    }
  }

  /** One path's cases, one per variant, in the page's order. */
  function Row(path: string, variants: seq<Variant>, env: nat -> Env, offset: nat): (s: seq<Case>)
    ensures |s| == |variants|
    ensures forall j :: 0 <= j < |s| ==> s[j] == CaseOf(path, variants[j].id, variants[j].optionKeys, env(offset + j))
  {
    seq(|variants|, j requires 0 <= j < |variants| =>
        CaseOf(path, variants[j].id, variants[j].optionKeys, env(offset + j)))
  }

  lemma CaseKeys(path: string, variantId: string, optionKeys: seq<string>, env: Env)
    ensures var c := CaseOf(path, variantId, optionKeys, env);
            c.path == path && c.variantId == variantId && c.optionKeys == optionKeys
  {
  }

  lemma RowUses(path: string, variants: seq<Variant>, env: nat -> Env, offset: nat, key: string)
    ensures Count(Row(path, variants, env, offset), Uses(key)) == Count(variants, UsesKey(key))
  {
    hide CaseOf;
    var row := Row(path, variants, env, offset);
    forall j | 0 <= j < |row| ensures Uses(key)(row[j]) == UsesKey(key)(variants[j]) {
      CaseKeys(path, variants[j].id, variants[j].optionKeys, env(offset + j));
    }
    CountEqual(row, Uses(key), variants, UsesKey(key));
  }

  lemma SortedVariants(keys: seq<string>, n: nat, hash: Option<string>)
    ensures multiset(Sort(AllVariants(keys, n), Comparator(hash))) == multiset(AllVariants(keys, n))
    ensures |Sort(AllVariants(keys, n), Comparator(hash))| == n
  {
    hide AtOrBefore, VariantFor, Sort, TotalOrder;
    ComparatorIsOrder(hash);
    SortCorrect(AllVariants(keys, n), Comparator(hash));
  }

  lemma HalfOfVariants(keys: seq<string>, hash: Option<string>, i: nat)
    requires Distinct(keys) && i < |keys|
    ensures var vs := Sort(AllVariants(keys, Pow2(|keys|)), Comparator(hash));
            |vs| == 2 * Pow2(|keys| - 1) && Count(vs, UsesKey(keys[i])) == Pow2(|keys| - 1)
  {
    hide BitsBelow, AtOrBefore, VariantFor, Sort, Count, AllVariants;
    SortedVariants(keys, Pow2(|keys|), hash);
    CountPermuted(AllVariants(keys, Pow2(|keys|)), Sort(AllVariants(keys, Pow2(|keys|)), Comparator(hash)),
                  UsesKey(keys[i]));
    VariantsWithKey(keys, i, Pow2(|keys|));
    HalfHaveBit(|keys|, i);
  }

  /** On the full power set of n axes each side of every effect has 2^(n-1) cases, whatever the
      outcomes and the order of the variants. */
  lemma HalfOnEachSide(path: string, axes: seq<Axis>, hash: Option<string>, env: nat -> Env, offset: nat, i: nat)
    requires var keys := Map(axes, (a: Axis) => a.key); Distinct(keys)
    requires i < |axes|
    ensures var keys := Map(axes, (a: Axis) => a.key);
            var row := Row(path, Sort(AllVariants(keys, Pow2(|keys|)), Comparator(hash)), env, offset);
            var e := EffectOfAxis(row, axes[i]);
            e.withOption.total == e.withoutOption.total == Pow2(|axes| - 1)
  {
    hide EffectOfAxis, AtOrBefore, VariantFor, Pow2, CaseOf, Count, Sort;
    var keys := Map(axes, (a: Axis) => a.key);
    var vs := Sort(AllVariants(keys, Pow2(|keys|)), Comparator(hash));
    var row := Row(path, vs, env, offset);
    HalfOfVariants(keys, hash, i);
    RowUses(path, vs, env, offset, keys[i]);
    EffectCounts(row, axes[i]);
    EffectSums(row, axes[i]);
  }
}
