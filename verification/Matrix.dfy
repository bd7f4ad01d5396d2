/** Option masks and the exhaustive list of constructor variants, for any number of option axes. */
module Masks {
  import opened Lists

  function Pow2(n: nat): (p: nat)
    ensures p >= 1
  {
    if n == 0 then 1 else 2 * Pow2(n - 1)
  }

  /** `mask >> i` */
  function Shifted(mask: nat, i: nat): nat {
    if i == 0 then mask else Shifted(mask / 2, i - 1)
  }

  /** `(mask & (1 << i)) !== 0` */
  predicate Bit(mask: nat, i: nat) {
    Shifted(mask, i) % 2 == 1
  }

  /** The keys whose bit is set, in key order. */
  function OptionsOf(mask: nat, keys: seq<string>): seq<string> {
    if keys == [] then []
    else
      var n := |keys| - 1;
      OptionsOf(mask, keys[..n]) + if Bit(mask, n) then [keys[n]] else []
  }

  lemma NoOptions(mask: nat, keys: seq<string>)
    requires keys == []
    ensures OptionsOf(mask, keys) == []
  {
  }

  lemma OptionsSnoc(mask: nat, keys: seq<string>, k: string)
    ensures OptionsOf(mask, keys + [k]) == OptionsOf(mask, keys) + if Bit(mask, |keys|) then [k] else []
  {
    assert (keys + [k])[..|keys|] == keys;
  }

  /** A key is listed exactly when its own bit is set. */
  lemma {:induction false} OptionsMember(mask: nat, keys: seq<string>, i: nat)
    requires Distinct(keys) && i < |keys|
    ensures keys[i] in OptionsOf(mask, keys) <==> Bit(mask, i)
  {
    var n := |keys| - 1;
    OptionsAreKeys(mask, keys[..n]);
    if i < n {
      OptionsMember(mask, keys[..n], i);
    } else {
      assert keys[n] !in keys[..n];
    }
  }

  lemma {:induction false} OptionsAreKeys(mask: nat, keys: seq<string>)
    ensures forall k :: k in OptionsOf(mask, keys) ==> k in keys
  {
    if keys != [] {
      OptionsAreKeys(mask, keys[..|keys| - 1]);
    }
  }

  /** A mask below 2^k has no bit from k on, so longer key lists add nothing. */
  lemma {:induction false} OptionsTruncated(mask: nat, keys: seq<string>, k: nat)
    requires mask < Pow2(k) && k <= |keys|
    ensures OptionsOf(mask, keys) == OptionsOf(mask, keys[..k])
    decreases |keys|
  {
    if k == |keys| {
      assert keys[..k] == keys;
    } else {
      var n := |keys| - 1;
      HighBitsClear(mask, k, n);
      OptionsTruncated(mask, keys[..n], k);
      assert keys[..n][..k] == keys[..k];
    }
  }

  lemma {:induction false} HighBitsClear(mask: nat, k: nat, i: nat)
    requires mask < Pow2(k) && k <= i
    ensures Shifted(mask, i) == 0
  {
    if i > 0 {
      HighBitsClear(mask / 2, if k == 0 then 0 else k - 1, i - 1);
    }
  }

  /** Masks below 2^n are told apart by their n bits. */
  lemma {:induction false} BitsDetermine(a: nat, b: nat, n: nat)
    requires a < Pow2(n) && b < Pow2(n)
    requires forall i :: 0 <= i < n ==> Bit(a, i) == Bit(b, i)
    ensures a == b
  {
    if n > 0 {
      assert Bit(a, 0) == Bit(b, 0);
      forall i | 0 <= i < n - 1 ensures Bit(a / 2, i) == Bit(b / 2, i) {
        assert Bit(a, i + 1) == Bit(b, i + 1);
      }
      BitsDetermine(a / 2, b / 2, n - 1);
    }
  }

  /** The mask with the given bits. */
  function FromBits(b: seq<bool>): (m: nat)
    ensures m < Pow2(|b|)
  {
    if b == [] then 0 else (if b[0] then 1 else 0) + 2 * FromBits(b[1..])
  }

  lemma {:induction false} FromBitsBit(b: seq<bool>, i: nat)
    requires i < |b|
    ensures Bit(FromBits(b), i) == b[i]
  {
    assert FromBits(b) / 2 == FromBits(b[1..]);
    if i > 0 { FromBitsBit(b[1..], i - 1); }
  }

  function Elements(s: seq<string>): set<string> {
    set x | x in s
  }

  ghost predicate MaskFor(m: nat, keys: seq<string>, chosen: set<string>) {
    m < Pow2(|keys|) && Elements(OptionsOf(m, keys)) == chosen
  }

  /** Every subset of the axes is the option set of exactly one mask. */
  lemma EverySubsetOnce(keys: seq<string>, chosen: set<string>)
    requires Distinct(keys) && chosen <= Elements(keys)
    ensures exists m :: MaskFor(m, keys, chosen)
    ensures forall a, b :: MaskFor(a, keys, chosen) && MaskFor(b, keys, chosen) ==> a == b
  {
    var bits := seq(|keys|, i requires 0 <= i < |keys| => keys[i] in chosen);
    var m := FromBits(bits);
    OptionsAreKeys(m, keys);
    forall k ensures k in Elements(OptionsOf(m, keys)) <==> k in chosen {
      if k in keys {
        var i :| 0 <= i < |keys| && keys[i] == k;
        OptionsMember(m, keys, i);
        FromBitsBit(bits, i);
      }
    }
    assert MaskFor(m, keys, chosen);
    forall a, b | MaskFor(a, keys, chosen) && MaskFor(b, keys, chosen) ensures a == b {
      SameOptions(a, b, keys);
    }
  }

  lemma SameOptions(a: nat, b: nat, keys: seq<string>)
    requires Distinct(keys) && a < Pow2(|keys|) && b < Pow2(|keys|)
    requires Elements(OptionsOf(a, keys)) == Elements(OptionsOf(b, keys))
    ensures a == b
  {
    forall i | 0 <= i < |keys| ensures Bit(a, i) == Bit(b, i) {
      OptionsMember(a, keys, i);
      OptionsMember(b, keys, i);
      assert keys[i] in Elements(OptionsOf(a, keys)) <==> keys[i] in Elements(OptionsOf(b, keys));
    }
    BitsDetermine(a, b, |keys|);
  }

  // ------------------------------------------------------------------ bit count

  /** The number of set bits. */
  function PopCount(v: nat): nat {
    if v == 0 then 0 else v % 2 + PopCount(v / 2)
  }

  method BitCount(value: nat) returns (count: nat)
    ensures count == PopCount(value)
  {
    count := 0;
    var current := value;
    while current > 0
      invariant count + PopCount(current) == PopCount(value)
    {
      count := count + current % 2;
      current := current / 2;
    }
  }

  /** Counting bits is counting chosen options. */
  lemma {:induction false} PopCountIsOptions(mask: nat, keys: seq<string>)
    requires mask < Pow2(|keys|)
    ensures PopCount(mask) == |OptionsOf(mask, keys)|
  {
    OptionsSplit(mask, keys);
    if keys != [] {
      PopCountIsOptions(mask / 2, keys[1..]);
    }
  }

  lemma {:induction false} OptionsSplit(mask: nat, keys: seq<string>)
    ensures keys != [] ==>
      OptionsOf(mask, keys) == (if mask % 2 == 1 then [keys[0]] else []) + OptionsOf(mask / 2, keys[1..])
  {
    if |keys| > 1 {
      var n := |keys| - 1;
      OptionsSplit(mask, keys[..n]);
      assert keys[..n][1..] == keys[1..][..n - 1];
      assert Bit(mask, n) == Bit(mask / 2, n - 1);
    } else if |keys| == 1 {
      assert keys[..0] == [] && keys[1..] == [];
    }
  }

  // ------------------------------------------------------------------ hexadecimal ids

  const DIGITS: string := "0123456789abcdef"

  /** `mask.toString(16)` */
  function ToHex(m: nat): string {
    if m < 16 then [DIGITS[m]] else ToHex(m / 16) + [DIGITS[m % 16]]
  }

  function DigitValue(c: char): Option<nat> {
    if '0' <= c <= '9' then Some((c - '0') as nat)
    else if 'a' <= c <= 'f' then Some((c - 'a') as nat + 10)
    else None
  }

  /** `Number.parseInt(s, 16)` on lower-case digits: the longest leading run of digits, nothing when
      there is none. */
  function ParseHex(s: string): Option<nat> {
    if s == [] then None
    else
      var n := |s| - 1;
      if exists i :: 0 <= i < n && DigitValue(s[i]).None? then ParseHex(s[..n])
      else if DigitValue(s[n]).None? then ParseHex(s[..n])
      else if n == 0 then DigitValue(s[n])
      else
        var high := ParseHex(s[..n]);
        if high.None? then None else Some(16 * high.value + DigitValue(s[n]).value)
  }

  lemma {:induction false} HexRoundTrip(m: nat)
    ensures ToHex(m) != [] && ParseHex(ToHex(m)) == Some(m)
    ensures forall i :: 0 <= i < |ToHex(m)| ==> DigitValue(ToHex(m)[i]).Some?
  {
    DigitRoundTrip(m % 16);
    if m >= 16 {
      HexRoundTrip(m / 16);
      var s := ToHex(m);
      assert s[..|s| - 1] == ToHex(m / 16);
    }
  }

  lemma DigitRoundTrip(d: nat)
    requires d < 16
    ensures DigitValue(DIGITS[d]) == Some(d)
  {
  }

  const ID_PREFIX: string := "exhaustive-"

  function VariantId(mask: nat): string {
    ID_PREFIX + ToHex(mask)
  }

  /** `variantId.replace(/^exhaustive-/, "")` */
  function StripId(id: string): string {
    if ID_PREFIX <= id then id[|ID_PREFIX|..] else id
  }

  /** Parsing the id recovers the mask. */
  lemma IdRoundTrip(mask: nat)
    ensures ParseHex(StripId(VariantId(mask))) == Some(mask)
  {
    HexRoundTrip(mask);
    var id := VariantId(mask);
    assert ID_PREFIX <= id;
    assert id[|ID_PREFIX|..] == ToHex(mask);
  }

  /** The last of 32 masks, and the options of mask 5. */
  lemma MaskExamples(a: string, b: string, c: string)
    ensures VariantId(31) == "exhaustive-1f" && ParseHex("1f") == Some(31)
    ensures OptionsOf(5, [a, b, c]) == [a, c]
  {
    HexRoundTrip(31);
    assert ToHex(1) == "1" && ToHex(31) == "1" + [DIGITS[15]] == "1f";
    assert Bit(5, 0) && !Bit(5, 1) && Bit(5, 2) by {
      assert Shifted(5, 1) == Shifted(2, 0) == 2;
      assert Shifted(5, 2) == Shifted(2, 1) == Shifted(1, 0) == 1;
    }
    NoOptions(5, []);
    OptionsSnoc(5, [], a);
    OptionsSnoc(5, [a], b);
    OptionsSnoc(5, [a, b], c);
    assert [] + [a] == [a] && [a] + [b] == [a, b] && [a, b] + [c] == [a, b, c];
  }
}

/** `buildExhaustiveVariants` of the page. */
module Variants {
  import opened Lists
  import opened Masks

  datatype Variant = Variant(id: string, optionKeys: seq<string>, mask: nat)

  function VariantFor(mask: nat, keys: seq<string>): Variant {
    Variant(VariantId(mask), OptionsOf(mask, keys), mask)
  }

  function AllVariants(keys: seq<string>, n: nat): (s: seq<Variant>)
    ensures |s| == n && forall m :: 0 <= m < n ==> s[m] == VariantFor(m, keys)
  {
    seq(n, m requires 0 <= m < n => VariantFor(m, keys))
  }

  predicate UsesHash(v: Variant, hash: Option<string>) {
    hash.Some? && hash.value in v.optionKeys
  }

  /** The comparator as an order: hash variants first when the hash axis is there, then fewer
      options, then the smaller mask. */
  predicate AtOrBefore(l: Variant, r: Variant, hash: Option<string>) {
    if UsesHash(l, hash) != UsesHash(r, hash) then UsesHash(l, hash)
    else if PopCount(l.mask) != PopCount(r.mask) then PopCount(l.mask) < PopCount(r.mask)
    else l.mask <= r.mask
  }

  function Comparator(hash: Option<string>): (Variant, Variant) -> bool {
    (l: Variant, r: Variant) => AtOrBefore(l, r, hash)
  }

  lemma ComparatorIsOrder(hash: Option<string>)
    ensures TotalOrder(Comparator(hash))
  {
  }

  method BuildExhaustiveVariants(baseAxes: seq<string>, certificateAxis: string, includeCertificateHash: bool)
    returns (variants: seq<Variant>)
    ensures var keys := if includeCertificateHash then baseAxes + [certificateAxis] else baseAxes;
            var hash := if includeCertificateHash then Some(certificateAxis) else None;
            variants == Sort(AllVariants(keys, Pow2(|keys|)), Comparator(hash))
  {
    hide Pow2, Sort, OptionsOf, Bit, AtOrBefore, VariantId;
    var axes := if includeCertificateHash then baseAxes + [certificateAxis] else baseAxes;
    variants := [];
    var mask := 0;
    while mask < Pow2(|axes|)
      invariant mask <= Pow2(|axes|) && variants == AllVariants(axes, mask)
    {
      var optionKeys: seq<string> := [];
      NoOptions(mask, axes[..0]);
      for index := 0 to |axes|
        invariant optionKeys == OptionsOf(mask, axes[..index])
      {
        assert axes[..index + 1] == axes[..index] + [axes[index]];
        OptionsSnoc(mask, axes[..index], axes[index]);
        if Bit(mask, index) {
          optionKeys := optionKeys + [axes[index]];
        }
      }
      assert axes[..|axes|] == axes;
      variants := variants + [Variant(VariantId(mask), optionKeys, mask)];
      mask := mask + 1;
    }
    variants := Sort(variants, Comparator(if includeCertificateHash then Some(certificateAxis) else None));
  }

  lemma AllDistinct(keys: seq<string>, n: nat)
    ensures Distinct(AllVariants(keys, n))
  {
    forall i, j | 0 <= i < j < n ensures AllVariants(keys, n)[i] != AllVariants(keys, n)[j] {
      assert AllVariants(keys, n)[i].mask == i && AllVariants(keys, n)[j].mask == j;
    }
  }

  /** What the built list is: every mask, hence every subset of the axes, exactly once; strictly
      ordered by the comparator; and each id parses back to its mask. */
  lemma VariantsComplete(keys: seq<string>, hash: Option<string>)
    requires Distinct(keys)
    ensures var vs := Sort(AllVariants(keys, Pow2(|keys|)), Comparator(hash));
            && |vs| == Pow2(|keys|) && Distinct(vs)
            && (forall v :: v in vs <==> v.mask < Pow2(|keys|) && v == VariantFor(v.mask, keys))
            && (forall v :: v in vs ==> ParseHex(StripId(v.id)) == Some(v.mask))
            && (forall i, j :: 0 <= i < j < |vs| ==> AtOrBefore(vs[i], vs[j], hash) && !AtOrBefore(vs[j], vs[i], hash))
  {
    var all := AllVariants(keys, Pow2(|keys|));
    var le := Comparator(hash);
    var vs := Sort(all, le);
    ComparatorIsOrder(hash);
    SortCorrect(all, le);
    AllDistinct(keys, Pow2(|keys|));
    DistinctMultiset(all);
    DistinctMultiset(vs);
    forall v ensures v in vs <==> v.mask < Pow2(|keys|) && v == VariantFor(v.mask, keys) {
      assert v in vs <==> v in multiset(vs);
      assert v in all <==> v in multiset(all);
      if v.mask < Pow2(|keys|) && v == VariantFor(v.mask, keys) { assert all[v.mask] == v; }
    }
    forall v | v in vs ensures ParseHex(StripId(v.id)) == Some(v.mask) {
      IdRoundTrip(v.mask);
    }
    forall i, j | 0 <= i < j < |vs|
      ensures AtOrBefore(vs[i], vs[j], hash) && !AtOrBefore(vs[j], vs[i], hash)
    {
      assert le(vs[i], vs[j]);
      assert vs[i] in vs && vs[j] in vs && vs[i] != vs[j];
    }
  }

  /** Without the certificate axis: by number of options, then by mask. */
  lemma SmallVariantsFirst(axes: seq<string>, i: nat, j: nat)
    requires Distinct(axes) && i < j < Pow2(|axes|)
    ensures var vs := Sort(AllVariants(axes, Pow2(|axes|)), Comparator(None));
            && |vs| == Pow2(|axes|)
            && (|vs[i].optionKeys| < |vs[j].optionKeys|
                || (|vs[i].optionKeys| == |vs[j].optionKeys| && vs[i].mask < vs[j].mask))
  {
    VariantsComplete(axes, None);
    var vs := Sort(AllVariants(axes, Pow2(|axes|)), Comparator(None));
    var (l, r) := (vs[i], vs[j]);
    assert l in vs && r in vs;
    PopCountIsOptions(l.mask, axes);
    PopCountIsOptions(r.mask, axes);
  }

  /** With the certificate axis last, its variants come first; inside each group they are ordered by
      number of options, then by mask. */
  lemma HashVariantsFirst(baseAxes: seq<string>, certificateAxis: string, i: nat, j: nat)
    requires Distinct(baseAxes + [certificateAxis])
    requires var keys := baseAxes + [certificateAxis]; i < j < Pow2(|keys|)
    ensures var keys := baseAxes + [certificateAxis];
            var vs := Sort(AllVariants(keys, Pow2(|keys|)), Comparator(Some(certificateAxis)));
            && |vs| == Pow2(|keys|)
            && (Bit(vs[j].mask, |baseAxes|) ==> Bit(vs[i].mask, |baseAxes|))
            && (Bit(vs[i].mask, |baseAxes|) == Bit(vs[j].mask, |baseAxes|) ==>
                |vs[i].optionKeys| < |vs[j].optionKeys|
                || (|vs[i].optionKeys| == |vs[j].optionKeys| && vs[i].mask < vs[j].mask))
  {
    var keys := baseAxes + [certificateAxis];
    var hash := Some(certificateAxis);
    VariantsComplete(keys, hash);
    var vs := Sort(AllVariants(keys, Pow2(|keys|)), Comparator(hash));
    var (l, r) := (vs[i], vs[j]);
    assert l in vs && r in vs;
    OptionsMember(l.mask, keys, |baseAxes|);
    OptionsMember(r.mask, keys, |baseAxes|);
    PopCountIsOptions(l.mask, keys);
    PopCountIsOptions(r.mask, keys);
  }
}
