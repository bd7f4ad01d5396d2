/** Finite-list vocabulary shared by both halves of the model. All recursion is on the last
    element, because every list here grows by appending: bytes, events, operations, entries. */
module Lists {

  datatype Option<+T> = None | Some(value: T)

  /** Concatenation of a list of chunks. */
  function Flatten<T>(ss: seq<seq<T>>): seq<T> {
    if ss == [] then [] else Flatten(ss[..|ss| - 1]) + ss[|ss| - 1]
  }

  lemma FlattenSnoc<T>(ss: seq<seq<T>>, s: seq<T>)
    ensures Flatten(ss + [s]) == Flatten(ss) + s
  {
    assert (ss + [s])[..|ss|] == ss;
  }

  lemma {:induction false} FlattenAppend<T>(a: seq<seq<T>>, b: seq<seq<T>>)
    ensures Flatten(a + b) == Flatten(a) + Flatten(b)
  {
    if b == [] {
      assert a + b == a;
    } else {
      var n := |b| - 1;
      FlattenAppend(a, b[..n]);
      FlattenSnoc(a + b[..n], b[n]);
      assert a + b == (a + b[..n]) + [b[n]];
    }
  }

  function Filter<T>(s: seq<T>, p: T -> bool): seq<T> {
    if s == [] then []
    else
      var r := Filter(s[..|s| - 1], p);
      if p(s[|s| - 1]) then r + [s[|s| - 1]] else r
  }

  lemma {:induction false} FilterMembers<T>(s: seq<T>, p: T -> bool)
    ensures forall x :: x in Filter(s, p) <==> x in s && p(x)
  {
    if s != [] {
      assert s == s[..|s| - 1] + [s[|s| - 1]];
      FilterMembers(s[..|s| - 1], p);
    }
  }

  lemma FilterSnoc<T>(s: seq<T>, x: T, p: T -> bool)
    ensures Filter(s + [x], p) == if p(x) then Filter(s, p) + [x] else Filter(s, p)
  {
    assert (s + [x])[..|s|] == s;
  }

  lemma {:induction false} FilterAppend<T>(a: seq<T>, b: seq<T>, p: T -> bool)
    ensures Filter(a + b, p) == Filter(a, p) + Filter(b, p)
  {
    if b == [] {
      assert a + b == a;
    } else {
      var n := |b| - 1;
      FilterAppend(a, b[..n], p);
      assert (a + b)[..|a + b| - 1] == a + b[..n];
    }
  }

  /** A filter that keeps everything, and one that keeps nothing. */
  lemma {:induction false} FilterConstant<T>(s: seq<T>, p: T -> bool, keep: bool)
    requires forall x :: x in s ==> p(x) == keep
    ensures Filter(s, p) == if keep then s else []
  {
    if s != [] {
      assert s == s[..|s| - 1] + [s[|s| - 1]];
      FilterConstant(s[..|s| - 1], p, keep);
    }
  }

  function Map<T, U>(s: seq<T>, f: T -> U): (r: seq<U>)
    ensures |r| == |s| && forall i :: 0 <= i < |s| ==> r[i] == f(s[i])
  {
    seq(|s|, i requires 0 <= i < |s| => f(s[i]))
  }

  /** Filtering images is the image of filtering. */
  lemma {:induction false} FilterMapped<T, U>(s: seq<T>, f: T -> U, p: T -> bool, q: U -> bool)
    requires forall x :: x in s ==> p(x) == q(f(x))
    ensures Filter(Map(s, f), q) == Map(Filter(s, p), f)
  {
    if s != [] {
      var n := |s| - 1;
      assert s == s[..n] + [s[n]];
      FilterMapped(s[..n], f, p, q);
      assert Map(s, f)[..n] == Map(s[..n], f);
    }
  }

  /** How many elements satisfy p. */
  function Count<T>(s: seq<T>, p: T -> bool): (n: nat)
    ensures n <= |s|
  {
    if s == [] then 0 else Count(s[..|s| - 1], p) + if p(s[|s| - 1]) then 1 else 0
  }

  lemma CountSnoc<T>(s: seq<T>, x: T, p: T -> bool)
    ensures Count(s + [x], p) == Count(s, p) + if p(x) then 1 else 0
  {
    assert (s + [x])[..|s|] == s;
  }

  lemma {:induction false} CountAppend<T>(a: seq<T>, b: seq<T>, p: T -> bool)
    ensures Count(a + b, p) == Count(a, p) + Count(b, p)
  {
    if b == [] {
      assert a + b == a;
    } else {
      var n := |b| - 1;
      CountAppend(a, b[..n], p);
      assert (a + b)[..|a + b| - 1] == a + b[..n];
    }
  }

  /** Counting is transported along an index-wise correspondence. */
  lemma {:induction false} CountEqual<T, U>(s: seq<T>, p: T -> bool, t: seq<U>, q: U -> bool)
    requires |s| == |t| && forall i :: 0 <= i < |s| ==> p(s[i]) == q(t[i])
    ensures Count(s, p) == Count(t, q)
  {
    if s != [] { CountEqual(s[..|s| - 1], p, t[..|s| - 1], q); }
  }

  lemma {:induction false} CountMonotone<T>(s: seq<T>, p: T -> bool, q: T -> bool)
    requires forall x :: x in s && p(x) ==> q(x)
    ensures Count(s, p) <= Count(s, q)
  {
    if s != [] { CountMonotone(s[..|s| - 1], p, q); }
  }

  lemma {:induction false} CountSplit<T>(s: seq<T>, p: T -> bool, q: T -> bool, both: T -> bool, only: T -> bool)
    requires forall x :: both(x) == (p(x) && q(x)) && only(x) == (p(x) && !q(x))
    ensures Count(s, p) == Count(s, both) + Count(s, only)
  {
    if s != [] { CountSplit(s[..|s| - 1], p, q, both, only); }
  }

  lemma {:induction false} CountFilter<T>(s: seq<T>, p: T -> bool, q: T -> bool, both: T -> bool)
    requires forall x :: both(x) == (p(x) && q(x))
    ensures Count(Filter(s, p), q) == Count(s, both) && |Filter(s, p)| == Count(s, p)
  {
    if s != [] {
      CountFilter(s[..|s| - 1], p, q, both);
      if p(s[|s| - 1]) { CountSnoc(Filter(s[..|s| - 1], p), s[|s| - 1], q); }
    }
  }

  lemma {:induction false} CountZero<T>(s: seq<T>, p: T -> bool)
    ensures Count(s, p) == 0 <==> forall x :: x in s ==> !p(x)
  {
    if s != [] {
      assert s == s[..|s| - 1] + [s[|s| - 1]];
      CountZero(s[..|s| - 1], p);
    }
  }

  lemma {:induction false} CountAll<T>(s: seq<T>, p: T -> bool)
    ensures Count(s, p) == |s| <==> forall x :: x in s ==> p(x)
  {
    if s != [] {
      assert s == s[..|s| - 1] + [s[|s| - 1]];
      CountAll(s[..|s| - 1], p);
    }
  }

  /** An element of a list, taken out wherever it stands. */
  lemma TakeOut<T>(s: seq<T>, x: T, p: T -> bool) returns (rest: seq<T>)
    requires x in multiset(s)
    ensures multiset(rest) == multiset(s) - multiset{x} && |rest| == |s| - 1
    ensures Count(s, p) == Count(rest, p) + if p(x) then 1 else 0
  {
    var k :| 0 <= k < |s| && s[k] == x;
    rest := s[..k] + s[k + 1..];
    assert s == s[..k] + ([x] + s[k + 1..]);
    CountAppend(s[..k], [x] + s[k + 1..], p);
    CountAppend([x], s[k + 1..], p);
    CountAppend(s[..k], s[k + 1..], p);
    assert [x][..0] == [];
  }

  /** Counting does not depend on the order. */
  lemma {:induction false} CountPermuted<T>(s: seq<T>, t: seq<T>, p: T -> bool)
    requires multiset(s) == multiset(t)
    ensures |s| == |t| && Count(s, p) == Count(t, p)
  {
    assert |multiset(s)| == |s| && |multiset(t)| == |t|;
    if s != [] {
      var n := |s| - 1;
      assert s == s[..n] + [s[n]];
      assert multiset(s) == multiset(s[..n]) + multiset{s[n]};
      var rest := TakeOut(t, s[n], p);
      CountPermuted(s[..n], rest, p);
    }
  }

  ghost predicate Distinct<T>(s: seq<T>) {
    forall i, j :: 0 <= i < j < |s| ==> s[i] != s[j]
  }

  ghost predicate Permutation<T>(s: seq<T>, t: seq<T>) {
    multiset(s) == multiset(t)
  }

  /** A permutation neither repeats nor forgets: distinctness carries over. */
  lemma {:induction false} DistinctMultiset<T>(s: seq<T>)
    ensures Distinct(s) <==> forall x :: multiset(s)[x] <= 1
  {
    if s != [] {
      var n := |s| - 1;
      assert s == s[..n] + [s[n]];
      DistinctMultiset(s[..n]);
      assert multiset(s) == multiset(s[..n]) + multiset{s[n]};
      if Distinct(s) {
        assert s[n] !in s[..n];
      } else if Distinct(s[..n]) {
        assert s[n] in s[..n];
        assert multiset(s)[s[n]] >= 2;
      } else {
        var x :| multiset(s[..n])[x] > 1;
        assert multiset(s)[x] > 1;
      }
    }
  }

  /** Distinct naturals below |s| are all of them (the pigeonhole principle). */
  lemma {:induction false} Pigeonhole(s: seq<nat>, n: nat)
    requires Distinct(s) && |s| == n && forall x :: x in s ==> x < n
    ensures forall m: nat :: m < n ==> m in s
  {
    var seen := set x | x in s;
    DistinctSize(s);
    var all := Below(n);
    assert seen <= all;
    if seen != all {
      StrictSubsetSize(seen, all);
      assert false;
    }
    forall m: nat | m < n ensures m in s { assert m in all; }
  }

  /** A list has as many different elements as positions exactly when none repeats. */
  lemma {:induction false} DistinctSize<T>(s: seq<T>)
    ensures |set x | x in s| <= |s|
    ensures |set x | x in s| == |s| <==> Distinct(s)
  {
    if s != [] {
      var n := |s| - 1;
      DistinctSize(s[..n]);
      assert s == s[..n] + [s[n]];
      assert (set x | x in s) == (set x | x in s[..n]) + {s[n]};
      if s[n] in s[..n] {
        var i :| 0 <= i < n && s[i] == s[n];
        assert !Distinct(s);
        assert (set x | x in s) == (set x | x in s[..n]);
      }
    }
  }

  function Below(n: nat): (r: set<nat>)
    ensures |r| == n && forall m: nat :: m in r <==> m < n
  {
    if n == 0 then {} else Below(n - 1) + {n - 1}
  }

  lemma StrictSubsetSize<T>(a: set<T>, b: set<T>)
    requires a < b
    ensures |a| < |b|
  {
    assert b == a + (b - a);
    assert b - a != {};
  }

  /** The positions of the elements that satisfy p. */
  function Where<T>(s: seq<T>, p: T -> bool): set<nat> {
    set i: nat | i < |s| && p(s[i])
  }

  lemma WhereSnoc<T>(s: seq<T>, x: T, p: T -> bool)
    ensures Where(s + [x], p) == Where(s, p) + if p(x) then {|s|} else {}
  {
    forall i: nat ensures i in Where(s + [x], p) <==> i in Where(s, p) || (i == |s| && p(x)) {
      if i < |s| { assert (s + [x])[i] == s[i]; }
    }
  }

  /** Counting is measuring the set of positions. */
  lemma {:induction false} CountIsCardinality<T>(s: seq<T>, p: T -> bool)
    ensures Count(s, p) == |Where(s, p)|
  {
    if s == [] {
      assert Where(s, p) == {};
    } else {
      hide Where;
      var n := |s| - 1;
      CountIsCardinality(s[..n], p);
      assert s == s[..n] + [s[n]];
      WhereSnoc(s[..n], s[n], p);
      WhereBelow(s[..n], p);
    }
  }

  lemma WhereBelow<T>(s: seq<T>, p: T -> bool)
    ensures |s| !in Where(s, p)
  {
  }

  // ------------------------------------------------------------------ sorting

  ghost predicate TotalOrder<T(!new)>(le: (T, T) -> bool) {
    && (forall x, y :: le(x, y) || le(y, x))
    && (forall x, y, z :: le(x, y) && le(y, z) ==> le(x, z))
  }

  ghost predicate Sorted<T>(s: seq<T>, le: (T, T) -> bool) {
    forall i, j :: 0 <= i < j < |s| ==> le(s[i], s[j])
  }

  function Insert<T>(s: seq<T>, x: T, le: (T, T) -> bool): seq<T> {
    if s == [] || le(s[|s| - 1], x) then s + [x]
    else Insert(s[..|s| - 1], x, le) + [s[|s| - 1]]
  }

  /** What the runtime's stable `Array.prototype.sort` leaves in the array. */
  function Sort<T>(s: seq<T>, le: (T, T) -> bool): seq<T> {
    if s == [] then [] else Insert(Sort(s[..|s| - 1], le), s[|s| - 1], le)
  }

  lemma SortedSnoc<T(!new)>(s: seq<T>, x: T, le: (T, T) -> bool)
    requires Sorted(s, le) && forall y :: y in s ==> le(y, x)
    ensures Sorted(s + [x], le)
  {
  }

  lemma {:induction false} InsertCorrect<T(!new)>(s: seq<T>, x: T, le: (T, T) -> bool)
    requires TotalOrder(le) && Sorted(s, le)
    ensures Sorted(Insert(s, x, le), le)
    ensures multiset(Insert(s, x, le)) == multiset(s) + multiset{x}
  {
    if s != [] && !le(s[|s| - 1], x) {
      var n := |s| - 1;
      assert s == s[..n] + [s[n]];
      InsertCorrect(s[..n], x, le);
      var r := Insert(s[..n], x, le);
      forall y | y in r ensures le(y, s[n]) {
        assert y in multiset(r);
        assert y in s[..n] || y == x;
      }
      SortedSnoc(r, s[n], le);
    }
  }

  lemma {:induction false} SortCorrect<T(!new)>(s: seq<T>, le: (T, T) -> bool)
    requires TotalOrder(le)
    ensures Sorted(Sort(s, le), le) && multiset(Sort(s, le)) == multiset(s)
    ensures |Sort(s, le)| == |s|
  {
    if s != [] {
      var n := |s| - 1;
      SortCorrect(s[..n], le);
      InsertCorrect(Sort(s[..n], le), s[n], le);
      assert s == s[..n] + [s[n]];
    }
    assert |multiset(Sort(s, le))| == |multiset(s)|;
  }
}
