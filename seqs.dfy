/**
 * Sequence operations the pages use through JavaScript's array methods:
 * `filter`, the "remove if present, append if absent" toggle, and `reduce`
 * into a sum.
 */
module Seqs {

  /** `r` keeps some of the elements of `s`, without reordering them. */
  ghost predicate IsSubsequence<T>(r: seq<T>, s: seq<T>)
    decreases |s|
  {
    r == [] || (s != [] && ((r[0] == s[0] && IsSubsequence(r[1..], s[1..])) || IsSubsequence(r, s[1..])))
  }

  ghost predicate Distinct<T>(s: seq<T>) {
    forall i, j :: 0 <= i < j < |s| ==> s[i] != s[j]
  }

  /** `Array.prototype.filter`: the elements of `s` that `keep` accepts, in their original order. */
  function Filter<T>(s: seq<T>, keep: T -> bool): (r: seq<T>)
    ensures |r| <= |s|
    ensures forall x | x in r :: x in s && keep(x)
    ensures forall x {:trigger x in r} | x in s && keep(x) :: x in r
    ensures IsSubsequence(r, s)
    ensures forall x {:trigger multiset(r)[x]} | x in s && keep(x) :: multiset(r)[x] == multiset(s)[x]
    decreases |s|
  {
    if s == [] then []
    else
      assert s == [s[0]] + s[1..];
      if keep(s[0]) then [s[0]] + Filter(s[1..], keep)
      else Filter(s[1..], keep)
  }

  lemma {:induction false} FilterConcat<T>(a: seq<T>, b: seq<T>, keep: T -> bool)
    ensures Filter(a + b, keep) == Filter(a, keep) + Filter(b, keep)
    decreases |a|
  {
    if a == [] {
      assert a + b == b;
    } else {
      assert (a + b)[0] == a[0];
      assert (a + b)[1..] == a[1..] + b;
      FilterConcat(a[1..], b, keep);
    }
  }

  /** Filtering the prefix one element longer adds that element exactly when it is kept. */
  lemma FilterSnoc<T>(s: seq<T>, i: nat, keep: T -> bool)
    requires i < |s|
    ensures Filter(s[..i + 1], keep) == Filter(s[..i], keep) + (if keep(s[i]) then [s[i]] else [])
  {
    assert s[..i + 1] == s[..i] + [s[i]];
    FilterConcat(s[..i], [s[i]], keep);
    assert [s[i]][1..] == [];
  }

  lemma {:induction false} FilterKeepsAll<T>(s: seq<T>, keep: T -> bool)
    requires forall x :: x in s ==> keep(x)
    ensures Filter(s, keep) == s
    decreases |s|
  {
    if s != [] {
      assert s[0] in s;
      forall x | x in s[1..] ensures keep(x) { assert x in s; }
      FilterKeepsAll(s[1..], keep);
      assert [s[0]] + s[1..] == s;
    }
  }

  lemma {:induction false} FilterIdempotent<T>(s: seq<T>, keep: T -> bool)
    ensures Filter(Filter(s, keep), keep) == Filter(s, keep)
  {
    FilterKeepsAll(Filter(s, keep), keep);
  }

  lemma {:induction false} FilterDistinct<T>(s: seq<T>, keep: T -> bool)
    requires Distinct(s)
    ensures Distinct(Filter(s, keep))
    decreases |s|
  {
    if s != [] {
      var tail := s[1..];
      assert Distinct(tail) by {
        forall i, j | 0 <= i < j < |tail| ensures tail[i] != tail[j] { assert tail[i] == s[i + 1] && tail[j] == s[j + 1]; }
      }
      FilterDistinct(tail, keep);
      if keep(s[0]) {
        assert s[0] !in tail by {
          forall k | 0 <= k < |tail| ensures tail[k] != s[0] { assert tail[k] == s[k + 1]; }
        }
        ConsDistinct(s[0], Filter(tail, keep));
      }
    }
  }

  lemma ConsDistinct<T>(x: T, r: seq<T>)
    requires Distinct(r) && x !in r
    ensures Distinct([x] + r)
  {
    var c := [x] + r;
    forall i, j | 0 <= i < j < |c| ensures c[i] != c[j] {
      assert c[j] == r[j - 1];
      if i > 0 { assert c[i] == r[i - 1]; }
    }
  }

  /** Splitting by a predicate and putting the two parts together keeps every element exactly as often. */
  lemma {:induction false} PartitionIsPermutation<T>(s: seq<T>, keep: T -> bool, drop: T -> bool)
    requires forall x :: drop(x) == !keep(x)
    ensures multiset(Filter(s, keep) + Filter(s, drop)) == multiset(s)
    ensures |Filter(s, keep)| + |Filter(s, drop)| == |s|
    decreases |s|
  {
    if s != [] {
      PartitionIsPermutation(s[1..], keep, drop);
      assert s == [s[0]] + s[1..];
    }
  }

  /** Filtering by one predicate and then another keeps the same elements in either order. */
  lemma {:induction false} FilterCommute<T>(s: seq<T>, a: T -> bool, b: T -> bool)
    ensures Filter(Filter(s, a), b) == Filter(Filter(s, b), a)
    decreases |s|
  {
    if s != [] {
      FilterCommute(s[1..], a, b);
    }
  }

  /** Filtering twice is filtering once by the conjunction of the two tests. */
  lemma {:induction false} FilterFilter<T>(s: seq<T>, a: T -> bool, b: T -> bool, both: T -> bool)
    requires forall x :: both(x) == (a(x) && b(x))
    ensures Filter(Filter(s, a), b) == Filter(s, both)
    decreases |s|
  {
    if s != [] {
      FilterFilter(s[1..], a, b, both);
    }
  }

  /** `Array.prototype.map`: `f` applied to every element, in order. */
  function Map<T, U>(s: seq<T>, f: T -> U): (r: seq<U>)
    ensures |r| == |s|
    ensures forall i | 0 <= i < |s| :: r[i] == f(s[i])
  {
    seq(|s|, i requires 0 <= i < |s| => f(s[i]))
  }

  lemma MapCons<T, U>(x: T, s: seq<T>, f: T -> U)
    ensures Map([x] + s, f) == [f(x)] + Map(s, f)
  {
  }

  /** A map that never changes whether an element is kept commutes with the filter. */
  lemma {:induction false} FilterMapCommute<T>(s: seq<T>, f: T -> T, keep: T -> bool)
    requires forall x :: keep(f(x)) == keep(x)
    ensures Filter(Map(s, f), keep) == Map(Filter(s, keep), f)
    decreases |s|
  {
    if s != [] {
      var m := Map(s, f);
      var rest := Filter(s[1..], keep);
      assert m == [f(s[0])] + Map(s[1..], f) by {
        assert s == [s[0]] + s[1..];
        MapCons(s[0], s[1..], f);
      }
      FilterMapCommute(s[1..], f, keep);
      assert keep(f(s[0])) == keep(s[0]);
      if keep(s[0]) {
        assert Filter(s, keep) == [s[0]] + rest;
        MapCons(s[0], rest, f);
      } else {
        assert Filter(s, keep) == rest;
      }
    }
  }

  /**
   * Writes the elements of `s` that `keep` accepts into `a` from `start`
   * on, in their order, and returns where they end; the array before
   * `start` is left as it was.
   */
  method PlaceKept<T>(a: array<T>, start: nat, s: seq<T>, keep: T -> bool) returns (end: nat)
    requires start + |Filter(s, keep)| <= a.Length
    modifies a
    ensures end == start + |Filter(s, keep)|
    ensures a[start..end] == Filter(s, keep)
    ensures a[..start] == old(a[..start])
  {
    end := start;
    for i := 0 to |s|
      invariant end == start + |Filter(s[..i], keep)| <= a.Length
      invariant a[start..end] == Filter(s[..i], keep)
      invariant a[..start] == old(a[..start])
    {
      end := PlaceNext(a, start, end, s, i, keep);
    }
    assert s[..|s|] == s;
  }

  /** One step of `PlaceKept`: `s[i]` is written after the run when `keep` accepts it. */
  method PlaceNext<T>(a: array<T>, start: nat, end: nat, s: seq<T>, i: nat, keep: T -> bool) returns (next: nat)
    requires i < |s| && start + |Filter(s, keep)| <= a.Length
    requires end == start + |Filter(s[..i], keep)| <= a.Length
    requires a[start..end] == Filter(s[..i], keep)
    modifies a
    ensures next == start + |Filter(s[..i + 1], keep)| <= a.Length
    ensures a[start..next] == Filter(s[..i + 1], keep)
    ensures a[..start] == old(a[..start])
  {
    FilterSnoc(s, i, keep);
    FilterPrefixShorter(s, i + 1, keep);
    next := end;
    if keep(s[i]) {
      a[end] := s[i];
      assert a[start..end] == old(a[start..end]);
      next := end + 1;
    }
  }

  lemma ArraySplit<T>(a: array<T>, n: nat)
    requires n <= a.Length
    ensures a[..] == a[..n] + a[n..a.Length]
  {
  }

  lemma FilterPrefixShorter<T>(s: seq<T>, i: nat, keep: T -> bool)
    requires i <= |s|
    ensures |Filter(s[..i], keep)| <= |Filter(s, keep)|
  {
    assert s == s[..i] + s[i..];
    FilterConcat(s[..i], s[i..], keep);
  }

  /** The predicate that holds of every value except `x`. */
  function Differs<T(==)>(x: T): T -> bool {
    y => y != x
  }

  /** `s.filter(y => y !== x)`: every occurrence of `x` removed. */
  function RemoveAll<T(==)>(s: seq<T>, x: T): (r: seq<T>)
    ensures forall y | y in r :: y in s && y != x
    ensures forall y | y in s && y != x :: y in r
    ensures IsSubsequence(r, s)
    ensures multiset(r) == multiset(s)[x := 0]
  {
    var r := Filter(s, Differs(x));
    assert forall y | y in s && y != x :: multiset(r)[y] == multiset(s)[y];
    r
  }

  /**
   * `s.includes(x) ? s.filter(y => y !== x) : [...s, x]`: a present value is
   * removed (every occurrence), an absent one appended at the end.
   */
  function Toggle<T(==)>(s: seq<T>, x: T): (r: seq<T>)
    ensures x in r <==> x !in s
    ensures forall y | y in r && y != x :: y in s
    ensures forall y | y in s && y != x :: y in r
    ensures x in s ==> IsSubsequence(r, s) && multiset(r) == multiset(s)[x := 0]
    ensures x !in s ==> r == s + [x]
  {
    if x in s then RemoveAll(s, x) else s + [x]
  }

  /** Toggling an absent value twice gives back the original list. */
  lemma {:induction false} ToggleTwiceRestores<T>(s: seq<T>, x: T)
    requires x !in s
    ensures Toggle(Toggle(s, x), x) == s
  {
    assert x in s + [x];
    FilterConcat(s, [x], Differs(x));
    FilterKeepsAll(s, Differs(x));
    assert Filter([x], Differs(x)) == [];
  }

  /** Toggling never introduces a duplicate. */
  lemma {:induction false} ToggleKeepsDistinct<T>(s: seq<T>, x: T)
    ensures Distinct(s) ==> Distinct(Toggle(s, x))
  {
    if !Distinct(s) {
    } else if x in s {
      FilterDistinct(s, Differs(x));
    } else {
      var r := s + [x];
      forall i, j | 0 <= i < j < |r| ensures r[i] != r[j] {
        if j == |s| { assert r[i] == s[i]; } else { assert r[i] == s[i] && r[j] == s[j]; }
      }
    }
  }

  /** `s.reduce((total, x) => total + f(x), 0)`. */
  function SumOf<T>(s: seq<T>, f: T -> int): (r: int)
    ensures (forall i | 0 <= i < |s| :: f(s[i]) >= 0) ==> r >= 0
    ensures (forall i | 0 <= i < |s| :: f(s[i]) >= 1) ==> r >= |s|
    decreases |s|
  {
    if s == [] then 0 else SumOf(s[..|s| - 1], f) + f(s[|s| - 1])
  }

  lemma SumOfSnoc<T>(s: seq<T>, x: T, f: T -> int)
    ensures SumOf(s + [x], f) == SumOf(s, f) + f(x)
  {
    assert (s + [x])[..|s|] == s;
  }

  /** Replacing one element changes the sum by the difference of the two summands. */
  lemma {:induction false} SumOfUpdate<T>(s: seq<T>, i: nat, x: T, f: T -> int)
    requires i < |s|
    ensures SumOf(s[i := x], f) == SumOf(s, f) - f(s[i]) + f(x)
    decreases |s|
  {
    var n := |s| - 1;
    if i == n {
      assert s[i := x][..n] == s[..n];
    } else {
      assert s[i := x][..n] == s[..n][i := x];
      SumOfUpdate(s[..n], i, x, f);
    }
  }
}
