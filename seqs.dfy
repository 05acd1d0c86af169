/** Sequence helpers shared by the word finder and the grid generator: order-keeping
    filtering, element-wise mapping, distinctness, and the lexicographic order that
    Rust uses to compare `String`s. */
module Seqs {

  /** `f` applied to every element of `s`, in order. */
  function Map<A, B>(f: A -> B, s: seq<A>): (r: seq<B>)
    ensures |r| == |s|
    ensures forall i | 0 <= i < |s| :: r[i] == f(s[i])
  {
    seq(|s|, i requires 0 <= i < |s| => f(s[i]))
  }

  /** Mapping a sequence with one more element at the end. */
  lemma MapSnoc<A, B>(f: A -> B, s: seq<A>)
    requires s != []
    ensures Map(f, s) == Map(f, s[..|s| - 1]) + [f(s[|s| - 1])]
  {
  }

  /** The elements of `s` that satisfy `keep`, in their original order and with their
      original repetitions: what `iter().filter(..).collect()` and a push loop guarded by
      `keep` both produce. */
  function Filtered<T(!new)>(s: seq<T>, keep: T -> bool): (r: seq<T>)
    ensures |r| <= |s|
    ensures forall x :: x in r <==> x in s && keep(x)
    ensures forall x | keep(x) :: multiset(r)[x] == multiset(s)[x]
    ensures forall x | !keep(x) :: multiset(r)[x] == 0
  {
    if s == [] then []
    else
      var init := s[..|s| - 1];
      assert s == init + [s[|s| - 1]];
      if keep(s[|s| - 1]) then Filtered(init, keep) + [s[|s| - 1]] else Filtered(init, keep)
  }

  /** Filtering by a weaker test first changes nothing. */
  lemma {:induction false} FilteredFiltered<T(!new)>(s: seq<T>, weak: T -> bool, strong: T -> bool)
    requires forall x | strong(x) :: weak(x)
    ensures Filtered(Filtered(s, weak), strong) == Filtered(s, strong)
    decreases |s|
  {
    if s != [] {
      var init := s[..|s| - 1];
      var last := s[|s| - 1];
      FilteredFiltered(init, weak, strong);
      if weak(last) {
        var w := Filtered(init, weak);
        assert (w + [last])[..|w|] == w;
      }
    }
  }

  /** One more element at the end is one more copy in the multiset. */
  lemma MultisetSnoc<T>(s: seq<T>)
    requires s != []
    ensures multiset(s) == multiset(s[..|s| - 1]) + multiset{s[|s| - 1]}
  {
    assert s == s[..|s| - 1] + [s[|s| - 1]];
  }

  /** No element occurs twice. */
  predicate Distinct<T(==)>(s: seq<T>) {
    forall i, j | 0 <= i < j < |s| :: s[i] != s[j]
  }

  lemma {:induction false} DistinctMultiplicity<T>(s: seq<T>, x: T)
    requires Distinct(s)
    ensures multiset(s)[x] == if x in s then 1 else 0
    decreases |s|
  {
    if s != [] {
      var init := s[..|s| - 1];
      assert s == init + [s[|s| - 1]];
      assert Distinct(init);
      DistinctMultiplicity(init, x);
    }
  }

  /** A sub-multiset is no larger than the multiset that contains it. */
  lemma SubMultisetCard<T>(a: multiset<T>, b: multiset<T>)
    requires a <= b
    ensures |a| <= |b|
  {
    var rest := b - a;
    assert b == a + rest;
  }

  /** Taking out the element at `j` takes one copy of it out of the multiset. */
  lemma MultisetRemoveAt<T>(s: seq<T>, j: int)
    requires 0 <= j < |s|
    ensures multiset(s) == multiset(s[..j] + s[j + 1..]) + multiset{s[j]}
  {
    assert s == s[..j] + [s[j]] + s[j + 1..];
  }

  /** Taking out the element at `j` before mapping takes its image out after. */
  lemma MapRemoveAt<A, B>(f: A -> B, ys: seq<A>, j: int)
    requires 0 <= j < |ys|
    ensures multiset(Map(f, ys)) == multiset(Map(f, ys[..j] + ys[j + 1..])) + multiset{f(ys[j])}
  {
    var image := Map(f, ys);
    MultisetRemoveAt(image, j);
    assert Map(f, ys[..j] + ys[j + 1..]) == image[..j] + image[j + 1..];
  }

  /** Matching the first element of `xs` with a copy in `ys` leaves a sub-multiset. */
  lemma RemoveMatched<T>(xs: seq<T>, ys: seq<T>, j: int)
    requires xs != [] && 0 <= j < |ys| && ys[j] == xs[0]
    requires multiset(xs) <= multiset(ys)
    ensures multiset(xs[1..]) <= multiset(ys[..j] + ys[j + 1..])
  {
    assert xs == [xs[0]] + xs[1..];
    MultisetRemoveAt(ys, j);
    var rest := multiset(ys[..j] + ys[j + 1..]);
    forall x ensures multiset(xs[1..])[x] <= rest[x] {
      assert multiset(xs)[x] <= multiset(ys)[x];
    }
  }

  /** Mapping keeps the sub-multiset relation: if every element of `xs` can be matched
      with a distinct element of `ys`, the same holds of their images. */
  lemma {:induction false} MapSubMultiset<A, B>(f: A -> B, xs: seq<A>, ys: seq<A>)
    requires multiset(xs) <= multiset(ys)
    ensures multiset(Map(f, xs)) <= multiset(Map(f, ys))
    decreases |xs|
  {
    if xs != [] {
      var a := xs[0];
      assert a in multiset(xs);
      var j :| 0 <= j < |ys| && ys[j] == a;
      RemoveMatched(xs, ys, j);
      MapSubMultiset(f, xs[1..], ys[..j] + ys[j + 1..]);
      MapRemoveAt(f, ys, j);
      assert Map(f, xs) == [f(a)] + Map(f, xs[1..]);
    }
  }

  /** Rust's `Ord` for `String`: lexicographic, a proper prefix first. Comparing UTF-8
      bytes and comparing code points give the same order, so characters are compared. */
  predicate StrLt(a: string, b: string)
    decreases |a|
  {
    |b| > 0 && (|a| == 0 || a[0] < b[0] || (a[0] == b[0] && StrLt(a[1..], b[1..])))
  }

  predicate StrLe(a: string, b: string) {
    a == b || StrLt(a, b)
  }

  /** Non-decreasing in Rust's string order (duplicates allowed). */
  predicate Sorted(s: seq<string>) {
    forall i, j | 0 <= i < j < |s| :: StrLe(s[i], s[j])
  }

  /** The string order is a strict order: never both ways, never reflexive. */
  lemma {:induction false} StrLtAsymmetric(a: string, b: string)
    requires StrLt(a, b)
    ensures !StrLt(b, a) && a != b
    decreases |a|
  {
    if |a| > 0 && a[0] == b[0] {
      StrLtAsymmetric(a[1..], b[1..]);
    }
  }

  /** The string order is transitive. */
  lemma {:induction false} StrLtTrans(a: string, b: string, c: string)
    requires StrLt(a, b) && StrLt(b, c)
    ensures StrLt(a, c)
    decreases |a|
  {
    if |a| > 0 && a[0] == b[0] && b[0] == c[0] {
      StrLtTrans(a[1..], b[1..], c[1..]);
    }
  }

  lemma StrLeLtTrans(a: string, b: string, c: string)
    requires StrLe(a, b) && StrLt(b, c)
    ensures StrLt(a, c)
  {
    if a != b {
      StrLtTrans(a, b, c);
    }
  }

  lemma StrLtLeTrans(a: string, b: string, c: string)
    requires StrLt(a, b) && StrLe(b, c)
    ensures StrLt(a, c)
  {
    if b != c {
      StrLtTrans(a, b, c);
    }
  }

  /** Any two different strings are ordered one way or the other. */
  lemma {:induction false} StrLtTotal(a: string, b: string)
    requires a != b
    ensures StrLt(a, b) || StrLt(b, a)
    decreases |a|
  {
    if |a| > 0 && |b| > 0 && a[0] == b[0] {
      assert a == [a[0]] + a[1..] && b == [b[0]] + b[1..];
      StrLtTotal(a[1..], b[1..]);
    }
  }

  /** Filtering a sorted sequence leaves it sorted: dictionary order is kept. */
  lemma {:induction false} FilteredSorted(s: seq<string>, keep: string -> bool)
    requires Sorted(s)
    ensures Sorted(Filtered(s, keep))
    decreases |s|
  {
    if s != [] {
      var init, last := s[..|s| - 1], s[|s| - 1];
      assert s == init + [last];
      assert Sorted(init);
      FilteredSorted(init, keep);
      var r := Filtered(init, keep);
      if keep(last) {
        assert Filtered(s, keep) == r + [last];
        SortedLastIsMax(init, last);
        forall x | x in r ensures StrLe(x, last) {
          assert x in init;
        }
        SortedSnoc(r, last);
      } else {
        assert Filtered(s, keep) == r;
      }
    }
  }

  /** The last element of a sorted sequence is no smaller than any before it. */
  lemma SortedLastIsMax(init: seq<string>, last: string)
    requires Sorted(init + [last])
    ensures forall x | x in init :: StrLe(x, last)
  {
    var s := init + [last];
    forall x | x in init ensures StrLe(x, last) {
      var k :| 0 <= k < |init| && init[k] == x;
      assert s[k] == x && s[|init|] == last;
    }
  }

  /** A sorted sequence stays sorted under a new last element no smaller than any. */
  lemma SortedSnoc(r: seq<string>, last: string)
    requires Sorted(r) && forall x | x in r :: StrLe(x, last)
    ensures Sorted(r + [last])
  {
    var t := r + [last];
    forall i, j | 0 <= i < j < |t| ensures StrLe(t[i], t[j]) {
      assert t[i] == r[i];
      if j < |r| {
        assert t[j] == r[j];
      } else {
        assert r[i] in r;
      }
    }
  }
}
